/** Resolution of a configuration template with the properties of a configuration. */
module EnvoyConfiguration {
  import opened Wrappers
  import opened Template
  import Decimals

  datatype Configuration = Configuration(
    statsDomain: string, connectTimeoutSeconds: int, dnsRefreshSeconds: int, dnsFailureRefreshSecondsBase: int,
    dnsFailureRefreshSecondsMax: int, filterNames: seq<string>, statsFlushSeconds: int, appVersion: string,
    appId: string, virtualClusters: string)

  const FILTER_NAME := "platform_filter_name"
  const FILTER_CHAIN := "platform_filter_chain"
  const STATS_DOMAIN := "stats_domain"

  function FilterChain(filterTemplate: string, names: seq<string>): string {
    if names == [] then ""
    else
      FilterChain(filterTemplate, names[..|names| - 1]) +
      Replace(filterTemplate, Token(FILTER_NAME), names[|names| - 1])
  }

  /** The replacements made after that of the filter chain. */
  function LaterValues(c: Configuration): seq<(string, string)> {
    [("connect_timeout_seconds", Decimals.Print(c.connectTimeoutSeconds)),
     ("dns_refresh_rate_seconds", Decimals.Print(c.dnsRefreshSeconds)),
     ("dns_failure_refresh_rate_seconds_base", Decimals.Print(c.dnsFailureRefreshSecondsBase)),
     ("dns_failure_refresh_rate_seconds_max", Decimals.Print(c.dnsFailureRefreshSecondsMax)),
     ("stats_flush_interval_seconds", Decimals.Print(c.statsFlushSeconds)),
     ("device_os", "Android"),
     ("app_version", c.appVersion),
     ("app_id", c.appId),
     ("virtual_clusters", c.virtualClusters)]
  }

  function Resolve(c: Configuration, template: string, filterTemplate: string): Option<string> {
    var values := [(STATS_DOMAIN, c.statsDomain), (FILTER_CHAIN, FilterChain(filterTemplate, c.filterNames))] +
      LaterValues(c);
    var resolved := ReplaceAll(template, values);
    if Contains(resolved, "{{") then None else Some(resolved)
  }

  /** None stands for the configuration exception. */
  method ResolveTemplate(c: Configuration, templateYaml: string, filterTemplateYaml: string)
    returns (resolved: Option<string>)
    ensures resolved == Resolve(c, templateYaml, filterTemplateYaml)
  {
    var chain := "";
    for i := 0 to |c.filterNames|
      invariant chain == FilterChain(filterTemplateYaml, c.filterNames[..i])
    {
      assert c.filterNames[..i + 1][..i] == c.filterNames[..i];
      var filterConfig := Replace(filterTemplateYaml, Token(FILTER_NAME), c.filterNames[i]);
      chain := chain + filterConfig;
    }
    assert c.filterNames[..|c.filterNames|] == c.filterNames;
    var values := [(STATS_DOMAIN, c.statsDomain), (FILTER_CHAIN, chain)] + LaterValues(c);
    var text := templateYaml;
    for i := 0 to |values|
      invariant ReplaceAll(templateYaml, values) == ReplaceAll(text, values[i..])
    {
      assert values[i..][1..] == values[i + 1..];
      text := Replace(text, Token(values[i].0), values[i].1);
    }
    var unresolved := false;
    for i := 0 to |text|
      invariant unresolved <==> exists k {:trigger text[k..]} :: 0 <= k < i && "{{" <= text[k..]
    {
      unresolved := unresolved || "{{" <= text[i..];
    }
    assert unresolved <==> Contains(text, "{{") by {
      assert !("{{" <= text[|text|..]);
    }
    resolved := if unresolved then None else Some(text);
  }

  // ---------- In terms of pieces ----------

  /** Every value is free of double braces and does not end in a brace. */
  predicate PlainConfiguration(c: Configuration) {
    && Plain(c.statsDomain) && Plain(c.appVersion) && Plain(c.appId) && Plain(c.virtualClusters)
    && forall n :: n in c.filterNames ==> Plain(n)
  }

  function FilterPieces(fs: seq<Piece>, names: seq<string>): seq<Piece> {
    if names == [] then []
    else
      FilterPieces(fs, names[..|names| - 1]) + Substitute(fs, FILTER_NAME, [Literal(names[|names| - 1])])
  }

  function Bound(value: (string, string)): Binding {
    (value.0, [Literal(value.1)])
  }

  function LaterBindings(c: Configuration): seq<Binding> {
    seq(|LaterValues(c)|, i requires 0 <= i < |LaterValues(c)| => Bound(LaterValues(c)[i]))
  }

  function Bindings(c: Configuration, chain: seq<Piece>): seq<Binding> {
    [Bound((STATS_DOMAIN, c.statsDomain)), (FILTER_CHAIN, chain)] + LaterBindings(c)
  }

  predicate Later(name: string) {
    name in ["connect_timeout_seconds", "dns_refresh_rate_seconds", "dns_failure_refresh_rate_seconds_base",
             "dns_failure_refresh_rate_seconds_max", "stats_flush_interval_seconds", "device_os", "app_version",
             "app_id", "virtual_clusters"]
  }

  predicate Known(name: string) {
    name == STATS_DOMAIN || name == FILTER_CHAIN || Later(name)
  }

  lemma {:induction false} FilterChainIsPieces(fs: seq<Piece>, names: seq<string>)
    requires WellFormed(fs) && forall n :: n in names ==> Plain(n)
    ensures FilterChain(Text(fs), names) == Text(FilterPieces(fs, names))
    ensures WellFormed(FilterPieces(fs, names))
  {
    if names != [] {
      var front, last := names[..|names| - 1], names[|names| - 1];
      assert last in names;
      FilterNameGood();
      hide Plain, GoodName, Token, Replace, Text;
      FilterChainIsPieces(fs, front);
      LiteralText(last);
      ReplaceIsSubstitute(fs, FILTER_NAME, [Literal(last)]);
      SubstituteWellFormed(fs, FILTER_NAME, [Literal(last)]);
      TextAppend(FilterPieces(fs, front), Substitute(fs, FILTER_NAME, [Literal(last)]));
    }
  }

  lemma FilterNameGood()
    ensures GoodName(FILTER_NAME)
  {
  }

  lemma LiteralText(s: string)
    ensures Text([Literal(s)]) == s
  {
    assert Text([Literal(s)]) == s + Text([]) == s;
  }

  lemma {:induction false} FilterPiecesHave(fs: seq<Piece>, names: seq<string>, n: string)
    ensures Placeholder(n) in FilterPieces(fs, names) <==>
            names != [] && n != FILTER_NAME && Placeholder(n) in fs
  {
    if names != [] {
      FilterPiecesHave(fs, names[..|names| - 1], n);
      SubstituteHas(fs, FILTER_NAME, [Literal(names[|names| - 1])], n);
    }
  }

  lemma NumeralIsPlain(i: int)
    ensures Plain(Decimals.Print(i))
  {
    var s := Decimals.Print(i);
    assert forall k :: 0 <= k < |s| ==> s[k] in s;
  }

  lemma LaterBindingsGood(c: Configuration)
    requires PlainConfiguration(c)
    ensures GoodBindings(LaterBindings(c)) && Closed(LaterBindings(c))
    ensures forall n :: Later(n) <==> exists b :: b in LaterBindings(c) && b.0 == n
    ensures Texts(LaterBindings(c)) == LaterValues(c)
  {
    LaterValuesGood(c);
    LaterNames(c);
    hide LaterValues, Later, Plain, GoodName, GoodValue;
    var vs, bs := LaterValues(c), LaterBindings(c);
    forall i | 0 <= i < |vs| ensures Texts(bs)[i] == vs[i] && GoodName(bs[i].0) && WellFormed(bs[i].1) {
      assert vs[i] in vs;
      BoundGood(vs[i]);
    }
  }

  lemma BoundGood(v: (string, string))
    requires GoodValue(v)
    ensures Text(Bound(v).1) == v.1 && GoodName(v.0) && WellFormed(Bound(v).1)
  {
    LiteralText(v.1);
  }

  predicate GoodValue(v: (string, string)) {
    GoodName(v.0) && Plain(v.1)
  }

  lemma LaterValuesGood(c: Configuration)
    requires PlainConfiguration(c)
    ensures forall v :: v in LaterValues(c) ==> GoodValue(v)
  {
    NumeralIsPlain(c.connectTimeoutSeconds);
    NumeralIsPlain(c.dnsRefreshSeconds);
    NumeralIsPlain(c.dnsFailureRefreshSecondsBase);
    NumeralIsPlain(c.dnsFailureRefreshSecondsMax);
    NumeralIsPlain(c.statsFlushSeconds);
    RateNamesGood();
    OtherNamesGood();
    hide Decimals.Print, Plain, GoodName;
    AllGood(LaterValues(c));
  }

  lemma AllGood(vs: seq<(string, string)>)
    requires |vs| == 9 && GoodValue(vs[0]) && GoodValue(vs[1]) && GoodValue(vs[2]) && GoodValue(vs[3])
    requires GoodValue(vs[4]) && GoodValue(vs[5]) && GoodValue(vs[6]) && GoodValue(vs[7]) && GoodValue(vs[8])
    ensures forall v :: v in vs ==> GoodValue(v)
  {
    hide GoodValue;
  }

  lemma RateNamesGood()
    ensures GoodName("dns_refresh_rate_seconds")
    ensures GoodName("dns_failure_refresh_rate_seconds_base") && GoodName("dns_failure_refresh_rate_seconds_max")
  {
  }

  lemma OtherNamesGood()
    ensures GoodName("connect_timeout_seconds") && GoodName("stats_flush_interval_seconds") && GoodName("device_os")
    ensures GoodName("app_version") && GoodName("app_id") && GoodName("virtual_clusters") && Plain("Android")
  {
  }

  lemma LaterNames(c: Configuration)
    ensures forall n :: Later(n) <==> exists b :: b in LaterBindings(c) && b.0 == n
  {
    var bs := LaterBindings(c);
    hide Decimals.Print;
    forall n ensures Later(n) <==> exists b :: b in bs && b.0 == n {
      assert [bs[0].0, bs[1].0, bs[2].0, bs[3].0, bs[4].0, bs[5].0, bs[6].0, bs[7].0, bs[8].0] ==
             ["connect_timeout_seconds", "dns_refresh_rate_seconds", "dns_failure_refresh_rate_seconds_base",
              "dns_failure_refresh_rate_seconds_max", "stats_flush_interval_seconds", "device_os", "app_version",
              "app_id", "virtual_clusters"];
    }
  }

  lemma BindingsGood(c: Configuration, chain: seq<Piece>)
    requires PlainConfiguration(c) && WellFormed(chain)
    ensures GoodBindings(Bindings(c, chain))
    ensures Texts(Bindings(c, chain)) ==
            [(STATS_DOMAIN, c.statsDomain), (FILTER_CHAIN, Text(chain))] + LaterValues(c)
  {
    LaterBindingsGood(c);
    LiteralText(c.statsDomain);
    hide LaterValues, LaterBindings, Plain, WellFormed, Text, GoodBindings;
    var bs, later := Bindings(c, chain), LaterBindings(c);
    var front := [Bound((STATS_DOMAIN, c.statsDomain)), (FILTER_CHAIN, chain)];
    TextsAppend(front, later);
    FrontGood(c, chain);
    GoodAppend(front, later);
  }

  lemma TextsAppend(a: seq<Binding>, b: seq<Binding>)
    ensures Texts(a + b) == Texts(a) + Texts(b)
  {
  }

  lemma GoodAppend(a: seq<Binding>, b: seq<Binding>)
    requires GoodBindings(a) && GoodBindings(b)
    ensures GoodBindings(a + b)
  {
  }

  lemma FrontGood(c: Configuration, chain: seq<Piece>)
    requires Plain(c.statsDomain) && WellFormed(chain)
    ensures GoodBindings([Bound((STATS_DOMAIN, c.statsDomain)), (FILTER_CHAIN, chain)])
  {
  }

  /** A key is left over: unknown in the template, or in an inserted filter and not replaced after insertion. */
  predicate LeftOver(c: Configuration, ps: seq<Piece>, fs: seq<Piece>, n: string) {
    (Placeholder(n) in ps && !Known(n)) ||
    (Placeholder(FILTER_CHAIN) in ps && c.filterNames != [] &&
     Placeholder(n) in fs && n != FILTER_NAME && !Later(n))
  }

  /** For all templates: resolution is substitution, and it raises the exception exactly when a key is left over. */
  lemma ResolvesExactly(c: Configuration, ps: seq<Piece>, fs: seq<Piece>)
    requires WellFormed(ps) && WellFormed(fs) && PlainConfiguration(c)
    ensures Resolve(c, Text(ps), Text(fs)) ==
            if exists n :: LeftOver(c, ps, fs, n) then None
            else Some(Text(SubstituteAll(ps, Bindings(c, FilterPieces(fs, c.filterNames)))))
  {
    var chain := FilterPieces(fs, c.filterNames);
    FilterChainIsPieces(fs, c.filterNames);
    BindingsGood(c, chain);
    ChainIsSubstitution(ps, Bindings(c, chain));
    var final := SubstituteAll(ps, Bindings(c, chain));
    CheckFiresExactly(final);
    forall n ensures Placeholder(n) in final <==> LeftOver(c, ps, fs, n) {
      FinalHas(c, ps, fs, n);
    }
    assert HasPlaceholder(final) <==> exists n :: Placeholder(n) in final by {
      if HasPlaceholder(final) {
        var p :| p in final && p.Placeholder?;
        assert Placeholder(p.name) in final;
      }
    }
  }

  lemma FinalHas(c: Configuration, ps: seq<Piece>, fs: seq<Piece>, n: string)
    requires PlainConfiguration(c)
    ensures Placeholder(n) in SubstituteAll(ps, Bindings(c, FilterPieces(fs, c.filterNames))) <==>
            LeftOver(c, ps, fs, n)
  {
    var chain := FilterPieces(fs, c.filterNames);
    var bs, later := Bindings(c, chain), LaterBindings(c);
    var first := Substitute(ps, STATS_DOMAIN, [Literal(c.statsDomain)]);
    var second := Substitute(first, FILTER_CHAIN, chain);
    assert bs[1..][1..] == later && bs[1..][0] == (FILTER_CHAIN, chain);
    assert SubstituteAll(ps, bs) == SubstituteAll(first, bs[1..]) == SubstituteAll(second, later);
    LaterBindingsGood(c);
    SubstituteAllHas(second, later, n);
    SubstituteHas(first, FILTER_CHAIN, chain, n);
    SubstituteHas(ps, STATS_DOMAIN, [Literal(c.statsDomain)], n);
    SubstituteHas(ps, STATS_DOMAIN, [Literal(c.statsDomain)], FILTER_CHAIN);
    FilterPiecesHave(fs, c.filterNames, n);
  }

  /** A key of an inserted filter that is replaced only because its replacement comes after the insertion. */
  predicate Inserted(c: Configuration, ps: seq<Piece>, fs: seq<Piece>, n: string) {
    Placeholder(FILTER_CHAIN) in ps && c.filterNames != [] && Placeholder(n) in fs && n != FILTER_NAME && Later(n)
  }

  /** The template with all keys replaced at once. */
  function AtOnce(c: Configuration, ps: seq<Piece>, fs: seq<Piece>): seq<Piece> {
    Simultaneous(ps, AsMap(Bindings(c, FilterPieces(fs, c.filterNames))))
  }

  /** Resolution as it would be with all keys replaced at once. */
  function ResolveAtOnce(c: Configuration, ps: seq<Piece>, fs: seq<Piece>): Option<string> {
    if Contains(Text(AtOnce(c, ps, fs)), "{{") then None else Some(Text(AtOnce(c, ps, fs)))
  }

  /**
   For all templates: resolution is the simultaneous substitution if and only if some key is left over, so that both
   fail, or no inserted filter has a key whose replacement comes later.
   */
  lemma ResolutionIsSimultaneousExactly(c: Configuration, ps: seq<Piece>, fs: seq<Piece>)
    requires WellFormed(ps) && WellFormed(fs) && PlainConfiguration(c)
    ensures Resolve(c, Text(ps), Text(fs)) == ResolveAtOnce(c, ps, fs) <==>
            (exists n :: LeftOver(c, ps, fs, n)) || (forall n :: !Inserted(c, ps, fs, n))
  {
    ResolvesExactly(c, ps, fs);
    AtOnceFailsExactly(c, ps, fs);
    hide Resolve, AtOnce, Text, LeftOver, Inserted, WellFormed, PlainConfiguration, Contains;
    if (forall n :: !LeftOver(c, ps, fs, n)) && (forall n :: !Inserted(c, ps, fs, n)) {
      NothingInserted(c, ps, fs);
    }
  }

  lemma AtOnceFailsExactly(c: Configuration, ps: seq<Piece>, fs: seq<Piece>)
    requires WellFormed(ps) && WellFormed(fs) && PlainConfiguration(c)
    ensures Contains(Text(AtOnce(c, ps, fs)), "{{") <==>
            exists n :: LeftOver(c, ps, fs, n) || Inserted(c, ps, fs, n)
  {
    var chain := FilterPieces(fs, c.filterNames);
    var bs := Bindings(c, chain);
    FilterChainIsPieces(fs, c.filterNames);
    BindingsGood(c, chain);
    BindingsDistinct(c, chain);
    AsMapWellFormed(bs);
    SimultaneousWellFormed(ps, AsMap(bs));
    CheckFiresExactly(AtOnce(c, ps, fs));
    forall n ensures Placeholder(n) in AtOnce(c, ps, fs) <==> LeftOver(c, ps, fs, n) || Inserted(c, ps, fs, n) {
      AtOnceHas(c, ps, fs, n);
    }
    hide LeftOver, Inserted, AtOnce, WellFormed, PlainConfiguration, Contains;
    HasPlaceholderByName(AtOnce(c, ps, fs));
  }

  lemma HasPlaceholderByName(ps: seq<Piece>)
    ensures HasPlaceholder(ps) <==> exists n :: Placeholder(n) in ps
  {
    if HasPlaceholder(ps) {
      var p :| p in ps && p.Placeholder?;
      assert Placeholder(p.name) in ps;
    }
  }

  lemma AtOnceHas(c: Configuration, ps: seq<Piece>, fs: seq<Piece>, n: string)
    requires PlainConfiguration(c)
    ensures Placeholder(n) in AtOnce(c, ps, fs) <==> LeftOver(c, ps, fs, n) || Inserted(c, ps, fs, n)
  {
    var chain := FilterPieces(fs, c.filterNames);
    var m := AsMap(Bindings(c, chain));
    SimultaneousHas(ps, m, n);
    FilterPiecesHave(fs, c.filterNames, n);
    BindingsMap(c, chain);
    hide AsMap, Bindings, Simultaneous, FilterPieces, PlainConfiguration, Later;
    if exists k :: k in m && Placeholder(k) in ps && Placeholder(n) in m[k] {
      var k :| k in m && Placeholder(k) in ps && Placeholder(n) in m[k];
      assert k == FILTER_CHAIN;
    }
  }

  /** The bindings as a map: the known keys, the chain, and literals. */
  lemma BindingsMap(c: Configuration, chain: seq<Piece>)
    requires PlainConfiguration(c)
    ensures var m := AsMap(Bindings(c, chain));
            && (forall k :: k in m <==> Known(k)) && m[FILTER_CHAIN] == chain
            && forall k :: k in m && k != FILTER_CHAIN ==> AllLiterals(m[k])
  {
    var bs := Bindings(c, chain);
    var m := AsMap(bs);
    BindingsDistinct(c, chain);
    LaterBindingsGood(c);
    assert bs[1] == (FILTER_CHAIN, chain) && bs[1] in bs;
    AsMapLookup(bs, FILTER_CHAIN);
    forall k
      ensures k in m <==> Known(k)
      ensures k in m && k != FILTER_CHAIN ==> AllLiterals(m[k])
    {
      AsMapLookup(bs, k);
      BoundNames(c, chain, k);
    }
  }

  lemma BoundNames(c: Configuration, chain: seq<Piece>, k: string)
    requires PlainConfiguration(c)
    ensures (exists b :: b in Bindings(c, chain) && b.0 == k) <==> Known(k)
    ensures forall b :: b in Bindings(c, chain) && b.0 != FILTER_CHAIN ==> AllLiterals(b.1)
  {
    LaterBindingsGood(c);
    var first := Bound((STATS_DOMAIN, c.statsDomain));
    var bs, later := Bindings(c, chain), LaterBindings(c);
    hide LaterBindings, Later, GoodBindings, PlainConfiguration;
    assert bs == [first, (FILTER_CHAIN, chain)] + later;
    forall b ensures b in bs <==> b == first || b == (FILTER_CHAIN, chain) || b in later {
      assert b == first ==> bs[0] == b;
      assert b == (FILTER_CHAIN, chain) ==> bs[1] == b;
    }
    assert first in bs && (FILTER_CHAIN, chain) in bs;
  }

  lemma ChainKeys(c: Configuration, ps: seq<Piece>, fs: seq<Piece>, n: string)
    requires Placeholder(FILTER_CHAIN) in ps && Placeholder(n) in FilterPieces(fs, c.filterNames)
    ensures LeftOver(c, ps, fs, n) || Inserted(c, ps, fs, n)
  {
    FilterPiecesHave(fs, c.filterNames, n);
  }

  /** Without such a key, sequential and simultaneous substitution agree. */
  lemma NothingInserted(c: Configuration, ps: seq<Piece>, fs: seq<Piece>)
    requires PlainConfiguration(c)
    requires forall n :: !LeftOver(c, ps, fs, n) && !Inserted(c, ps, fs, n)
    ensures SubstituteAll(ps, Bindings(c, FilterPieces(fs, c.filterNames))) == AtOnce(c, ps, fs)
  {
    var chain := FilterPieces(fs, c.filterNames);
    var used := if Placeholder(FILTER_CHAIN) in ps then chain else [];
    BindingsDistinct(c, used);
    forall p | p in used ensures p.Literal? {
      if p.Placeholder? {
        ChainKeys(c, ps, fs, p.name);
      }
    }
    hide LeftOver, Inserted, FilterPieces, Bindings, SubstituteAll, Simultaneous, AsMap, PlainConfiguration;
    ClosedChain(c, used);
    SequentialIsSimultaneous(ps, Bindings(c, used));
    if Placeholder(FILTER_CHAIN) !in ps {
      ChainUnused(c, ps, chain, used);
    }
  }

  lemma ClosedChain(c: Configuration, chain: seq<Piece>)
    requires PlainConfiguration(c) && AllLiterals(chain)
    ensures Closed(Bindings(c, chain))
  {
    BoundNames(c, chain, FILTER_CHAIN);
    BindingsDistinct(c, chain);
    var bs := Bindings(c, chain);
    assert bs[1] == (FILTER_CHAIN, chain);
    forall b | b in bs ensures AllLiterals(b.1) {
      if b.0 == FILTER_CHAIN {
        var i :| 0 <= i < |bs| && bs[i] == b;
        assert i == 1;
      }
    }
  }

  /** A template that does not use the chain resolves alike whatever the chain is. */
  lemma ChainUnused(c: Configuration, ps: seq<Piece>, chain: seq<Piece>, other: seq<Piece>)
    requires Placeholder(FILTER_CHAIN) !in ps
    ensures SubstituteAll(ps, Bindings(c, chain)) == SubstituteAll(ps, Bindings(c, other))
    ensures Simultaneous(ps, AsMap(Bindings(c, chain))) == Simultaneous(ps, AsMap(Bindings(c, other)))
  {
    SubstituteUnused(c, ps, chain);
    SubstituteUnused(c, ps, other);
    MapOfBindings(c, chain);
    MapOfBindings(c, other);
    hide AsMap, Bindings, LaterBindings;
    SimultaneousAgrees(ps, AsMap(Bindings(c, chain)), AsMap(Bindings(c, other)));
  }

  lemma SubstituteUnused(c: Configuration, ps: seq<Piece>, chain: seq<Piece>)
    requires Placeholder(FILTER_CHAIN) !in ps
    ensures SubstituteAll(ps, Bindings(c, chain)) ==
            SubstituteAll(Substitute(ps, STATS_DOMAIN, [Literal(c.statsDomain)]), LaterBindings(c))
  {
    var bs, later := Bindings(c, chain), LaterBindings(c);
    var first := Substitute(ps, STATS_DOMAIN, [Literal(c.statsDomain)]);
    assert bs[1..][1..] == later && bs[1..][0] == (FILTER_CHAIN, chain) && bs[0] == Bound((STATS_DOMAIN, c.statsDomain));
    SubstituteHas(ps, STATS_DOMAIN, [Literal(c.statsDomain)], FILTER_CHAIN);
    SubstituteAbsent(first, FILTER_CHAIN, chain);
    hide LaterBindings, Substitute;
    assert SubstituteAll(ps, bs) == SubstituteAll(first, bs[1..]) == SubstituteAll(first, later);
  }

  lemma MapOfBindings(c: Configuration, chain: seq<Piece>)
    ensures AsMap(Bindings(c, chain)) ==
            AsMap(LaterBindings(c))[FILTER_CHAIN := chain][STATS_DOMAIN := [Literal(c.statsDomain)]]
  {
    var bs, later := Bindings(c, chain), LaterBindings(c);
    hide LaterBindings;
    assert bs[1..][1..] == later && bs[1..][0] == (FILTER_CHAIN, chain) && bs[0] == Bound((STATS_DOMAIN, c.statsDomain));
    assert AsMap(bs[1..]) == AsMap(later)[FILTER_CHAIN := chain];
  }

  /** Where they differ: a filter template whose key is known is resolved, though not at once. */
  lemma LaterKeyResolves(c: Configuration)
    requires PlainConfiguration(c) && c.filterNames != []
    ensures var ps, fs := [Placeholder(FILTER_CHAIN)], [Placeholder("app_id")];
            Resolve(c, Text(ps), Text(fs)).Some? && ResolveAtOnce(c, ps, fs).None?
  {
    var ps, fs := [Placeholder(FILTER_CHAIN)], [Placeholder("app_id")];
    KeysGood();
    ResolvesExactly(c, ps, fs);
    AtOnceFailsExactly(c, ps, fs);
    assert Placeholder(FILTER_CHAIN) in ps && Placeholder("app_id") in fs;
    OtherNames();
    assert Inserted(c, ps, fs, "app_id");
    assert forall n :: !LeftOver(c, ps, fs, n);
  }

  lemma KeysGood()
    ensures GoodName(FILTER_CHAIN) && GoodName("app_id")
  {
  }

  lemma OtherNames()
    ensures Later("app_id") && "app_id" != FILTER_NAME
  {
    assert |"app_id"| != |FILTER_NAME|;
  }

  lemma BindingsDistinct(c: Configuration, chain: seq<Piece>)
    ensures Distinct(Bindings(c, chain))
  {
    var bs := Bindings(c, chain);
    assert forall i, j :: 0 <= i < j < |bs| ==> |bs[i].0| != |bs[j].0|;
  }
}
