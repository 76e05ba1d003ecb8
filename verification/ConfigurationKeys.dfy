/** What each key of a configuration template resolves to, key by key and in the text of the tokens themselves. */
module ConfigurationKeys {
  import opened Wrappers
  import opened Template
  import opened EnvoyConfiguration
  import Decimals

  /** A template with one token between two plain texts. */
  function Around(a: string, name: string, b: string): seq<Piece> {
    [Literal(a), Placeholder(name), Literal(b)]
  }

  lemma ThreeTexts(a: string, p: Piece, b: string)
    ensures Text([Literal(a), p, Literal(b)]) == a + PieceText(p) + b
  {
    LiteralText(b);
    TextCons(p, [Literal(b)]);
    TextCons(Literal(a), [p] + [Literal(b)]);
    assert PieceText(Literal(a)) == a;
    hide PieceText, Text;
    assert [Literal(a)] + ([p] + [Literal(b)]) == [Literal(a), p, Literal(b)];
    ConcatAssociative(a, PieceText(p), b);
  }

  /** Replacing names that do not occur changes nothing. */
  lemma {:induction false} NothingToReplace(ps: seq<Piece>, values: seq<(string, string)>)
    requires WellFormed(ps)
    requires forall v :: v in values ==> GoodName(v.0) && Placeholder(v.0) !in ps
    ensures ReplaceAll(Text(ps), values) == Text(ps)
    decreases |values|
  {
    if values != [] {
      var v := values[0];
      assert v in values;
      LiteralText(v.1);
      ReplaceIsSubstitute(ps, v.0, [Literal(v.1)]);
      SubstituteAbsent(ps, v.0, [Literal(v.1)]);
      hide WellFormed, GoodName, Text, Replace, Token;
      NothingToReplace(ps, values[1..]);
    }
  }

  /** The first replacement of the token's name takes place, and the later ones do nothing. */
  lemma {:induction false} OneReplaced(a: string, b: string, values: seq<(string, string)>, i: nat)
    requires i < |values| && Plain(a) && Plain(b) && Plain(values[i].1)
    requires forall v :: v in values ==> GoodName(v.0)
    requires forall j :: 0 <= j < i ==> values[j].0 != values[i].0
    ensures ReplaceAll(a + Token(values[i].0) + b, values) == a + values[i].1 + b
    decreases |values|
  {
    var n := values[i].0;
    var ps, v := Around(a, n, b), values[0];
    assert v in values && values[i] in values;
    ThreeTexts(a, Placeholder(n), b);
    LiteralText(v.1);
    ReplaceIsSubstitute(ps, v.0, [Literal(v.1)]);
    if i == 0 {
      var qs := [Literal(a), Literal(v.1), Literal(b)];
      ThreeTexts(a, Literal(v.1), b);
      SubstituteAround(a, n, b, v.1);
      hide GoodName, Text, Replace, Token, Plain;
      NothingToReplace(qs, values[1..]);
    } else {
      SubstituteAbsent(ps, v.0, [Literal(v.1)]);
      hide GoodName, Text, Replace, Token, Plain;
      OneReplaced(a, b, values[1..], i - 1);
    }
  }

  lemma SubstituteAround(a: string, n: string, b: string, v: string)
    ensures Substitute(Around(a, n, b), n, [Literal(v)]) == [Literal(a), Literal(v), Literal(b)]
  {
    assert Around(a, n, b)[1..] == [Placeholder(n), Literal(b)];
    assert [Placeholder(n), Literal(b)][1..] == [Literal(b)] && [Literal(b)][1..] == [];
    assert Substitute([Literal(b)], n, [Literal(v)]) == [Literal(b)];
    assert Substitute([Placeholder(n), Literal(b)], n, [Literal(v)]) == [Literal(v)] + [Literal(b)];
  }

  /** All replacements in the order in which they are made. */
  function AllValues(c: Configuration, f: string): seq<(string, string)> {
    [(STATS_DOMAIN, c.statsDomain), (FILTER_CHAIN, FilterChain(f, c.filterNames))] + LaterValues(c)
  }

  lemma AllNames(c: Configuration, f: string)
    ensures var vs := AllValues(c, f);
            && (forall v :: v in vs ==> GoodName(v.0))
            && forall i, j :: 0 <= i < j < |vs| ==> vs[i].0 != vs[j].0
  {
    NamesDistinct(c, f);
    FrontNames();
    RateNamesGood();
    OtherNamesGood();
    hide GoodName, Decimals.Print, FilterChain;
  }

  lemma NamesDistinct(c: Configuration, f: string)
    ensures var vs := AllValues(c, f);
            forall i, j :: 0 <= i < j < |vs| ==> vs[i].0 != vs[j].0
  {
    var vs := AllValues(c, f);
    hide Decimals.Print, FilterChain;
    assert forall i, j :: 0 <= i < j < |vs| ==> |vs[i].0| != |vs[j].0|;
  }

  lemma FrontNames()
    ensures GoodName("stats_domain") && GoodName("platform_filter_chain")
  {
  }

  /** A template with one known key resolves to the value of that key in its place. */
  lemma KeyResolves(c: Configuration, a: string, b: string, f: string, i: nat)
    requires i < |AllValues(c, f)| && Plain(a) && Plain(b) && Plain(AllValues(c, f)[i].1)
    ensures Resolve(c, a + Token(AllValues(c, f)[i].0) + b, f) == Some(a + AllValues(c, f)[i].1 + b)
  {
    var vs := AllValues(c, f);
    AllNames(c, f);
    hide Plain, GoodName, Token, FilterChain, LaterValues;
    OneReplaced(a, b, vs, i);
    PlainConcat(a, vs[i].1);
    PlainConcat(a + vs[i].1, b);
    PlainContainsNoKey(a + vs[i].1 + b);
  }

  // ---------- The tokens ----------

  lemma StatsDomainToken()
    ensures Token("stats_domain") == "{{ stats_domain }}"
  {
  }

  lemma ConnectTimeoutSecondsToken()
    ensures Token("connect_timeout_seconds") == "{{ connect_timeout_seconds }}"
  {
  }

  lemma DnsRefreshRateSecondsToken()
    ensures Token("dns_refresh_rate_seconds") == "{{ dns_refresh_rate_seconds }}"
  {
  }

  lemma DnsFailureRefreshRateSecondsBaseToken()
    ensures Token("dns_failure_refresh_rate_seconds_base") == "{{ dns_failure_refresh_rate_seconds_base }}"
  {
  }

  lemma DnsFailureRefreshRateSecondsMaxToken()
    ensures Token("dns_failure_refresh_rate_seconds_max") == "{{ dns_failure_refresh_rate_seconds_max }}"
  {
  }

  lemma StatsFlushIntervalSecondsToken()
    ensures Token("stats_flush_interval_seconds") == "{{ stats_flush_interval_seconds }}"
  {
  }

  lemma DeviceOsToken()
    ensures Token("device_os") == "{{ device_os }}"
  {
  }

  lemma AppVersionToken()
    ensures Token("app_version") == "{{ app_version }}"
  {
  }

  lemma AppIdToken()
    ensures Token("app_id") == "{{ app_id }}"
  {
  }

  lemma VirtualClustersToken()
    ensures Token("virtual_clusters") == "{{ virtual_clusters }}"
  {
  }

  lemma PlatformFilterChainToken()
    ensures Token("platform_filter_chain") == "{{ platform_filter_chain }}"
  {
  }

  lemma PlatformFilterNameToken()
    ensures Token("platform_filter_name") == "{{ platform_filter_name }}"
  {
  }

  // ---------- Key by key ----------

  lemma StatsDomainResolves(c: Configuration, a: string, b: string, f: string)
    requires Plain(a) && Plain(b) && Plain(c.statsDomain)
    ensures Resolve(c, a + "{{ stats_domain }}" + b, f) == Some(a + c.statsDomain + b)
  {
    StatsDomainToken();
    hide Token;
    KeyResolves(c, a, b, f, 0);
  }

  lemma ConnectTimeoutResolves(c: Configuration, a: string, b: string, f: string)
    requires Plain(a) && Plain(b)
    ensures Resolve(c, a + "{{ connect_timeout_seconds }}" + b, f) ==
            Some(a + Decimals.Print(c.connectTimeoutSeconds) + b)
  {
    ConnectTimeoutSecondsToken();
    hide Token;
    NumeralIsPlain(c.connectTimeoutSeconds);
    KeyResolves(c, a, b, f, 2);
  }

  lemma DnsRefreshRateResolves(c: Configuration, a: string, b: string, f: string)
    requires Plain(a) && Plain(b)
    ensures Resolve(c, a + "{{ dns_refresh_rate_seconds }}" + b, f) == Some(a + Decimals.Print(c.dnsRefreshSeconds) + b)
  {
    DnsRefreshRateSecondsToken();
    hide Token;
    NumeralIsPlain(c.dnsRefreshSeconds);
    KeyResolves(c, a, b, f, 3);
  }

  lemma DnsFailureBaseResolves(c: Configuration, a: string, b: string, f: string)
    requires Plain(a) && Plain(b)
    ensures Resolve(c, a + "{{ dns_failure_refresh_rate_seconds_base }}" + b, f) ==
            Some(a + Decimals.Print(c.dnsFailureRefreshSecondsBase) + b)
  {
    DnsFailureRefreshRateSecondsBaseToken();
    hide Token;
    NumeralIsPlain(c.dnsFailureRefreshSecondsBase);
    KeyResolves(c, a, b, f, 4);
  }

  lemma DnsFailureMaxResolves(c: Configuration, a: string, b: string, f: string)
    requires Plain(a) && Plain(b)
    ensures Resolve(c, a + "{{ dns_failure_refresh_rate_seconds_max }}" + b, f) ==
            Some(a + Decimals.Print(c.dnsFailureRefreshSecondsMax) + b)
  {
    DnsFailureRefreshRateSecondsMaxToken();
    hide Token;
    NumeralIsPlain(c.dnsFailureRefreshSecondsMax);
    KeyResolves(c, a, b, f, 5);
  }

  lemma StatsFlushResolves(c: Configuration, a: string, b: string, f: string)
    requires Plain(a) && Plain(b)
    ensures Resolve(c, a + "{{ stats_flush_interval_seconds }}" + b, f) ==
            Some(a + Decimals.Print(c.statsFlushSeconds) + b)
  {
    StatsFlushIntervalSecondsToken();
    hide Token;
    NumeralIsPlain(c.statsFlushSeconds);
    KeyResolves(c, a, b, f, 6);
  }

  lemma DeviceOsResolves(c: Configuration, a: string, b: string, f: string)
    requires Plain(a) && Plain(b)
    ensures Resolve(c, a + "{{ device_os }}" + b, f) == Some(a + "Android" + b)
  {
    DeviceOsToken();
    hide Token;
    OtherNamesGood();
    KeyResolves(c, a, b, f, 7);
  }

  lemma AppVersionResolves(c: Configuration, a: string, b: string, f: string)
    requires Plain(a) && Plain(b) && Plain(c.appVersion)
    ensures Resolve(c, a + "{{ app_version }}" + b, f) == Some(a + c.appVersion + b)
  {
    AppVersionToken();
    hide Token;
    KeyResolves(c, a, b, f, 8);
  }

  lemma AppIdResolves(c: Configuration, a: string, b: string, f: string)
    requires Plain(a) && Plain(b) && Plain(c.appId)
    ensures Resolve(c, a + "{{ app_id }}" + b, f) == Some(a + c.appId + b)
  {
    AppIdToken();
    hide Token;
    KeyResolves(c, a, b, f, 9);
  }

  lemma VirtualClustersResolves(c: Configuration, a: string, b: string, f: string)
    requires Plain(a) && Plain(b) && Plain(c.virtualClusters)
    ensures Resolve(c, a + "{{ virtual_clusters }}" + b, f) == Some(a + c.virtualClusters + b)
  {
    VirtualClustersToken();
    hide Token;
    KeyResolves(c, a, b, f, 10);
  }

  // ---------- The filter chain ----------

  /** The names in order, each between the two texts. */
  function Chained(p: string, names: seq<string>, q: string): string {
    if names == [] then "" else p + names[0] + q + Chained(p, names[1..], q)
  }

  lemma {:induction false} ChainedAppend(p: string, names: seq<string>, name: string, q: string)
    ensures Chained(p, names + [name], q) == Chained(p, names, q) + (p + name + q)
  {
    if names == [] {
      assert names + [name] == [name] && [name][1..] == [];
      assert Chained(p, [name], q) == p + name + q + "";
      assert "" + (p + name + q) == p + name + q + "";
    } else {
      ChainedAppend(p, names[1..], name, q);
      assert (names + [name])[1..] == names[1..] + [name];
      ConcatAssociative(p + names[0] + q, Chained(p, names[1..], q), p + name + q);
    }
  }

  lemma NameReplaced(p: string, q: string, name: string)
    requires Plain(p) && Plain(q)
    ensures Replace(p + Token(FILTER_NAME) + q, Token(FILTER_NAME), name) == p + name + q
  {
    FilterNameGood();
    ThreeTexts(p, Placeholder(FILTER_NAME), q);
    ThreeTexts(p, Literal(name), q);
    LiteralText(name);
    SubstituteAround(p, FILTER_NAME, q, name);
    ReplaceIsSubstitute(Around(p, FILTER_NAME, q), FILTER_NAME, [Literal(name)]);
  }

  lemma {:induction false} FilterChainIsChained(p: string, q: string, names: seq<string>)
    requires Plain(p) && Plain(q)
    ensures FilterChain(p + Token(FILTER_NAME) + q, names) == Chained(p, names, q)
  {
    if names != [] {
      var front, last := names[..|names| - 1], names[|names| - 1];
      NameReplaced(p, q, last);
      hide Token, Replace, Plain;
      FilterChainIsChained(p, q, front);
      ChainedAppend(p, front, last, q);
      assert names == front + [last];
    }
  }

  lemma {:induction false} ChainedIsPlain(p: string, names: seq<string>, q: string)
    requires Plain(p) && Plain(q) && forall n :: n in names ==> Plain(n)
    ensures Plain(Chained(p, names, q))
  {
    if names != [] {
      assert names[0] in names;
      hide Plain;
      ChainedIsPlain(p, names[1..], q);
      PlainConcat(p, names[0]);
      PlainConcat(p + names[0], q);
      PlainConcat(p + names[0] + q, Chained(p, names[1..], q));
    } else {
      assert Plain("");
    }
  }

  /** The chain is the filter template once for every filter name, in order, with the name in its place. */
  lemma FilterChainResolves(c: Configuration, a: string, b: string, p: string, q: string)
    requires Plain(a) && Plain(b) && Plain(p) && Plain(q) && forall n :: n in c.filterNames ==> Plain(n)
    ensures Resolve(c, a + "{{ platform_filter_chain }}" + b, p + "{{ platform_filter_name }}" + q) ==
            Some(a + Chained(p, c.filterNames, q) + b)
  {
    PlatformFilterChainToken();
    hide Token;
    PlatformFilterNameToken();
    FilterChainIsChained(p, q, c.filterNames);
    ChainedIsPlain(p, c.filterNames, q);
    KeyResolves(c, a, b, p + "{{ platform_filter_name }}" + q, 1);
  }
}
