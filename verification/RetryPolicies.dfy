/** Retry policies, their representation as request headers, and reading them back. */
module RetryPolicies {
  import opened Wrappers
  import opened Decimals

  /** The two client libraries differ in integer widths, letter case of rules, and the reading of empty lists. */
  datatype Platform = Swift | Kotlin

  datatype Rule = Status5xx | GatewayError | ConnectFailure | RefusedStream | Retriable4xx | RetriableHeaders | Reset

  datatype Policy = Policy(
    maxRetryCount: int, retryOn: seq<Rule>, retryStatusCodes: seq<int>,
    perRetryTimeoutMs: Option<int>, totalUpstreamTimeoutMs: Option<int>)

  const MAX_RETRIES := "x-envoy-max-retries"
  const RETRY_ON := "x-envoy-retry-on"
  const STATUS_CODES := "x-envoy-retriable-status-codes"
  const TRY_TIMEOUT := "x-envoy-upstream-rq-per-try-timeout-ms"
  const TOTAL_TIMEOUT := "x-envoy-upstream-rq-timeout-ms"

  type HeaderValues = map<string, seq<string>>

  function Least(p: Platform, wide: bool): int {
    if p.Swift? then 0 else if wide then -0x8000_0000_0000_0000 else -0x8000_0000
  }

  function Most(p: Platform, wide: bool): int {
    if p.Swift? then 0xFFFF_FFFF_FFFF_FFFF else if wide then 0x7FFF_FFFF_FFFF_FFFF else 0x7FFF_FFFF
  }

  predicate Fits(p: Platform, wide: bool, i: int) {
    Least(p, wide) <= i <= Most(p, wide)
  }

  /** The constructors' check: a try may not take longer than the total, unless the total is disabled. */
  predicate TimeoutsOk(per: Option<int>, total: Option<int>) {
    per.Some? && total.Some? ==> per.value <= total.value || total.value == 0
  }

  predicate ValidPolicy(p: Platform, policy: Policy) {
    && Fits(p, false, policy.maxRetryCount)
    && (forall c :: c in policy.retryStatusCodes ==> Fits(p, false, c))
    && (policy.perRetryTimeoutMs.Some? ==> Fits(p, true, policy.perRetryTimeoutMs.value))
    && (policy.totalUpstreamTimeoutMs.Some? ==> Fits(p, true, policy.totalUpstreamTimeoutMs.value))
    && TimeoutsOk(policy.perRetryTimeoutMs, policy.totalUpstreamTimeoutMs)
  }

  function RuleText(r: Rule): string {
    match r
    case Status5xx => "5xx"
    case GatewayError => "gateway-error"
    case ConnectFailure => "connect-failure"
    case RefusedStream => "refused-stream"
    case Retriable4xx => "retriable-4xx"
    case RetriableHeaders => "retriable-headers"
    case Reset => "reset"
  }

  const CODES_RULE := "retriable-status-codes"

  /** Lower case of the Latin letters. */
  function Lower(s: string): string {
    seq(|s|, i requires 0 <= i < |s| => if 'A' <= s[i] <= 'Z' then (s[i] as int + 32) as char else s[i])
  }

  /** A rule, the rule that only announces status codes, or a fatal error. */
  datatype RuleReading = Read(rule: Rule) | Skipped | InvalidRule

  function ReadRule(p: Platform, text: string): RuleReading {
    var s := if p.Swift? then Lower(text) else text;
    if s == "5xx" then Read(Status5xx)
    else if s == "gateway-error" then Read(GatewayError)
    else if s == "connect-failure" then Read(ConnectFailure)
    else if s == "refused-stream" then Read(RefusedStream)
    else if s == "retriable-4xx" then Read(Retriable4xx)
    else if s == "retriable-headers" then Read(RetriableHeaders)
    else if s == "reset" then Read(Reset)
    else if s == CODES_RULE then Skipped
    else InvalidRule
  }

  function ReadRules(p: Platform, texts: seq<string>): Option<seq<Rule>> {
    if texts == [] then Some([])
    else
      match (ReadRule(p, texts[0]), ReadRules(p, texts[1..]))
      case (Read(r), Some(rest)) => Some([r] + rest)
      case (Skipped, Some(rest)) => Some(rest)
      case _ => None
  }

  function ReadCodes(p: Platform, texts: seq<string>): seq<int> {
    if texts == [] then []
    else
      var rest := ReadCodes(p, texts[1..]);
      match Parse(texts[0], Least(p, false), Most(p, false))
      case Some(c) => [c] + rest
      case None => rest
  }

  function ReadTimeout(p: Platform, headers: HeaderValues, name: string): Option<int> {
    if name !in headers || headers[name] == [] then None
    else Parse(headers[name][0], Least(p, true), Most(p, true))
  }

  function Values(headers: HeaderValues, name: string): seq<string> {
    if name in headers then headers[name] else []
  }

  datatype Reading = Found(policy: Policy) | NoPolicy | Fatal

  /** Reading a policy from headers. */
  function From(p: Platform, headers: HeaderValues): Reading {
    if MAX_RETRIES !in headers then NoPolicy
    else if headers[MAX_RETRIES] == [] then (if p.Swift? then NoPolicy else Fatal)
    else
      match Parse(headers[MAX_RETRIES][0], Least(p, false), Most(p, false))
      case None => NoPolicy
      case Some(count) =>
        var rules := ReadRules(p, Values(headers, RETRY_ON));
        var per, total := ReadTimeout(p, headers, TRY_TIMEOUT), ReadTimeout(p, headers, TOTAL_TIMEOUT);
        if rules.None? || !TimeoutsOk(per, total) then Fatal
        else Found(Policy(count, rules.value, ReadCodes(p, Values(headers, STATUS_CODES)), per, total))
  }

  function Texts<T>(items: seq<T>, f: T -> string): seq<string> {
    seq(|items|, i requires 0 <= i < |items| => f(items[i]))
  }

  /** The header representation. */
  function Outbound(policy: Policy): HeaderValues {
    var rules := Texts(policy.retryOn, RuleText);
    map[MAX_RETRIES := [Print(policy.maxRetryCount)],
        TOTAL_TIMEOUT := [Print(policy.totalUpstreamTimeoutMs.GetOr(0))],
        RETRY_ON := if policy.retryStatusCodes != [] then rules + [CODES_RULE] else rules] +
    (if policy.retryStatusCodes != [] then map[STATUS_CODES := Texts(policy.retryStatusCodes, Print)] else map[]) +
    (if policy.perRetryTimeoutMs.Some? then map[TRY_TIMEOUT := [Print(policy.perRetryTimeoutMs.value)]] else map[])
  }

  lemma NamesDiffer()
    ensures |{MAX_RETRIES, RETRY_ON, STATUS_CODES, TRY_TIMEOUT, TOTAL_TIMEOUT}| == 5
    ensures MAX_RETRIES != RETRY_ON && MAX_RETRIES != STATUS_CODES && MAX_RETRIES != TRY_TIMEOUT
    ensures MAX_RETRIES != TOTAL_TIMEOUT && RETRY_ON != STATUS_CODES && RETRY_ON != TRY_TIMEOUT
    ensures RETRY_ON != TOTAL_TIMEOUT && STATUS_CODES != TRY_TIMEOUT && STATUS_CODES != TOTAL_TIMEOUT
    ensures TRY_TIMEOUT != TOTAL_TIMEOUT
  {
    assert |MAX_RETRIES| == 19 && |RETRY_ON| == 16 && |STATUS_CODES| == 30;
    assert |TRY_TIMEOUT| == 38 && |TOTAL_TIMEOUT| == 30;
    assert STATUS_CODES[8] == 'r' && TOTAL_TIMEOUT[8] == 'u';
  }

  method OutboundHeadersSwift(policy: Policy) returns (headers: HeaderValues)
    ensures headers == Outbound(policy)
  {
    NamesDiffer();
    headers := map[MAX_RETRIES := [Print(policy.maxRetryCount)],
                   TOTAL_TIMEOUT := [Print(policy.totalUpstreamTimeoutMs.GetOr(0))]];
    var retryOn := Texts(policy.retryOn, RuleText);
    if policy.retryStatusCodes != [] {
      retryOn := retryOn + [CODES_RULE];
      headers := headers[STATUS_CODES := Texts(policy.retryStatusCodes, Print)];
    }
    headers := headers[RETRY_ON := retryOn];
    if policy.perRetryTimeoutMs.Some? {
      headers := headers[TRY_TIMEOUT := [Print(policy.perRetryTimeoutMs.value)]];
    }
  }

  method OutboundHeadersKotlin(policy: Policy) returns (headers: HeaderValues)
    ensures headers == Outbound(policy)
  {
    NamesDiffer();
    var upstreamTimeoutMs := policy.totalUpstreamTimeoutMs.GetOr(0);
    headers := map[MAX_RETRIES := [Print(policy.maxRetryCount)], TOTAL_TIMEOUT := [Print(upstreamTimeoutMs)]];
    if policy.perRetryTimeoutMs.Some? {
      headers := headers[TRY_TIMEOUT := [Print(policy.perRetryTimeoutMs.value)]];
    }
    var retryOn := Texts(policy.retryOn, RuleText);
    if policy.retryStatusCodes != [] {
      retryOn := retryOn + [CODES_RULE];
      headers := headers[STATUS_CODES := Texts(policy.retryStatusCodes, Print)];
    }
    headers := headers[RETRY_ON := retryOn];
  }

  // ---------- Round trip ----------

  lemma ReadPrintedRule(p: Platform, r: Rule)
    ensures ReadRule(p, RuleText(r)) == Read(r)
    ensures ReadRule(p, CODES_RULE) == Skipped
  {
    RuleTextIsLower(r);
    CodesRuleIsLower();
    hide Lower;
  }

  lemma RuleTextIsLower(r: Rule)
    ensures Lower(RuleText(r)) == RuleText(r)
  {
  }

  lemma CodesRuleIsLower()
    ensures Lower(CODES_RULE) == CODES_RULE
  {
  }

  /** Rules read back in order, and the announcing rule vanishes. */
  lemma {:induction false} ReadPrintedRules(p: Platform, rules: seq<Rule>, announce: bool)
    ensures ReadRules(p, Texts(rules, RuleText) + if announce then [CODES_RULE] else []) == Some(rules)
  {
    hide ReadRule, RuleText, Lower;
    var texts := Texts(rules, RuleText) + if announce then [CODES_RULE] else [];
    if rules == [] {
      if announce {
        ReadPrintedRule(p, Reset);
        assert texts == [CODES_RULE] && texts[1..] == [];
      }
    } else {
      ReadPrintedRule(p, rules[0]);
      ReadPrintedRules(p, rules[1..], announce);
      assert texts[1..] == Texts(rules[1..], RuleText) + if announce then [CODES_RULE] else [];
      assert texts[0] == RuleText(rules[0]) && [rules[0]] + rules[1..] == rules;
    }
  }

  lemma {:induction false} ReadPrintedCodes(p: Platform, codes: seq<int>)
    requires forall c :: c in codes ==> Fits(p, false, c)
    ensures ReadCodes(p, Texts(codes, Print)) == codes
  {
    if codes != [] {
      assert codes[0] in codes;
      ParsePrint(codes[0], Least(p, false), Most(p, false));
      ReadPrintedCodes(p, codes[1..]);
      assert Texts(codes, Print)[1..] == Texts(codes[1..], Print);
    }
  }

  /** An absent total timeout is printed, and so read, as 0. */
  function Normalized(policy: Policy): Policy {
    policy.(totalUpstreamTimeoutMs := Some(policy.totalUpstreamTimeoutMs.GetOr(0)))
  }

  /** Headers of the builder that a policy leaves alone still read as no status codes and no try timeout. */
  predicate NothingStale(p: Platform, builder: HeaderValues, policy: Policy) {
    && (policy.retryStatusCodes == [] ==> ReadCodes(p, Values(builder, STATUS_CODES)) == [])
    && (policy.perRetryTimeoutMs.None? ==> ReadTimeout(p, builder, TRY_TIMEOUT).None?)
  }

  /** addRetryPolicy sets the policy's headers over those of the builder, in any order. */
  method AddRetryPolicy(builder: HeaderValues, policy: Policy) returns (headers: HeaderValues)
    ensures headers == builder + Outbound(policy)
  {
    hide Outbound;
    var outbound := OutboundHeadersSwift(policy);
    headers := builder;
    var names := outbound.Keys;
    while names != {}
      invariant names <= outbound.Keys
      invariant headers == builder + (outbound - names)
      decreases |names|
    {
      var name :| name in names;
      SetNext(builder, outbound, names, name);
      headers := headers[name := outbound[name]];
      names := names - {name};
    }
    assert outbound - {} == outbound;
  }

  lemma SetNext(builder: HeaderValues, outbound: HeaderValues, names: set<string>, name: string)
    requires names <= outbound.Keys && name in names
    ensures (builder + (outbound - names))[name := outbound[name]] == builder + (outbound - (names - {name}))
  {
  }

  /** Reading back through a builder gives the policy if and only if the builder holds no stale retry headers. */
  lemma BuilderRoundTripExactly(p: Platform, builder: HeaderValues, policy: Policy)
    requires ValidPolicy(p, policy)
    ensures From(p, builder + Outbound(policy)) == Found(Normalized(policy)) <==> NothingStale(p, builder, policy)
  {
    CountThroughBuilder(p, builder, policy);
    TotalThroughBuilder(p, builder, policy);
    RulesThroughBuilder(p, builder, policy);
    CodesThroughBuilder(p, builder, policy);
    TimeoutThroughBuilder(p, builder, policy);
    hide Outbound, ReadTimeout, ReadCodes, ReadRules, Parse, Print;
  }

  lemma CountThroughBuilder(p: Platform, builder: HeaderValues, policy: Policy)
    requires ValidPolicy(p, policy)
    ensures var h := builder + Outbound(policy);
            && MAX_RETRIES in h && h[MAX_RETRIES] != []
            && Parse(h[MAX_RETRIES][0], Least(p, false), Most(p, false)) == Some(policy.maxRetryCount)
  {
    NamesDiffer();
    ParsePrint(policy.maxRetryCount, Least(p, false), Most(p, false));
    hide Parse, Print, RuleText;
    assert (builder + Outbound(policy))[MAX_RETRIES] == [Print(policy.maxRetryCount)];
  }

  lemma TotalThroughBuilder(p: Platform, builder: HeaderValues, policy: Policy)
    requires ValidPolicy(p, policy)
    ensures ReadTimeout(p, builder + Outbound(policy), TOTAL_TIMEOUT) ==
            Some(policy.totalUpstreamTimeoutMs.GetOr(0))
  {
    var total := policy.totalUpstreamTimeoutMs.GetOr(0);
    NamesDiffer();
    ParsePrint(total, Least(p, true), Most(p, true));
    hide Parse, Print, RuleText;
    assert (builder + Outbound(policy))[TOTAL_TIMEOUT] == [Print(total)];
  }

  lemma RulesThroughBuilder(p: Platform, builder: HeaderValues, policy: Policy)
    ensures ReadRules(p, Values(builder + Outbound(policy), RETRY_ON)) == Some(policy.retryOn)
  {
    NamesDiffer();
    var announce := policy.retryStatusCodes != [];
    var texts := Texts(policy.retryOn, RuleText);
    ReadPrintedRules(p, policy.retryOn, announce);
    hide Print, RuleText, ReadRules;
    assert texts + [] == texts;
    assert (builder + Outbound(policy))[RETRY_ON] == texts + if announce then [CODES_RULE] else [];
  }

  lemma CodesThroughBuilder(p: Platform, builder: HeaderValues, policy: Policy)
    requires ValidPolicy(p, policy)
    ensures ReadCodes(p, Values(builder + Outbound(policy), STATUS_CODES)) ==
            if policy.retryStatusCodes != [] then policy.retryStatusCodes else ReadCodes(p, Values(builder, STATUS_CODES))
  {
    NamesDiffer();
    ReadPrintedCodes(p, policy.retryStatusCodes);
  }

  lemma TimeoutThroughBuilder(p: Platform, builder: HeaderValues, policy: Policy)
    requires ValidPolicy(p, policy)
    ensures ReadTimeout(p, builder + Outbound(policy), TRY_TIMEOUT) ==
            if policy.perRetryTimeoutMs.Some? then policy.perRetryTimeoutMs else ReadTimeout(p, builder, TRY_TIMEOUT)
  {
    NamesDiffer();
    if policy.perRetryTimeoutMs.Some? {
      ParsePrint(policy.perRetryTimeoutMs.value, Least(p, true), Most(p, true));
    }
  }

  /** Every valid policy is read back from its own headers. */
  lemma RoundTrip(p: Platform, policy: Policy)
    requires ValidPolicy(p, policy)
    ensures From(p, Outbound(policy)) == Found(Normalized(policy)) && ValidPolicy(p, Normalized(policy))
  {
    BuilderRoundTripExactly(p, map[], policy);
    assert map[] + Outbound(policy) == Outbound(policy);
  }

  /** What is read back when a second policy is added over a first one. */
  function Mixed(first: Policy, second: Policy): Policy {
    Normalized(second).(
      retryStatusCodes := if second.retryStatusCodes != [] then second.retryStatusCodes else first.retryStatusCodes,
      perRetryTimeoutMs := if second.perRetryTimeoutMs.Some? then second.perRetryTimeoutMs else first.perRetryTimeoutMs)
  }

  /**
   Adding a second policy to a builder keeps the status codes and the try timeout of the first one where the second
   has none; reading fails when that try timeout does not fit the second total timeout.
   */
  lemma SecondPolicyReadsMixed(p: Platform, first: Policy, second: Policy)
    requires ValidPolicy(p, first) && ValidPolicy(p, second)
    ensures var mixed := Mixed(first, second);
            From(p, Outbound(first) + Outbound(second)) ==
            if TimeoutsOk(mixed.perRetryTimeoutMs, mixed.totalUpstreamTimeoutMs) then Found(mixed) else Fatal
  {
    var builder := Outbound(first);
    OwnHeadersRead(p, first);
    CountThroughBuilder(p, builder, second);
    TotalThroughBuilder(p, builder, second);
    RulesThroughBuilder(p, builder, second);
    CodesThroughBuilder(p, builder, second);
    TimeoutThroughBuilder(p, builder, second);
    hide Outbound, ReadTimeout, ReadCodes, ReadRules, Parse, Print;
  }

  lemma OwnHeadersRead(p: Platform, policy: Policy)
    requires ValidPolicy(p, policy)
    ensures ReadCodes(p, Values(Outbound(policy), STATUS_CODES)) == policy.retryStatusCodes
    ensures ReadTimeout(p, Outbound(policy), TRY_TIMEOUT) == policy.perRetryTimeoutMs
  {
    CodesThroughBuilder(p, map[], policy);
    TimeoutThroughBuilder(p, map[], policy);
    hide Outbound, Parse, Print;
    assert map[] + Outbound(policy) == Outbound(policy);
  }

  /** Stale status codes are reached: two valid policies that read back as the first one. */
  lemma StaleCodesReached(p: Platform)
    ensures var codes, plain := Policy(1, [], [503], None, None), Policy(1, [], [], None, None);
            && ValidPolicy(p, codes) && ValidPolicy(p, plain)
            && From(p, Outbound(codes) + Outbound(plain)) == Found(Normalized(codes)) != Found(Normalized(plain))
  {
    SecondPolicyReadsMixed(p, Policy(1, [], [503], None, None), Policy(1, [], [], None, None));
    hide Outbound, From;
  }

  /** A stale try timeout is reached: two valid policies that cannot be read back. */
  lemma StaleTimeoutReached(p: Platform)
    ensures var slow, quick := Policy(1, [], [], Some(10), None), Policy(1, [], [], None, Some(5));
            ValidPolicy(p, slow) && ValidPolicy(p, quick) && From(p, Outbound(slow) + Outbound(quick)) == Fatal
  {
    SecondPolicyReadsMixed(p, Policy(1, [], [], Some(10), None), Policy(1, [], [], None, Some(5)));
    hide Outbound, From;
  }
}
