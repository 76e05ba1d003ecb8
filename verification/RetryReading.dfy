/**
 Retry headers with their names, rule texts and number bounds spelled out: what is written for a policy, and exactly
 what reading any headers gives.
 */
module RetryReading {
  import opened Wrappers
  import opened Decimals
  import opened RetryPolicies

  // ---------- Rule texts ----------

  predicate NoUpperCase(s: string) {
    forall i :: 0 <= i < |s| ==> !('A' <= s[i] <= 'Z')
  }

  /** Equal but for upper case Latin letters in the text. */
  predicate SameIgnoringCase(text: string, rule: string) {
    |text| == |rule| &&
    forall i :: 0 <= i < |rule| ==>
      text[i] == rule[i] || ('A' <= text[i] <= 'Z' && text[i] as int + 32 == rule[i] as int)
  }

  /** Swift reads rule texts in any letter case, Kotlin only as they are written. */
  predicate Names(p: Platform, text: string, rule: string) {
    if p.Swift? then SameIgnoringCase(text, rule) else text == rule
  }

  lemma LowerIgnoresCase(text: string, rule: string)
    requires NoUpperCase(rule)
    ensures Lower(text) == rule <==> SameIgnoringCase(text, rule)
  {
    if SameIgnoringCase(text, rule) {
      forall i | 0 <= i < |rule| ensures Lower(text)[i] == rule[i] {
        assert text[i] == rule[i] || ('A' <= text[i] <= 'Z' && text[i] as int + 32 == rule[i] as int);
      }
    }
    if Lower(text) == rule {
      forall i | 0 <= i < |rule|
        ensures text[i] == rule[i] || ('A' <= text[i] <= 'Z' && text[i] as int + 32 == rule[i] as int)
      {
        assert Lower(text)[i] == rule[i];
      }
    }
  }

  lemma TextsLower()
    ensures NoUpperCase("5xx") && NoUpperCase("gateway-error") && NoUpperCase("connect-failure")
    ensures NoUpperCase("refused-stream") && NoUpperCase("retriable-4xx") && NoUpperCase("retriable-headers")
    ensures NoUpperCase("reset") && NoUpperCase("retriable-status-codes")
  {
  }

  lemma TextsDiffer()
    ensures "5xx" != "reset" && "gateway-error" != "retriable-4xx"
    ensures |"5xx"| == 3 && |"reset"| == 5 && |"gateway-error"| == |"retriable-4xx"| == 13 && |"refused-stream"| == 14
    ensures |"connect-failure"| == 15 && |"retriable-headers"| == 17 && |"retriable-status-codes"| == 22
  {
    assert "gateway-error"[0] == 'g' && "retriable-4xx"[0] == 'r';
  }

  /** Each text is read as the rule it names; the announcing text is skipped and any other is invalid. */
  lemma RuleReadExactly(p: Platform, text: string)
    ensures ReadRule(p, text) == Read(Status5xx) <==> Names(p, text, "5xx")
    ensures ReadRule(p, text) == Read(GatewayError) <==> Names(p, text, "gateway-error")
    ensures ReadRule(p, text) == Read(ConnectFailure) <==> Names(p, text, "connect-failure")
    ensures ReadRule(p, text) == Read(RefusedStream) <==> Names(p, text, "refused-stream")
    ensures ReadRule(p, text) == Read(Retriable4xx) <==> Names(p, text, "retriable-4xx")
    ensures ReadRule(p, text) == Read(RetriableHeaders) <==> Names(p, text, "retriable-headers")
    ensures ReadRule(p, text) == Read(Reset) <==> Names(p, text, "reset")
    ensures ReadRule(p, text) == Skipped <==> Names(p, text, "retriable-status-codes")
  {
    TextsLower();
    TextsDiffer();
    LowerIgnoresCase(text, "5xx");
    LowerIgnoresCase(text, "gateway-error");
    LowerIgnoresCase(text, "connect-failure");
    LowerIgnoresCase(text, "refused-stream");
    LowerIgnoresCase(text, "retriable-4xx");
    LowerIgnoresCase(text, "retriable-headers");
    LowerIgnoresCase(text, "reset");
    LowerIgnoresCase(text, "retriable-status-codes");
    hide Lower, SameIgnoringCase, NoUpperCase;
  }

  /** The text names a rule or announces status codes. */
  predicate KnownText(p: Platform, text: string) {
    Names(p, text, "5xx") || Names(p, text, "gateway-error") || Names(p, text, "connect-failure") ||
    Names(p, text, "refused-stream") || Names(p, text, "retriable-4xx") || Names(p, text, "retriable-headers") ||
    Names(p, text, "reset") || Names(p, text, "retriable-status-codes")
  }

  lemma InvalidExactly(p: Platform, text: string)
    ensures ReadRule(p, text) == InvalidRule <==> !KnownText(p, text)
  {
    RuleReadExactly(p, text);
    hide Names, Lower;
  }

  lemma {:induction false} RulesFailExactly(p: Platform, texts: seq<string>)
    ensures ReadRules(p, texts).None? <==> exists text :: text in texts && !KnownText(p, text)
  {
    if texts != [] {
      InvalidExactly(p, texts[0]);
      RulesFailExactly(p, texts[1..]);
      hide ReadRule, KnownText;
      assert forall t :: t in texts <==> t == texts[0] || t in texts[1..];
    }
  }

  /** Texts read one after the other: each named rule once, in order. */
  lemma {:induction false} RulesReadInOrder(p: Platform, a: seq<string>, b: seq<string>)
    requires ReadRules(p, a).Some? && ReadRules(p, b).Some?
    ensures ReadRules(p, a + b) == Some(ReadRules(p, a).value + ReadRules(p, b).value)
  {
    hide ReadRule;
    if a == [] {
      assert a + b == b && [] + ReadRules(p, b).value == ReadRules(p, b).value;
    } else {
      assert (a + b)[1..] == a[1..] + b && (a + b)[0] == a[0];
      RulesReadInOrder(p, a[1..], b);
      var rest, more := ReadRules(p, a[1..]).value, ReadRules(p, b).value;
      match ReadRule(p, a[0]) {
        case Read(r) => assert [r] + (rest + more) == [r] + rest + more;
        case _ =>
      }
    }
  }

  // ---------- Numbers ----------

  /** The text is a numeral of a number between the bounds. */
  predicate NumberWithin(text: string, least: int, most: int) {
    IsNumeral(text) && least <= NumeralValue(text) <= most
  }

  /** Counts and status codes are Swift's UInt and Kotlin's Int. */
  predicate IsCount(p: Platform, text: string) {
    if p.Swift? then NumberWithin(text, 0, 18446744073709551615) else NumberWithin(text, -2147483648, 2147483647)
  }

  /** Timeouts are Swift's UInt and Kotlin's Long. */
  predicate IsTimeout(p: Platform, text: string) {
    if p.Swift? then NumberWithin(text, 0, 18446744073709551615)
    else NumberWithin(text, -9223372036854775808, 9223372036854775807)
  }

  lemma CountParses(p: Platform, text: string)
    ensures Parse(text, Least(p, false), Most(p, false)) == if IsCount(p, text) then Some(NumeralValue(text)) else None
  {
    ParseExactly(text, Least(p, false), Most(p, false));
  }

  /** The value that a timeout header gives: that of its first value, if it is a number of the type. */
  function TimeoutIn(p: Platform, headers: HeaderValues, name: string): Option<int> {
    if name in headers && headers[name] != [] && IsTimeout(p, headers[name][0]) then Some(NumeralValue(headers[name][0]))
    else None
  }

  lemma TimeoutReads(p: Platform, headers: HeaderValues, name: string)
    ensures ReadTimeout(p, headers, name) == TimeoutIn(p, headers, name)
  {
    if name in headers && headers[name] != [] {
      ParseExactly(headers[name][0], Least(p, true), Most(p, true));
    }
  }

  /** The numbers among the texts, in order. */
  function CountsIn(p: Platform, texts: seq<string>): seq<int> {
    if texts == [] then []
    else
      CountsIn(p, texts[..|texts| - 1]) +
      if IsCount(p, texts[|texts| - 1]) then [NumeralValue(texts[|texts| - 1])] else []
  }

  lemma {:induction false} CodesAppend(p: Platform, texts: seq<string>, text: string)
    ensures ReadCodes(p, texts + [text]) ==
            ReadCodes(p, texts) + if IsCount(p, text) then [NumeralValue(text)] else []
  {
    CountParses(p, if texts == [] then text else texts[0]);
    hide IsCount, Parse, NumeralValue, Least, Most;
    if texts == [] {
      assert texts + [text] == [text] && [text][1..] == [];
      assert ReadCodes(p, []) == [];
    } else {
      assert (texts + [text])[1..] == texts[1..] + [text] && (texts + [text])[0] == texts[0];
      CodesAppend(p, texts[1..], text);
    }
  }

  lemma {:induction false} CodesRead(p: Platform, texts: seq<string>)
    ensures ReadCodes(p, texts) == CountsIn(p, texts)
  {
    if texts != [] {
      var front, last := texts[..|texts| - 1], texts[|texts| - 1];
      CodesRead(p, front);
      CodesAppend(p, front, last);
      assert texts == front + [last];
    }
  }

  // ---------- Reading any headers ----------

  /** The headers start a policy: a first value that is a count. */
  predicate HasCount(p: Platform, headers: HeaderValues) {
    "x-envoy-max-retries" in headers && headers["x-envoy-max-retries"] != [] &&
    IsCount(p, headers["x-envoy-max-retries"][0])
  }

  function ValuesOf(headers: HeaderValues, name: string): seq<string> {
    if name in headers then headers[name] else []
  }

  /** Both timeouts are there, and the one for a try exceeds a total that is not disabled by 0. */
  predicate TimeoutsClash(p: Platform, headers: HeaderValues) {
    var per := TimeoutIn(p, headers, "x-envoy-upstream-rq-per-try-timeout-ms");
    var total := TimeoutIn(p, headers, "x-envoy-upstream-rq-timeout-ms");
    per.Some? && total.Some? && total.value != 0 && per.value > total.value
  }

  predicate BadRules(p: Platform, headers: HeaderValues) {
    exists text :: text in ValuesOf(headers, "x-envoy-retry-on") && !KnownText(p, text)
  }

  /**
   For all headers: there is no policy exactly without a count, an empty list included on Swift; reading fails exactly
   on an empty list on Kotlin, or when a count comes with an unknown rule text or clashing timeouts.
   */
  lemma ReadExactly(p: Platform, headers: HeaderValues)
    ensures From(p, headers) == NoPolicy <==>
            !HasCount(p, headers) &&
            (p.Kotlin? && "x-envoy-max-retries" in headers ==> headers["x-envoy-max-retries"] != [])
    ensures From(p, headers) == Fatal <==>
            (p.Kotlin? && "x-envoy-max-retries" in headers && headers["x-envoy-max-retries"] == []) ||
            (HasCount(p, headers) && (BadRules(p, headers) || TimeoutsClash(p, headers)))
  {
    ReadParts(p, headers);
    hide ReadRules, ReadTimeout, ReadCodes, Parse, IsCount, TimeoutIn, BadRules;
  }

  lemma ReadParts(p: Platform, headers: HeaderValues)
    ensures MAX_RETRIES == "x-envoy-max-retries"
    ensures MAX_RETRIES in headers && headers[MAX_RETRIES] != [] ==>
              Parse(headers[MAX_RETRIES][0], Least(p, false), Most(p, false)) ==
              if IsCount(p, headers[MAX_RETRIES][0]) then Some(NumeralValue(headers[MAX_RETRIES][0])) else None
    ensures ReadRules(p, Values(headers, RETRY_ON)).None? <==> BadRules(p, headers)
    ensures ReadTimeout(p, headers, TRY_TIMEOUT) == TimeoutIn(p, headers, "x-envoy-upstream-rq-per-try-timeout-ms")
    ensures ReadTimeout(p, headers, TOTAL_TIMEOUT) == TimeoutIn(p, headers, "x-envoy-upstream-rq-timeout-ms")
  {
    if MAX_RETRIES in headers && headers[MAX_RETRIES] != [] {
      CountParses(p, headers[MAX_RETRIES][0]);
    }
    RulesFailExactly(p, Values(headers, RETRY_ON));
    TimeoutReads(p, headers, TRY_TIMEOUT);
    TimeoutReads(p, headers, TOTAL_TIMEOUT);
    hide ReadRules, ReadTimeout, Parse, IsCount, TimeoutIn, KnownText;
  }

  /** A policy that is read has its count, the rules named, the numbers among the codes, and both timeouts. */
  lemma FoundHolds(p: Platform, headers: HeaderValues)
    requires From(p, headers).Found?
    ensures var policy := From(p, headers).policy;
            && HasCount(p, headers) && policy.maxRetryCount == NumeralValue(headers["x-envoy-max-retries"][0])
            && ReadRules(p, ValuesOf(headers, "x-envoy-retry-on")) == Some(policy.retryOn)
            && policy.retryStatusCodes == CountsIn(p, ValuesOf(headers, "x-envoy-retriable-status-codes"))
            && policy.perRetryTimeoutMs == TimeoutIn(p, headers, "x-envoy-upstream-rq-per-try-timeout-ms")
            && policy.totalUpstreamTimeoutMs == TimeoutIn(p, headers, "x-envoy-upstream-rq-timeout-ms")
  {
    ReadParts(p, headers);
    CodesRead(p, Values(headers, STATUS_CODES));
    hide ReadRules, ReadTimeout, ReadCodes, CountsIn, Parse, IsCount, TimeoutIn, BadRules;
  }

  // ---------- Writing a policy ----------

  /** The text written for each rule. */
  predicate Written(r: Rule, text: string) {
    match r
    case Status5xx => text == "5xx"
    case GatewayError => text == "gateway-error"
    case ConnectFailure => text == "connect-failure"
    case RefusedStream => text == "refused-stream"
    case Retriable4xx => text == "retriable-4xx"
    case RetriableHeaders => text == "retriable-headers"
    case Reset => text == "reset"
  }

  /** Exactly these headers are written. */
  lemma NamesWritten(policy: Policy)
    ensures Outbound(policy).Keys ==
            {"x-envoy-max-retries", "x-envoy-upstream-rq-timeout-ms", "x-envoy-retry-on"} +
            (if policy.retryStatusCodes != [] then {"x-envoy-retriable-status-codes"} else {}) +
            (if policy.perRetryTimeoutMs.Some? then {"x-envoy-upstream-rq-per-try-timeout-ms"} else {})
  {
    hide Print, RuleText;
  }

  /** The count and the timeouts are written as their numerals, an absent total timeout as 0. */
  lemma NumbersWritten(policy: Policy)
    ensures var h := Outbound(policy);
            && "x-envoy-max-retries" in h && h["x-envoy-max-retries"] == [Print(policy.maxRetryCount)]
            && "x-envoy-upstream-rq-timeout-ms" in h
            && h["x-envoy-upstream-rq-timeout-ms"] == [Print(policy.totalUpstreamTimeoutMs.GetOr(0))]
            && (policy.perRetryTimeoutMs.Some? ==>
                  && "x-envoy-upstream-rq-per-try-timeout-ms" in h
                  && h["x-envoy-upstream-rq-per-try-timeout-ms"] == [Print(policy.perRetryTimeoutMs.value)])
  {
    NamesDiffer();
    hide Print, RuleText;
  }

  /** The rules are written in order under their texts, followed by the announcing text when there are codes. */
  lemma RulesWritten(policy: Policy)
    ensures var h, n := Outbound(policy), |policy.retryOn|;
            && "x-envoy-retry-on" in h
            && |h["x-envoy-retry-on"]| == n + (if policy.retryStatusCodes != [] then 1 else 0)
            && (forall i :: 0 <= i < n ==> Written(policy.retryOn[i], h["x-envoy-retry-on"][i]))
            && (policy.retryStatusCodes != [] ==> h["x-envoy-retry-on"][n] == "retriable-status-codes")
  {
    NamesDiffer();
    RetryOnWritten(policy);
    forall r ensures Written(r, RuleText(r)) {
    }
    hide RuleText, Outbound, Written;
  }

  lemma RetryOnWritten(policy: Policy)
    ensures RETRY_ON in Outbound(policy)
    ensures Outbound(policy)[RETRY_ON] ==
            Texts(policy.retryOn, RuleText) + if policy.retryStatusCodes != [] then [CODES_RULE] else []
  {
    NamesDiffer();
    hide Print, RuleText;
    assert Texts(policy.retryOn, RuleText) + [] == Texts(policy.retryOn, RuleText);
  }

  /** The status codes are written in order as their numerals. */
  lemma CodesWritten(policy: Policy)
    requires policy.retryStatusCodes != []
    ensures var h, codes := Outbound(policy), policy.retryStatusCodes;
            && "x-envoy-retriable-status-codes" in h && |h["x-envoy-retriable-status-codes"]| == |codes|
            && forall i :: 0 <= i < |codes| ==> h["x-envoy-retriable-status-codes"][i] == Print(codes[i])
  {
    NamesDiffer();
    hide Print, RuleText;
    assert Outbound(policy)[STATUS_CODES] == Texts(policy.retryStatusCodes, Print);
  }
}
