/** Header maps flattened to key/value pairs to cross the language bridge, and regrouped on the other side. */
module HeaderBridge {
  import opened Wrappers

  type HeaderLists = map<string, seq<string>>

  type Pairs = seq<(string, string)>

  /** order lists every key of the map once; iteration order is otherwise arbitrary. */
  ghost predicate Enumerates(order: seq<string>, m: HeaderLists) {
    (forall k :: k in order <==> k in m) && Distinct(order)
  }

  predicate Distinct(order: seq<string>) {
    forall i, j :: 0 <= i < j < |order| ==> order[i] != order[j]
  }

  function PairsOf(key: string, values: seq<string>): Pairs {
    seq(|values|, i requires 0 <= i < |values| => (key, values[i]))
  }

  function Flatten(m: HeaderLists, order: seq<string>): Pairs
    requires forall k :: k in order ==> k in m
  {
    if order == [] then []
    else
      var front, last := order[..|order| - 1], order[|order| - 1];
      Flatten(m, front) + PairsOf(last, m[last])
  }

  function AddPair(m: HeaderLists, key: string, value: string): HeaderLists {
    m[key := (if key in m then m[key] else []) + [value]]
  }

  function Regroup(pairs: Pairs): HeaderLists {
    if pairs == [] then map[]
    else
      var last := pairs[|pairs| - 1];
      AddPair(Regroup(pairs[..|pairs| - 1]), last.0, last.1)
  }

  /** The flat array of alternating keys and values. */
  function Interleave(pairs: Pairs): seq<string> {
    seq(2 * |pairs|, i requires 0 <= i < 2 * |pairs| => if i % 2 == 0 then pairs[i / 2].0 else pairs[i / 2].1)
  }

  // ---------- The loops ----------

  /** Objective-C to native: count first, then fill an array of that length by a running index. */
  method ToNativeHeaders(headers: HeaderLists, order: seq<string>) returns (headerArray: array<(string, string)>)
    requires Enumerates(order, headers)
    ensures headerArray[..] == Flatten(headers, order)
  {
    hide Flatten, PairsOf;
    assert Flatten(headers, order[..0]) == [] by {
      NothingFlattened(headers);
    }
    var length := 0;
    for i := 0 to |order|
      invariant length == |Flatten(headers, order[..i])|
    {
      FlattenStep(headers, order, i);
      length := length + |headers[order[i]]|;
    }
    assert order[..|order|] == order;
    headerArray := new (string, string)[length];
    var headerIndex := 0;
    ghost var pairs := Flatten(headers, order);
    for i := 0 to |order|
      invariant headerIndex == |Flatten(headers, order[..i])| <= length
      invariant headerArray[..headerIndex] == pairs[..headerIndex]
    {
      var headerList := headers[order[i]];
      FlattenStep(headers, order, i);
      for j := 0 to |headerList|
        invariant headerIndex == |Flatten(headers, order[..i])| + j <= length
        invariant headerArray[..headerIndex] == pairs[..headerIndex]
      {
        FlattenAt(headers, order, i, j);
        headerArray[headerIndex] := (order[i], headerList[j]);
        headerIndex := headerIndex + 1;
      }
    }
    assert headerIndex == length;
    assert headerArray[..length] == headerArray[..] && pairs[..length] == pairs;
  }

  lemma NothingFlattened(m: HeaderLists)
    ensures Flatten(m, []) == []
  {
  }

  lemma FlattenStep(m: HeaderLists, order: seq<string>, i: nat)
    requires i < |order| && forall k :: k in order ==> k in m
    ensures |Flatten(m, order[..i + 1])| == |Flatten(m, order[..i])| + |m[order[i]]|
  {
    assert order[..i + 1][..i] == order[..i];
  }

  /** Where one value lands in the flattened pairs. */
  lemma {:induction false} FlattenAt(m: HeaderLists, order: seq<string>, i: nat, j: nat)
    requires i < |order| && (forall k :: k in order ==> k in m) && j < |m[order[i]]|
    ensures var at := |Flatten(m, order[..i])| + j;
            at < |Flatten(m, order)| && Flatten(m, order)[at] == (order[i], m[order[i]][j])
  {
    var front := order[..|order| - 1];
    if i < |order| - 1 {
      FlattenAt(m, front, i, j);
      assert front[..i] == order[..i];
    }
  }

  /** Native to Objective-C: group pair by pair into a growing dictionary. */
  method ToIosHeaders(headers: Pairs) returns (headerDict: HeaderLists)
    ensures headerDict == Regroup(headers)
  {
    headerDict := map[];
    for i := 0 to |headers|
      invariant headerDict == Regroup(headers[..i])
    {
      var header := headers[i];
      if header.0 !in headerDict {
        headerDict := headerDict[header.0 := []];
      }
      headerDict := headerDict[header.0 := headerDict[header.0] + [header.1]];
      assert headers[..i + 1][..i] == headers[..i];
    }
    assert headers[..|headers|] == headers;
  }

  /** Java to JNI: nested loops append key and value. */
  method ToJniHeaders(headers: HeaderLists, order: seq<string>) returns (converted: seq<string>)
    requires Enumerates(order, headers)
    ensures converted == Interleave(Flatten(headers, order))
  {
    converted := [];
    for i := 0 to |order|
      invariant converted == Interleave(Flatten(headers, order[..i]))
    {
      var values := headers[order[i]];
      var done := Flatten(headers, order[..i]);
      assert order[..i + 1][..i] == order[..i];
      for j := 0 to |values|
        invariant converted == Interleave(done + PairsOf(order[i], values)[..j])
      {
        var pairs := done + PairsOf(order[i], values)[..j];
        InterleaveAppend(pairs, (order[i], values[j]));
        assert pairs + [(order[i], values[j])] == done + PairsOf(order[i], values)[..j + 1];
        converted := converted + [order[i]];
        converted := converted + [values[j]];
      }
      assert PairsOf(order[i], values)[..|values|] == PairsOf(order[i], values);
    }
    assert order[..|order|] == order;
  }

  lemma InterleaveAppend(pairs: Pairs, pair: (string, string))
    ensures Interleave(pairs + [pair]) == Interleave(pairs) + [pair.0] + [pair.1]
  {
    var all, front := Interleave(pairs + [pair]), Interleave(pairs) + [pair.0] + [pair.1];
    forall i | 0 <= i < 2 * |pairs| ensures all[i] == front[i] {
      assert (pairs + [pair])[i / 2] == pairs[i / 2];
    }
  }

  /** JNI to native: step by two through the flat array, which holds keys and values in turn. */
  method ToNativeFromFlat(flat: seq<string>) returns (headerArray: array<(string, string)>)
    requires |flat| % 2 == 0
    ensures Interleave(headerArray[..]) == flat
  {
    var length := |flat|;
    headerArray := new (string, string)[length / 2];
    var i := 0;
    while i < length
      invariant 0 <= i <= length && i % 2 == 0
      invariant forall k :: 0 <= k < i / 2 ==> headerArray[k] == (flat[2 * k], flat[2 * k + 1])
    {
      headerArray[i / 2] := (flat[i], flat[i + 1]);
      i := i + 2;
    }
  }

  /** Accumulates headers on the Java side; a missing map is the null reference. */
  class JvmBridgeUtility {
    var headerAccumulator: Option<HeaderLists>
    var headerCount: int

    constructor ()
      ensures headerAccumulator == None && headerCount == 0
    {
      headerAccumulator, headerCount := None, 0;
    }

    method PassHeader(key: string, value: string, start: bool)
      requires if start then headerAccumulator.None? && headerCount == 0 else headerAccumulator.Some?
      modifies this
      ensures headerAccumulator == Some(AddPair(old(headerAccumulator).GetOr(map[]), key, value))
      ensures headerCount == old(headerCount) + 1
    {
      if start {
        headerAccumulator := Some(map[]);
      }
      var headers := headerAccumulator.value;
      if key !in headers {
        headers := headers[key := []];
      }
      headerAccumulator := Some(headers[key := headers[key] + [value]]);
      assert headerAccumulator.value == AddPair(old(headerAccumulator).GetOr(map[]), key, value);
      headerCount := headerCount + 1;
    }

    method RetrieveHeaders() returns (headers: Option<HeaderLists>)
      modifies this
      ensures headers == old(headerAccumulator) && headerAccumulator == None && headerCount == 0
    {
      headers := headerAccumulator;
      headerAccumulator := None;
      headerCount := 0;
    }

    method ValidateCount(expected: int) returns (matches: bool)
      ensures matches == (headerCount == expected)
    {
      matches := headerCount == expected;
    }

    /**
     The loop of pass_headers, then validation of the announced number and retrieval. No pairs leave the null
     reference.
     */
    method PassAll(pairs: Pairs, announced: int) returns (headers: Option<HeaderLists>, valid: bool)
      requires headerAccumulator == None && headerCount == 0
      modifies this
      ensures valid <==> announced == |pairs|
      ensures headers == if pairs == [] then None else Some(Regroup(pairs))
      ensures headerAccumulator == None && headerCount == 0
    {
      var startHeaders := true;
      for i := 0 to |pairs|
        invariant startHeaders == (i == 0)
        invariant headerAccumulator == if i == 0 then None else Some(Regroup(pairs[..i]))
        invariant headerCount == i
      {
        assert pairs[..i + 1][..i] == pairs[..i];
        PassHeader(pairs[i].0, pairs[i].1, startHeaders);
        startHeaders := false;
      }
      assert pairs[..|pairs|] == pairs;
      valid := ValidateCount(announced);
      headers := RetrieveHeaders();
    }
  }

  // ---------- Round trip ----------

  /** The keys that have at least one value. */
  function NonEmpty(m: HeaderLists, order: seq<string>): HeaderLists
    requires forall k :: k in order ==> k in m
  {
    map k | k in order && m[k] != [] :: m[k]
  }

  lemma {:induction false} RegroupValues(pairs: Pairs, key: string, values: seq<string>)
    requires key !in Regroup(pairs)
    ensures Regroup(pairs + PairsOf(key, values)) ==
            if values == [] then Regroup(pairs) else Regroup(pairs)[key := values]
  {
    if values == [] {
      assert pairs + PairsOf(key, values) == pairs;
    } else {
      var front, last := values[..|values| - 1], values[|values| - 1];
      var all := pairs + PairsOf(key, values);
      RegroupValues(pairs, key, front);
      assert all[..|all| - 1] == pairs + PairsOf(key, front);
      assert front + [last] == values;
    }
  }

  lemma NonEmptyStep(m: HeaderLists, front: seq<string>, last: string)
    requires last in m && last !in front && forall k :: k in front ==> k in m
    ensures NonEmpty(m, front + [last]) ==
            if m[last] == [] then NonEmpty(m, front) else NonEmpty(m, front)[last := m[last]]
    ensures last !in NonEmpty(m, front)
  {
    assert forall k :: k in front + [last] <==> k in front || k == last;
  }

  lemma {:induction false} RegroupFlatten(m: HeaderLists, order: seq<string>)
    requires Distinct(order) && forall k :: k in order ==> k in m
    ensures Regroup(Flatten(m, order)) == NonEmpty(m, order)
  {
    if order != [] {
      hide Regroup, PairsOf, NonEmpty;
      var front, last := order[..|order| - 1], order[|order| - 1];
      RegroupFlatten(m, front);
      assert last !in front;
      NonEmptyStep(m, front, last);
      assert order == front + [last];
      RegroupValues(Flatten(m, front), last, m[last]);
    } else {
      NothingRegrouped(m);
    }
  }

  lemma NothingRegrouped(m: HeaderLists)
    ensures Regroup([]) == map[] == NonEmpty(m, [])
  {
  }

  /** In every iteration order, the map comes back with value order kept if and only if no value list is empty. */
  lemma MapSurvivesExactly(m: HeaderLists, order: seq<string>)
    requires Enumerates(order, m)
    ensures Regroup(Flatten(m, order)) == m <==> forall k :: k in m ==> m[k] != []
  {
    RegroupFlatten(m, order);
    var back := NonEmpty(m, order);
    if forall k :: k in m ==> m[k] != [] {
      assert back.Keys == m.Keys;
    } else {
      var k :| k in m && m[k] == [];
      assert k !in back;
    }
  }

  /** The flat array determines the pairs it was made from. */
  lemma InterleaveInjective(a: Pairs, b: Pairs)
    requires Interleave(a) == Interleave(b)
    ensures a == b
  {
    assert |Interleave(a)| == 2 * |a| && |Interleave(b)| == 2 * |b|;
    forall i | 0 <= i < |a| ensures a[i] == b[i] {
      assert Interleave(a)[2 * i] == Interleave(b)[2 * i];
      assert Interleave(a)[2 * i + 1] == Interleave(b)[2 * i + 1];
    }
  }

  /**
   Across the bridge and back through the Java accumulator, in every iteration order: the same map exactly when it
   has a key and no empty value list, and null exactly when it has no value at all.
   */
  lemma JavaRoundTripExactly(m: HeaderLists, order: seq<string>)
    requires Enumerates(order, m)
    ensures var pairs := Flatten(m, order);
            var back := if pairs == [] then None else Some(Regroup(pairs));
            && (back == Some(m) <==> m != map[] && forall k :: k in m ==> m[k] != [])
            && (back == None <==> forall k :: k in m ==> m[k] == [])
  {
    MapSurvivesExactly(m, order);
    RegroupFlatten(m, order);
    RegroupEmpty(Flatten(m, order));
    EmptyExactly(m, order);
    if m != map[] {
      assert m.Keys != {};
      var k :| k in m.Keys;
      assert k in m;
    }
  }

  lemma RegroupEmpty(pairs: Pairs)
    ensures Regroup(pairs) == map[] <==> pairs == []
  {
    if pairs != [] {
      assert pairs[|pairs| - 1].0 in Regroup(pairs);
    }
  }

  lemma EmptyExactly(m: HeaderLists, order: seq<string>)
    requires Enumerates(order, m)
    ensures NonEmpty(m, order) == map[] <==> forall k :: k in m ==> m[k] == []
  {
    if exists k :: k in m && m[k] != [] {
      var k :| k in m && m[k] != [];
      assert k in NonEmpty(m, order);
    }
  }

  // ---------- Keys and values ----------

  /** In the flat array every key stands directly before its value. */
  lemma InterleaveAlternates(pairs: Pairs, i: nat)
    requires i < |pairs|
    ensures |Interleave(pairs)| == 2 * |pairs|
    ensures Interleave(pairs)[2 * i] == pairs[i].0 && Interleave(pairs)[2 * i + 1] == pairs[i].1
  {
  }

  /** The values that the pairs give for a key, in order. */
  function ValuesFor(pairs: Pairs, key: string): seq<string> {
    if pairs == [] then []
    else (if pairs[0].0 == key then [pairs[0].1] else []) + ValuesFor(pairs[1..], key)
  }

  lemma {:induction false} ValuesForAppend(pairs: Pairs, pair: (string, string), key: string)
    ensures ValuesFor(pairs + [pair], key) == ValuesFor(pairs, key) + if pair.0 == key then [pair.1] else []
  {
    if pairs == [] {
      assert [] + [pair] == [pair] && [pair][1..] == [];
    } else {
      ValuesForAppend(pairs[1..], pair, key);
      assert (pairs + [pair])[1..] == pairs[1..] + [pair];
    }
  }

  /** Regrouped pairs hold, for each key that occurs first in a pair, exactly the second parts of its pairs, in order. */
  lemma {:induction false} RegroupHolds(pairs: Pairs, key: string)
    ensures key in Regroup(pairs) <==> ValuesFor(pairs, key) != []
    ensures key in Regroup(pairs) ==> Regroup(pairs)[key] == ValuesFor(pairs, key)
  {
    if pairs != [] {
      var front, last := pairs[..|pairs| - 1], pairs[|pairs| - 1];
      RegroupHolds(front, key);
      ValuesForAppend(front, last, key);
      assert front + [last] == pairs;
      assert ValuesFor(front, key) + [] == ValuesFor(front, key);
    }
  }
}
