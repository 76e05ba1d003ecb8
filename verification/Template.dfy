/**
 Resolution of the configuration template: a chain of string replacements, compared with substitution in a
 template read as literals and placeholders.
 */
module Template {
  /** Java's String.replace: every leftmost, non-overlapping occurrence. */
  function Replace(s: string, target: string, value: string): string
    requires target != ""
    decreases |s|
  {
    if |s| < |target| then s
    else if s[..|target|] == target then value + Replace(s[|target|..], target, value)
    else [s[0]] + Replace(s[1..], target, value)
  }

  predicate Contains(s: string, part: string) {
    exists i {:trigger s[i..]} :: 0 <= i <= |s| && part <= s[i..]
  }

  // ---------- Templates as pieces ----------

  datatype Piece = Literal(text: string) | Placeholder(name: string)

  function Token(name: string): string {
    "{{ " + name + " }}"
  }

  function PieceText(p: Piece): string {
    match p
    case Literal(text) => text
    case Placeholder(name) => Token(name)
  }

  function Text(ps: seq<Piece>): string {
    if ps == [] then "" else PieceText(ps[0]) + Text(ps[1..])
  }

  /** No double brace inside, and none that could arise with what follows. */
  predicate Plain(s: string) {
    (forall i :: 0 <= i < |s| - 1 ==> !(s[i] == '{' && s[i + 1] == '{')) &&
    (s != "" ==> s[|s| - 1] != '{')
  }

  predicate GoodName(name: string) {
    forall i :: 0 <= i < |name| ==> name[i] != '{' && name[i] != '}'
  }

  predicate WellFormed(ps: seq<Piece>) {
    forall p :: p in ps ==> if p.Literal? then Plain(p.text) else GoodName(p.name)
  }

  /** Every placeholder with the name gives way to the pieces of the value. */
  function Substitute(ps: seq<Piece>, name: string, value: seq<Piece>): seq<Piece> {
    if ps == [] then []
    else (if ps[0] == Placeholder(name) then value else [ps[0]]) + Substitute(ps[1..], name, value)
  }

  // ---------- One replacement is one substitution ----------

  /** Where the target does not match, replacement moves on by one character. */
  lemma ReplaceMovesOn(l: string, r: string, target: string, value: string, rest: string)
    requires target != "" && l != "" && (|l + r| < |target| || (l + r)[..|target|] != target)
    requires Replace(l[1..] + r, target, value) == l[1..] + rest
    ensures Replace(l + r, target, value) == l + rest
  {
    var s := l + r;
    assert s[0] == l[0] && s[1..] == l[1..] + r;
    if |s| < |target| {
      assert [l[0]] + (l[1..] + r) == s && [l[0]] + (l[1..] + rest) == l + rest;
    } else {
      assert [l[0]] + (l[1..] + rest) == l + rest;
    }
  }

  lemma PlainTail(l: string, r: string, name: string)
    requires Plain(l) && l != ""
    ensures Plain(l[1..])
    ensures var s, t := l + r, Token(name); |s| < |t| || s[..|t|] != t
  {
    var s, t := l + r, Token(name);
    assert forall i :: 0 <= i < |l| - 1 ==> l[1..][i] == l[i + 1];
    if |s| >= |t| {
      assert s[0] == l[0] && (|l| > 1 ==> s[1] == l[1]);
      assert t[0] == '{' && t[1] == '{';
      assert s[..|t|][0] == s[0] && s[..|t|][1] == s[1];
    }
  }

  lemma {:induction false} ReplaceSkipsPlain(l: string, r: string, name: string, value: string)
    requires Plain(l)
    ensures Replace(l + r, Token(name), value) == l + Replace(r, Token(name), value)
  {
    var t, rest := Token(name), Replace(r, Token(name), value);
    assert t != "";
    if l == "" {
      assert l + r == r && l + rest == rest;
    } else {
      PlainTail(l, r, name);
      ReplaceSkipsPlain(l[1..], r, name, value);
      hide *;
      ReplaceMovesOn(l, r, t, value, rest);
    }
  }

  lemma TokenPrefixIsItself(name: string, name': string, r: string)
    requires GoodName(name) && GoodName(name')
    requires var s, t := Token(name) + r, Token(name'); |s| >= |t| && s[..|t|] == t
    ensures name == name'
  {
    var s, t := Token(name) + r, Token(name');
    var n, m := |name|, |name'|;
    FirstClosingBrace(name, r);
    FirstClosingBrace(name', "");
    assert t + "" == t;
    assert forall k :: 0 <= k < |t| ==> s[k] == t[k];
    assert n == m;
    assert forall k :: 0 <= k < n ==> name[k] == s[k + 3] && s[k + 3] == t[k + 3] && t[k + 3] == name'[k];
  }

  lemma FirstClosingBrace(name: string, r: string)
    requires GoodName(name)
    ensures var s := Token(name) + r;
            s[|name| + 4] == '}' && forall k :: 0 <= k < |name| + 4 ==> s[k] != '}'
  {
    var s := Token(name) + r;
    forall k | 0 <= k < |name| + 4 ensures s[k] != '}' {
      if 3 <= k < 3 + |name| {
        assert s[k] == name[k - 3];
      }
    }
  }

  lemma TokenTailIsPlain(name: string)
    requires GoodName(name)
    ensures Plain(Token(name)[1..])
  {
    var l := Token(name)[1..];
    assert l == "{ " + name + " }}";
    forall k | 0 < k < |l| ensures l[k] != '{' {
      if 2 <= k < 2 + |name| {
        assert l[k] == name[k - 2];
      }
    }
  }

  lemma ReplaceAtToken(name: string, r: string, name': string, value: string)
    requires GoodName(name) && GoodName(name')
    ensures Replace(Token(name) + r, Token(name'), value) ==
            (if name == name' then value else Token(name)) + Replace(r, Token(name'), value)
  {
    var s, t := Token(name) + r, Token(name');
    assert t != "" && Token(name) != "";
    if name == name' {
      hide Token;
      assert s[..|t|] == t && s[|t|..] == r;
    } else {
      TokenTailIsPlain(name);
      ReplaceSkipsPlain(Token(name)[1..], r, name', value);
      NoMatchAtToken(name, r, name');
      hide *;
      ReplaceMovesOn(Token(name), r, t, value, Replace(r, t, value));
    }
  }

  lemma NoMatchAtToken(name: string, r: string, name': string)
    requires GoodName(name) && GoodName(name') && name != name'
    ensures var s, t := Token(name) + r, Token(name'); |s| < |t| || s[..|t|] != t
  {
    var s, t := Token(name) + r, Token(name');
    if |s| >= |t| && s[..|t|] == t {
      TokenPrefixIsItself(name, name', r);
    }
  }

  lemma ConcatAssociative(a: string, b: string, c: string)
    ensures a + (b + c) == a + b + c
  {
  }

  lemma TextCons(p: Piece, ps: seq<Piece>)
    ensures Text([p] + ps) == PieceText(p) + Text(ps)
  {
    hide PieceText;
    assert ([p] + ps)[1..] == ps;
  }

  lemma {:induction false} TextAppend(a: seq<Piece>, b: seq<Piece>)
    ensures Text(a + b) == Text(a) + Text(b)
  {
    hide PieceText;
    if a == [] {
      assert a + b == b;
    } else {
      hide Text;
      var p, rest := a[0], a[1..];
      TextAppend(rest, b);
      TextCons(p, rest);
      TextCons(p, rest + b);
      assert a == [p] + rest && a + b == [p] + (rest + b);
      ConcatAssociative(PieceText(p), Text(rest), Text(b));
    }
  }

  lemma {:induction false} ReplaceIsSubstitute(ps: seq<Piece>, name: string, value: seq<Piece>)
    requires WellFormed(ps) && GoodName(name)
    ensures Replace(Text(ps), Token(name), Text(value)) == Text(Substitute(ps, name, value))
  {
    if ps != [] {
      var r := Text(ps[1..]);
      ReplaceIsSubstitute(ps[1..], name, value);
      assert ps[0] in ps;
      match ps[0]
      case Literal(text) => ReplaceSkipsPlain(text, r, name, Text(value));
      case Placeholder(n) => ReplaceAtToken(n, r, name, Text(value));
      var head := if ps[0] == Placeholder(name) then value else [ps[0]];
      TextAppend(head, Substitute(ps[1..], name, value));
      assert Text([ps[0]]) == PieceText(ps[0]) + Text([]) == PieceText(ps[0]);
    }
  }

  lemma {:induction false} SubstituteWellFormed(ps: seq<Piece>, name: string, value: seq<Piece>)
    requires WellFormed(ps) && WellFormed(value)
    ensures WellFormed(Substitute(ps, name, value))
  {
    if ps != [] {
      SubstituteWellFormed(ps[1..], name, value);
    }
  }

  // ---------- The chain of replacements ----------

  /** A placeholder name and the pieces that replace it. */
  type Binding = (string, seq<Piece>)

  function ReplaceAll(s: string, values: seq<(string, string)>): string
    decreases |values|
  {
    if values == [] then s
    else ReplaceAll(Replace(s, Token(values[0].0), values[0].1), values[1..])
  }

  function Texts(bindings: seq<Binding>): seq<(string, string)> {
    seq(|bindings|, i requires 0 <= i < |bindings| => (bindings[i].0, Text(bindings[i].1)))
  }

  function SubstituteAll(ps: seq<Piece>, bindings: seq<Binding>): seq<Piece>
    decreases |bindings|
  {
    if bindings == [] then ps else SubstituteAll(Substitute(ps, bindings[0].0, bindings[0].1), bindings[1..])
  }

  predicate GoodBindings(bindings: seq<Binding>) {
    forall b :: b in bindings ==> GoodName(b.0) && WellFormed(b.1)
  }

  /** The values have no placeholders of their own. */
  predicate Closed(bindings: seq<Binding>) {
    forall b :: b in bindings ==> AllLiterals(b.1)
  }

  predicate AllLiterals(ps: seq<Piece>) {
    forall p :: p in ps ==> p.Literal?
  }

  lemma {:induction false} ChainIsSubstitution(ps: seq<Piece>, bindings: seq<Binding>)
    requires WellFormed(ps) && GoodBindings(bindings)
    ensures ReplaceAll(Text(ps), Texts(bindings)) == Text(SubstituteAll(ps, bindings))
    ensures WellFormed(SubstituteAll(ps, bindings))
    decreases |bindings|
  {
    if bindings != [] {
      var b := bindings[0];
      assert b in bindings;
      ReplaceIsSubstitute(ps, b.0, b.1);
      SubstituteWellFormed(ps, b.0, b.1);
      ChainIsSubstitution(Substitute(ps, b.0, b.1), bindings[1..]);
      assert Texts(bindings)[1..] == Texts(bindings[1..]);
    }
  }

  /** What one piece becomes. */
  function Replaced(p: Piece, values: map<string, seq<Piece>>): seq<Piece> {
    if p.Placeholder? && p.name in values then values[p.name] else [p]
  }

  /** All placeholders at once, each piece looked at once. */
  function Simultaneous(ps: seq<Piece>, values: map<string, seq<Piece>>): seq<Piece> {
    if ps == [] then []
    else Replaced(ps[0], values) + Simultaneous(ps[1..], values)
  }

  predicate Distinct(bindings: seq<Binding>) {
    forall i, j :: 0 <= i < j < |bindings| ==> bindings[i].0 != bindings[j].0
  }

  function AsMap(bindings: seq<Binding>): map<string, seq<Piece>> {
    if bindings == [] then map[] else AsMap(bindings[1..])[bindings[0].0 := bindings[0].1]
  }

  lemma {:induction false} AsMapLookup(bindings: seq<Binding>, name: string)
    requires Distinct(bindings)
    ensures name in AsMap(bindings) <==> exists b :: b in bindings && b.0 == name
    ensures forall b :: b in bindings && b.0 == name ==> AsMap(bindings)[name] == b.1
  {
    if bindings != [] {
      AsMapLookup(bindings[1..], name);
      assert forall b :: b in bindings <==> b == bindings[0] || b in bindings[1..];
      assert forall i :: 0 < i < |bindings| ==> bindings[i].0 != bindings[0].0;
    }
  }

  lemma PiecesAssociative(a: seq<Piece>, b: seq<Piece>, c: seq<Piece>)
    ensures a + (b + c) == a + b + c
  {
  }

  lemma SimultaneousCons(p: Piece, ps: seq<Piece>, values: map<string, seq<Piece>>)
    ensures Simultaneous([p] + ps, values) == Replaced(p, values) + Simultaneous(ps, values)
  {
    assert ([p] + ps)[1..] == ps && ([p] + ps)[0] == p;
  }

  lemma {:induction false} SimultaneousAppend(a: seq<Piece>, b: seq<Piece>, values: map<string, seq<Piece>>)
    ensures Simultaneous(a + b, values) == Simultaneous(a, values) + Simultaneous(b, values)
  {
    if a == [] {
      assert a + b == b;
    } else {
      hide Simultaneous, Replaced;
      var p, rest := a[0], a[1..];
      SimultaneousAppend(rest, b, values);
      SimultaneousCons(p, rest, values);
      SimultaneousCons(p, rest + b, values);
      assert a == [p] + rest && a + b == [p] + (rest + b);
      PiecesAssociative(Replaced(p, values), Simultaneous(rest, values), Simultaneous(b, values));
    }
  }

  lemma {:induction false} SimultaneousOnLiterals(ps: seq<Piece>, values: map<string, seq<Piece>>)
    requires AllLiterals(ps)
    ensures Simultaneous(ps, values) == ps
  {
    if ps != [] {
      assert ps[0] in ps;
      SimultaneousOnLiterals(ps[1..], values);
    }
  }

  /** Substituting a closed value first is the same as adding it to the simultaneous substitution. */
  lemma {:induction false} SubstituteThenSimultaneous(ps: seq<Piece>, name: string, value: seq<Piece>,
                                                      values: map<string, seq<Piece>>)
    requires name !in values && AllLiterals(value)
    ensures Simultaneous(Substitute(ps, name, value), values) == Simultaneous(ps, values[name := value])
  {
    if ps != [] {
      SubstituteThenSimultaneous(ps[1..], name, value, values);
      var head := if ps[0] == Placeholder(name) then value else [ps[0]];
      SimultaneousAppend(head, Substitute(ps[1..], name, value), values);
      SimultaneousOnLiterals(value, values);
      assert Simultaneous([], values) == [];
    }
  }

  lemma {:induction false} SequentialIsSimultaneous(ps: seq<Piece>, bindings: seq<Binding>)
    requires Distinct(bindings) && Closed(bindings)
    ensures SubstituteAll(ps, bindings) == Simultaneous(ps, AsMap(bindings))
    decreases |bindings|
  {
    if bindings == [] {
      NothingBound(ps);
    } else {
      var b := bindings[0];
      assert b in bindings;
      assert Distinct(bindings[1..]);
      SequentialIsSimultaneous(Substitute(ps, b.0, b.1), bindings[1..]);
      AsMapLookup(bindings[1..], b.0);
      assert b.0 !in AsMap(bindings[1..]) by {
        assert forall c :: c in bindings[1..] ==> c.0 != b.0;
      }
      SubstituteThenSimultaneous(ps, b.0, b.1, AsMap(bindings[1..]));
    }
  }

  lemma {:induction false} NothingBound(ps: seq<Piece>)
    ensures Simultaneous(ps, map[]) == ps
  {
    if ps != [] {
      NothingBound(ps[1..]);
    }
  }

  /** On texts: the chain of replacements is the simultaneous substitution, in whatever order it is made. */
  lemma ChainIsSimultaneousInAnyOrder(ps: seq<Piece>, bindings: seq<Binding>, reordered: seq<Binding>)
    requires WellFormed(ps) && GoodBindings(bindings) && Distinct(bindings) && Closed(bindings)
    requires multiset(reordered) == multiset(bindings)
    ensures ReplaceAll(Text(ps), Texts(bindings)) == Text(Simultaneous(ps, AsMap(bindings)))
    ensures ReplaceAll(Text(ps), Texts(reordered)) == ReplaceAll(Text(ps), Texts(bindings))
  {
    ChainIsSubstitution(ps, bindings);
    SequentialIsSimultaneous(ps, bindings);
    SameElements(bindings, reordered);
    ChainIsSubstitution(ps, reordered);
    SequentialIsSimultaneous(ps, reordered);
    SameMap(bindings, reordered);
  }

  lemma SameElements(bindings: seq<Binding>, reordered: seq<Binding>)
    requires Distinct(bindings) && multiset(reordered) == multiset(bindings)
    ensures forall b :: b in reordered <==> b in bindings
    ensures Distinct(reordered)
  {
    forall b ensures b in reordered <==> b in bindings {
      assert b in reordered <==> b in multiset(reordered);
      assert b in bindings <==> b in multiset(bindings);
    }
    forall i, j | 0 <= i < j < |reordered| ensures reordered[i].0 != reordered[j].0 {
      if reordered[i] == reordered[j] {
        OccursTwice(reordered, i, j);
        DistinctOccursOnce(bindings, reordered[i]);
      }
      assert reordered[i] in bindings && reordered[j] in bindings;
    }
  }

  lemma OccursTwice(s: seq<Binding>, i: nat, j: nat)
    requires i < j < |s| && s[i] == s[j]
    ensures multiset(s)[s[i]] >= 2
  {
    assert s == s[..j] + [s[j]] + s[j + 1..];
    assert s[i] in s[..j];
    assert multiset(s) == multiset(s[..j]) + multiset{s[j]} + multiset(s[j + 1..]);
    assert multiset(s[..j])[s[i]] >= 1;
  }

  lemma {:induction false} DistinctOccursOnce(bindings: seq<Binding>, b: Binding)
    requires Distinct(bindings)
    ensures multiset(bindings)[b] <= 1
  {
    if bindings != [] {
      DistinctOccursOnce(bindings[1..], b);
      assert bindings == [bindings[0]] + bindings[1..];
      assert forall k :: 0 < k < |bindings| ==> bindings[k] != bindings[0];
      assert bindings[0] !in bindings[1..];
    }
  }

  lemma SameMap(bindings: seq<Binding>, reordered: seq<Binding>)
    requires Distinct(bindings) && Distinct(reordered) && forall b :: b in reordered <==> b in bindings
    ensures AsMap(bindings) == AsMap(reordered)
  {
    forall name
      ensures name in AsMap(bindings) <==> name in AsMap(reordered)
      ensures name in AsMap(bindings) ==> AsMap(bindings)[name] == AsMap(reordered)[name]
    {
      AsMapLookup(bindings, name);
      AsMapLookup(reordered, name);
    }
  }

  // ---------- The check for unresolved keys ----------

  predicate HasPlaceholder(ps: seq<Piece>) {
    exists p :: p in ps && p.Placeholder?
  }

  lemma PlainConcat(a: string, b: string)
    requires Plain(a) && Plain(b)
    ensures Plain(a + b)
  {
    var s := a + b;
    forall i | 0 <= i < |s| - 1 ensures !(s[i] == '{' && s[i + 1] == '{') {
      NoBraceAt(a, b, i);
    }
  }

  lemma NoBraceAt(a: string, b: string, i: nat)
    requires Plain(a) && Plain(b) && i + 1 < |a + b|
    ensures !((a + b)[i] == '{' && (a + b)[i + 1] == '{')
  {
    if i < |a| {
      assert (a + b)[i] == a[i];
      if i + 1 < |a| {
        assert (a + b)[i + 1] == a[i + 1];
      }
    } else {
      assert (a + b)[i] == b[i - |a|] && (a + b)[i + 1] == b[i - |a| + 1];
    }
  }

  lemma {:induction false} LiteralsArePlain(ps: seq<Piece>)
    requires WellFormed(ps) && !HasPlaceholder(ps)
    ensures Plain(Text(ps))
  {
    if ps != [] {
      assert ps[0] in ps;
      LiteralsArePlain(ps[1..]);
      PlainConcat(ps[0].text, Text(ps[1..]));
    }
  }

  lemma PlainContainsNoKey(s: string)
    requires Plain(s)
    ensures !Contains(s, "{{")
  {
    forall i {:trigger s[i..]} | 0 <= i <= |s| ensures !("{{" <= s[i..]) {
      if i + 1 < |s| {
        assert s[i..][0] == s[i] && s[i..][1] == s[i + 1];
      }
    }
  }

  lemma {:induction false} PlaceholderShows(ps: seq<Piece>)
    requires HasPlaceholder(ps)
    ensures Contains(Text(ps), "{{")
  {
    var head, rest := PieceText(ps[0]), Text(ps[1..]);
    if ps[0].Placeholder? {
      assert Text(ps)[0..] == Text(ps) && "{{" <= Text(ps)[0..];
    } else {
      var p :| p in ps && p.Placeholder?;
      assert p in ps[1..];
      PlaceholderShows(ps[1..]);
      var i :| 0 <= i <= |rest| && "{{" <= rest[i..];
      assert Text(ps)[|head| + i..] == rest[i..];
    }
  }

  /** The unresolved-key check fires exactly when a placeholder remains. */
  lemma CheckFiresExactly(ps: seq<Piece>)
    requires WellFormed(ps)
    ensures Contains(Text(ps), "{{") <==> HasPlaceholder(ps)
  {
    if HasPlaceholder(ps) {
      PlaceholderShows(ps);
    } else {
      LiteralsArePlain(ps);
      PlainContainsNoKey(Text(ps));
    }
  }

  lemma {:induction false} SubstituteHas(ps: seq<Piece>, name: string, value: seq<Piece>, n: string)
    ensures Placeholder(n) in Substitute(ps, name, value) <==>
            (n != name && Placeholder(n) in ps) || (Placeholder(name) in ps && Placeholder(n) in value)
  {
    if ps != [] {
      SubstituteHas(ps[1..], name, value, n);
    }
  }

  lemma {:induction false} SubstituteAllHas(ps: seq<Piece>, bindings: seq<Binding>, n: string)
    requires Closed(bindings)
    ensures Placeholder(n) in SubstituteAll(ps, bindings) <==>
            Placeholder(n) in ps && forall b :: b in bindings ==> b.0 != n
    decreases |bindings|
  {
    if bindings != [] {
      var b := bindings[0];
      assert b in bindings;
      SubstituteAllHas(Substitute(ps, b.0, b.1), bindings[1..], n);
      SubstituteHas(ps, b.0, b.1, n);
      assert Placeholder(n) !in b.1;
      assert forall c :: c in bindings <==> c == b || c in bindings[1..];
    }
  }

  lemma {:induction false} SubstituteAbsent(ps: seq<Piece>, name: string, value: seq<Piece>)
    requires Placeholder(name) !in ps
    ensures Substitute(ps, name, value) == ps
  {
    if ps != [] {
      SubstituteAbsent(ps[1..], name, value);
    }
  }

  lemma {:induction false} SimultaneousHas(ps: seq<Piece>, values: map<string, seq<Piece>>, n: string)
    ensures Placeholder(n) in Simultaneous(ps, values) <==>
            (Placeholder(n) in ps && n !in values) ||
            exists k :: k in values && Placeholder(k) in ps && Placeholder(n) in values[k]
  {
    if ps != [] {
      SimultaneousHas(ps[1..], values, n);
      assert forall p :: p in ps <==> p == ps[0] || p in ps[1..];
    }
  }

  lemma {:induction false} SimultaneousWellFormed(ps: seq<Piece>, values: map<string, seq<Piece>>)
    requires WellFormed(ps) && forall k :: k in values ==> WellFormed(values[k])
    ensures WellFormed(Simultaneous(ps, values))
  {
    if ps != [] {
      SimultaneousWellFormed(ps[1..], values);
    }
  }

  /** Only the values of names that occur matter. */
  lemma {:induction false} SimultaneousAgrees(ps: seq<Piece>, a: map<string, seq<Piece>>, b: map<string, seq<Piece>>)
    requires forall k :: Placeholder(k) in ps ==> (k in a <==> k in b) && (k in a ==> a[k] == b[k])
    ensures Simultaneous(ps, a) == Simultaneous(ps, b)
  {
    if ps != [] {
      assert ps[0] in ps;
      SimultaneousAgrees(ps[1..], a, b);
    }
  }

  lemma {:induction false} AsMapWellFormed(bindings: seq<Binding>)
    requires GoodBindings(bindings)
    ensures forall k :: k in AsMap(bindings) ==> WellFormed(AsMap(bindings)[k])
  {
    if bindings != [] {
      AsMapWellFormed(bindings[1..]);
    }
  }
}
