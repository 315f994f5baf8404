/**
  * `editDistance` and `findLikelyIdentifierVariant` of evals/src/runtime-feedback.ts.
  */
module EditDistance {
  import opened Common

  function Min3(a: nat, b: nat, c: nat): nat {
    Min(a, Min(b, c))
  }

  // ----- the reference: shortest chains of single edits -----

  /** t is s with one character inserted, deleted or substituted, at any position. */
  ghost predicate OneEdit(s: string, t: string) {
    exists u, x, y, v :: Edits(s, t, u, x, y, v)
  }

  predicate Edits(s: string, t: string, u: string, x: string, y: string, v: string) {
    s == u + x + v && t == u + y + v && |x| <= 1 && |y| <= 1 && |x| + |y| >= 1
  }

  /** A chain of single edits from its first word to its last. */
  ghost predicate Chain(p: seq<string>) {
    |p| >= 1 && forall i :: 0 <= i < |p| - 1 ==> OneEdit(p[i], p[i + 1])
  }

  ghost predicate ChainFromTo(p: seq<string>, a: string, b: string) {
    Chain(p) && p[0] == a && p[|p| - 1] == b
  }

  // ----- the recursive minimum -----

  function Last(s: string): char
    requires s != []
  {
    s[|s| - 1]
  }

  function Init(s: string): string
    requires s != []
  {
    s[..|s| - 1]
  }

  function Lev(a: string, b: string): nat
    decreases |a| + |b|
  {
    if a == [] then |b|
    else if b == [] then |a|
    else Min3(Lev(Init(a), Init(b)) + (if Last(a) == Last(b) then 0 else 1),
              Lev(Init(a), b) + 1,
              Lev(a, Init(b)) + 1)
  }

  /** The three upper bounds the minimum gives, base cases included. */
  lemma LevBounds(s: string, c: string)
    ensures s != [] ==> Lev(s, c) <= Lev(Init(s), c) + 1
    ensures c != [] ==> Lev(s, c) <= Lev(s, Init(c)) + 1
    ensures s != [] && c != [] ==> Lev(s, c) <= Lev(Init(s), Init(c)) + 1
    ensures s != [] && c != [] && Last(s) == Last(c) ==> Lev(s, c) <= Lev(Init(s), Init(c))
  {
  }

  /** The distance is attained by one of the three moves. */
  lemma LevAttained(s: string, c: string)
    requires s != [] && c != []
    ensures
      || Lev(s, c) == Lev(Init(s), Init(c)) + (if Last(s) == Last(c) then 0 else 1)
      || Lev(s, c) == Lev(Init(s), c) + 1
      || Lev(s, c) == Lev(s, Init(c)) + 1
  {
  }

  lemma LevEmpty(s: string)
    ensures Lev(s, []) == |s| && Lev([], s) == |s|
  {
  }

  /** Changing at most one character moves the distance to any third word by at most one. */
  lemma {:induction false} LevOneEdit(u: string, x: string, y: string, v: string, c: string)
    requires |x| <= 1 && |y| <= 1
    ensures Lev(u + x + v, c) <= Lev(u + y + v, c) + 1
    decreases |v| + |c|
  {
    hide Lev;
    var s, t := u + x + v, u + y + v;
    if c == [] {
      LevEmpty(s);
      LevEmpty(t);
    } else if v != [] {
      assert Init(s) == u + x + Init(v) && Init(t) == u + y + Init(v);
      LevOneEdit(u, x, y, Init(v), c);
      LevOneEdit(u, x, y, Init(v), Init(c));
      LevOneEdit(u, x, y, v, Init(c));
      LevBounds(s, c);
      LevAttained(t, c);
    } else if y == [] {
      assert t == u && (x == [] ==> s == u) && (x != [] ==> Init(s) == u);
      LevBounds(s, c);
    } else {
      assert Init(t) == u && (x == [] ==> s == u) && (x != [] ==> Init(s) == u);
      LevOneEdit(u, x, y, v, Init(c));
      LevBounds(s, c);
      LevAttained(t, c);
    }
  }

  lemma LevWithinOne(a: string, b: string, c: string)
    requires OneEdit(a, b)
    ensures Lev(a, c) <= Lev(b, c) + 1
  {
    var u, x, y, v :| Edits(a, b, u, x, y, v);
    LevOneEdit(u, x, y, v, c);
  }

  lemma {:induction false} LevSelf(a: string)
    ensures Lev(a, a) == 0
    decreases |a|
  {
    if a != [] {
      LevSelf(Init(a));
    }
  }

  /** No chain of edits is shorter. */
  lemma {:induction false} ChainsAreLongEnough(p: seq<string>, b: string)
    requires Chain(p) && p[|p| - 1] == b
    ensures Lev(p[0], b) <= |p| - 1
    decreases |p|
  {
    if |p| == 1 {
      LevSelf(b);
    } else {
      assert OneEdit(p[0], p[1]);
      assert Chain(p[1..]) by {
        forall i | 0 <= i < |p[1..]| - 1 ensures OneEdit(p[1..][i], p[1..][i + 1]) {
          assert OneEdit(p[i + 1], p[i + 2]);
        }
      }
      ChainsAreLongEnough(p[1..], b);
      LevWithinOne(p[0], p[1], b);
    }
  }

  // ----- a chain of that length exists -----

  function AppendAll(p: seq<string>, e: char): (r: seq<string>)
    ensures |r| == |p| && forall i :: 0 <= i < |p| ==> r[i] == p[i] + [e]
  {
    seq(|p|, i requires 0 <= i < |p| => p[i] + [e])
  }

  lemma ChainAppend(p: seq<string>, e: char)
    requires Chain(p)
    ensures Chain(AppendAll(p, e))
  {
    forall i | 0 <= i < |p| - 1 ensures OneEdit(AppendAll(p, e)[i], AppendAll(p, e)[i + 1]) {
      assert OneEdit(p[i], p[i + 1]);
      var u, x, y, v :| Edits(p[i], p[i + 1], u, x, y, v);
      assert Edits(p[i] + [e], p[i + 1] + [e], u, x, y, v + [e]);
    }
  }

  lemma ChainCons(a: string, p: seq<string>)
    requires Chain(p) && OneEdit(a, p[0])
    ensures Chain([a] + p)
  {
  }

  lemma ChainSnoc(p: seq<string>, b: string)
    requires Chain(p) && OneEdit(p[|p| - 1], b)
    ensures Chain(p + [b])
  {
  }

  lemma DeleteLast(a: string)
    requires a != []
    ensures OneEdit(a, Init(a)) && OneEdit(Init(a), a)
  {
    assert Edits(a, Init(a), Init(a), [Last(a)], [], []);
    assert Edits(Init(a), a, Init(a), [], [Last(a)], []);
  }

  /** A shortest chain, move by move. */
  lemma {:induction false} ShortestChain(a: string, b: string) returns (p: seq<string>)
    ensures ChainFromTo(p, a, b) && |p| == Lev(a, b) + 1
    decreases |a| + |b|
  {
    hide Lev;
    LevEmpty(a);
    LevEmpty(b);
    if a != [] { LevEmpty(Init(a)); }
    if b != [] { LevEmpty(Init(b)); }
    if a != [] && b != [] { LevAttained(a, b); }
    if a == [] && b == [] {
      p := [[]];
    } else if b == [] || (a != [] && Lev(a, b) == Lev(Init(a), b) + 1) {
      DeleteLast(a);
      p := ShortestChain(Init(a), b);
      ChainCons(a, p);
      p := [a] + p;
    } else if a == [] || Lev(a, b) == Lev(a, Init(b)) + 1 {
      DeleteLast(b);
      p := ShortestChain(a, Init(b));
      ChainSnoc(p, b);
      p := p + [b];
    } else {
      var q := ShortestChain(Init(a), Init(b));
      ChainAppend(q, Last(b));
      p := AppendAll(q, Last(b));
      assert Init(b) + [Last(b)] == b && Init(a) + [Last(a)] == a;
      if Last(a) != Last(b) {
        assert Edits(a, Init(a) + [Last(b)], Init(a), [Last(a)], [Last(b)], []);
        ChainCons(a, p);
        p := [a] + p;
      }
    }
  }

  /** Lev is the length of a shortest chain of insertions, deletions and substitutions. */
  lemma LevIsShortest(a: string, b: string)
    ensures exists p :: ChainFromTo(p, a, b) && |p| - 1 == Lev(a, b)
    ensures forall p :: ChainFromTo(p, a, b) ==> |p| - 1 >= Lev(a, b)
  {
    var p := ShortestChain(a, b);
    forall q | ChainFromTo(q, a, b) ensures |q| - 1 >= Lev(a, b) {
      ChainsAreLongEnough(q, b);
    }
  }

  /** On equal last characters the diagonal alone is optimal: neighbouring cells differ by at most one. */
  lemma DiagonalOnMatch(a: string, b: string)
    requires a != [] && b != [] && Last(a) == Last(b)
    ensures Lev(a, b) == Lev(Init(a), Init(b))
  {
    hide Lev;
    LevBounds(a, b);
    LevAttained(a, b);
    var a', b' := Init(a), Init(b);
    // deleting the last character of a, resp. appending it, is one edit
    assert a' + [] + [] == a' && a' + [Last(a)] + [] == a;
    LevOneEdit(a', [], [Last(a)], [], b');
    LevShorterRight(a', b);
  }

  lemma {:induction false} LevShorterRight(a: string, b: string)
    requires b != []
    ensures Lev(a, Init(b)) <= Lev(a, b) + 1
    decreases |a|
  {
    hide Lev;
    if a == [] {
      LevEmpty(b);
      LevEmpty(Init(b));
    } else {
      LevAttained(a, b);
      LevBounds(a, Init(b));
      LevShorterRight(Init(a), b);
    }
  }

  // ----- consequences used by the identifier search -----

  lemma {:induction false} LevAtLeastLengthGap(a: string, b: string)
    ensures Lev(a, b) >= |a| - |b| && Lev(a, b) >= |b| - |a|
    decreases |a| + |b|
  {
    if a != [] && b != [] {
      LevAtLeastLengthGap(Init(a), Init(b));
      LevAtLeastLengthGap(Init(a), b);
      LevAtLeastLengthGap(a, Init(b));
    }
  }

  // ----- the two-row program -----

  /** One cell from its three neighbours, with the source's shortcut on a match. */
  lemma CellStep(a: string, b: string, i: nat, j: nat)
    requires 1 <= i <= |a| && 1 <= j <= |b|
    ensures Lev(a[..i], b[..j]) ==
      if a[i - 1] == b[j - 1] then Lev(a[..i - 1], b[..j - 1])
      else Min3(Lev(a[..i - 1], b[..j - 1]), Lev(a[..i - 1], b[..j]), Lev(a[..i], b[..j - 1])) + 1
  {
    assert Init(a[..i]) == a[..i - 1] && Init(b[..j]) == b[..j - 1];
    if a[i - 1] == b[j - 1] {
      DiagonalOnMatch(a[..i], b[..j]);
    }
  }

  method Distance(a: string, b: string) returns (d: nat)
    ensures d == Lev(a, b)
  {
    hide Lev;
    var prev := new nat[|b| + 1](i => i);
    var curr := new nat[|b| + 1](_ => 0);
    forall j | 0 <= j <= |b| ensures Lev(a[..0], b[..j]) == j { LevEmpty(b[..j]); }
    for i := 1 to |a| + 1
      invariant forall j :: 0 <= j <= |b| ==> prev[j] == Lev(a[..i - 1], b[..j])
    {
      curr[0] := i;
      LevEmpty(a[..i]);
      assert b[..0] == [];
      for j := 1 to |b| + 1
        invariant forall k :: 0 <= k <= |b| ==> prev[k] == Lev(a[..i - 1], b[..k])
        invariant forall k :: 0 <= k < j ==> curr[k] == Lev(a[..i], b[..k])
      {
        CellStep(a, b, i, j);
        curr[j] := if a[i - 1] == b[j - 1] then prev[j - 1] else Min3(prev[j - 1], prev[j], curr[j - 1]) + 1;
      }
      for j := 0 to curr.Length
        invariant forall k :: 0 <= k <= |b| ==> curr[k] == Lev(a[..i], b[..k])
        invariant forall k :: 0 <= k < j ==> prev[k] == curr[k]
      {
        prev[j] := curr[j];
      }
    }
    assert a[..|a|] == a && b[..|b|] == b;
    d := prev[|b|];
  }

  // ----- the nearest identifier -----

  /** v is the one identifier, other than the query, that is strictly nearest to it, at distance at most 2. */
  ghost predicate UniqueNearest(words: seq<string>, query: string, v: string) {
    && |query| >= 4
    && v in words && v != query && Lev(query, v) <= 2
    && forall w :: w in words && w != query && w != v ==> Lev(query, w) > Lev(query, v)
  }

  /** The Set built from the matches: other words of nearby length, first occurrences in order. */
  method Candidates(words: seq<string>, query: string) returns (identifiers: seq<string>)
    ensures forall w :: w in identifiers <==> w in words && w != query && -2 <= |w| - |query| <= 2
    ensures forall i, j :: 0 <= i < j < |identifiers| ==> identifiers[i] != identifiers[j]
  {
    identifiers := [];
    for n := 0 to |words|
      invariant forall w :: w in identifiers <==> w in words[..n] && w != query && -2 <= |w| - |query| <= 2
      invariant forall i, j :: 0 <= i < j < |identifiers| ==> identifiers[i] != identifiers[j]
    {
      var value := words[n];
      assert words[..n + 1] == words[..n] + [value];
      if value != query && -2 <= |value| - |query| <= 2 && value !in identifiers {
        identifiers := identifiers + [value];
      }
    }
    assert words[..|words|] == words;
  }

  datatype Best = Best(value: string, distance: nat)

  /** The state of the search after the candidates in `seen`. */
  ghost predicate SearchInv(seen: seq<string>, query: string, best: Option<Best>, tied: bool) {
    match best
    case None => !tied && forall w :: w in seen ==> Lev(query, w) > 2
    case Some(b) =>
      && b.value in seen && b.distance == Lev(query, b.value) <= 2
      && (forall w :: w in seen ==> Lev(query, w) >= b.distance)
      && (tied <==> exists w :: w in seen && w != b.value && Lev(query, w) == b.distance)
  }

  lemma SearchInvStep(seen: seq<string>, query: string, best: Option<Best>, tied: bool, value: string)
    requires SearchInv(seen, query, best, tied) && value !in seen
    ensures var d := Lev(query, value); var seen' := seen + [value];
      && (d > 2 ==> SearchInv(seen', query, best, tied))
      && (d <= 2 && (best.None? || d < best.value.distance) ==> SearchInv(seen', query, Some(Best(value, d)), false))
      && (d <= 2 && best.Some? && d == best.value.distance ==> SearchInv(seen', query, best, true))
      && (best.Some? && d > best.value.distance ==> SearchInv(seen', query, best, tied))
  {
    hide Lev;
    assert forall w :: w in seen + [value] <==> w in seen || w == value;
  }

  method FindLikelyIdentifierVariant(words: seq<string>, query: string) returns (r: Option<string>)
    ensures forall v :: r == Some(v) <==> UniqueNearest(words, query, v)
  {
    hide Lev;
    if |query| < 4 { return None; }
    var identifiers := Candidates(words, query);
    var best: Option<Best> := None;
    var tied := false;
    for n := 0 to |identifiers|
      invariant SearchInv(identifiers[..n], query, best, tied)
    {
      var value := identifiers[n];
      assert identifiers[..n + 1] == identifiers[..n] + [value];
      SearchInvStep(identifiers[..n], query, best, tied, value);
      var distance := Distance(query, value);
      if distance > 2 { continue; }
      if best.None? || distance < best.value.distance {
        best := Some(Best(value, distance));
        tied := false;
      } else if distance == best.value.distance && value != best.value.value {
        tied := true;
      }
    }
    assert identifiers[..|identifiers|] == identifiers;
    r := if best.Some? && !tied then Some(best.value.value) else None;
    SearchResult(words, query, identifiers, best, tied);
  }

  /** The length prefilter loses nothing: a word it drops is more than 2 away. */
  lemma SearchResult(words: seq<string>, query: string, identifiers: seq<string>, best: Option<Best>, tied: bool)
    requires |query| >= 4 && SearchInv(identifiers, query, best, tied)
    requires forall w :: w in identifiers <==> w in words && w != query && -2 <= |w| - |query| <= 2
    ensures forall v :: (best.Some? && !tied && best.value.value == v) <==> UniqueNearest(words, query, v)
  {
    hide Lev;
    forall w | w in words && w != query && w !in identifiers ensures Lev(query, w) > 2 {
      LevAtLeastLengthGap(query, w);
    }
    forall v ensures (best.Some? && !tied && best.value.value == v) <==> UniqueNearest(words, query, v) {
    }
  }
}
