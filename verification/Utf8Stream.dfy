/**
  * The incremental UTF-8 repair of native/mobile/utf8_stream.h, measured against the
  * UTF8-octets grammar of section 4 of RFC 3629.
  */
module Utf8Stream {
  import opened Common

  // ----- the grammar -----

  predicate IsTail(b: Byte) {
    0x80 <= b <= 0xBF
  }

  /** UTF8-char of RFC 3629: the four alternatives, row by row. */
  predicate IsChar(s: seq<Byte>) {
    || (|s| == 1 && s[0] <= 0x7F)
    || (|s| == 2 && 0xC2 <= s[0] <= 0xDF && IsTail(s[1]))
    || (|s| == 3 && IsTail(s[2]) &&
          ( || (s[0] == 0xE0 && 0xA0 <= s[1] <= 0xBF)
            || (0xE1 <= s[0] <= 0xEC && IsTail(s[1]))
            || (s[0] == 0xED && 0x80 <= s[1] <= 0x9F)
            || (0xEE <= s[0] <= 0xEF && IsTail(s[1]))))
    || (|s| == 4 && IsTail(s[2]) && IsTail(s[3]) &&
          ( || (s[0] == 0xF0 && 0x90 <= s[1] <= 0xBF)
            || (0xF1 <= s[0] <= 0xF3 && IsTail(s[1]))
            || (s[0] == 0xF4 && 0x80 <= s[1] <= 0x8F)))
  }

  /** The scalar a UTF8-char stands for. */
  function CodePoint(c: seq<Byte>): int
    requires IsChar(c)
  {
    if |c| == 1 then c[0] as int
    else if |c| == 2 then (c[0] as int - 0xC0) * 64 + (c[1] as int - 0x80)
    else if |c| == 3 then ((c[0] as int - 0xE0) * 64 + (c[1] as int - 0x80)) * 64 + (c[2] as int - 0x80)
    else
      (((c[0] as int - 0xF0) * 64 + (c[1] as int - 0x80)) * 64 + (c[2] as int - 0x80)) * 64 + (c[3] as int - 0x80)
  }

  /** It is a Unicode scalar value, and no other UTF8-char stands for it. */
  lemma CodePointIsScalar(c: seq<Byte>)
    requires IsChar(c)
    ensures 0 <= CodePoint(c) <= 0x10FFFF && !(0xD800 <= CodePoint(c) <= 0xDFFF)
    ensures |c| == if CodePoint(c) < 0x80 then 1 else if CodePoint(c) < 0x800 then 2
                   else if CodePoint(c) < 0x1_0000 then 3 else 4
  {
  }

  lemma CodePointIsUnique(c: seq<Byte>, d: seq<Byte>)
    requires IsChar(c) && IsChar(d) && CodePoint(c) == CodePoint(d)
    ensures c == d
  {
    CodePointIsScalar(c);
    CodePointIsScalar(d);
  }

  function Flatten(cs: seq<seq<Byte>>): seq<Byte> {
    if cs == [] then [] else cs[0] + Flatten(cs[1..])
  }

  ghost predicate AllChars(cs: seq<seq<Byte>>) {
    forall i :: 0 <= i < |cs| ==> IsChar(cs[i])
  }

  /** UTF8-octets = *( UTF8-char ). */
  ghost predicate WellFormed(s: seq<Byte>) {
    exists cs :: AllChars(cs) && Flatten(cs) == s
  }

  /** p can still be completed to a UTF8-char. */
  ghost predicate ProperPrefixOfChar(p: seq<Byte>) {
    exists c :: IsChar(c) && p < c
  }

  // ----- what one turn of the loop does -----

  const REPLACEMENT: seq<Byte> := [0xEF, 0xBF, 0xBD]

  function Width(first: Byte): nat {
    if first < 0x80 then 1
    else if 0xC2 <= first <= 0xDF then 2
    else if 0xE0 <= first <= 0xEF then 3
    else if 0xF0 <= first <= 0xF4 then 4
    else 0
  }

  /** `(next & 0xc0) != 0x80` of the source, as a statement about the two top bits. */
  predicate NotContinuation(next: Byte) {
    next as int / 64 != 2
  }

  lemma MaskReadsTheTopBits(next: Byte)
    ensures NotContinuation(next) <==> (next as bv8) & 0xC0 != 0x80
  {
  }

  /** The inner test on the byte at position i of a scalar starting with `first`. */
  predicate BadByte(first: Byte, i: nat, next: Byte) {
    NotContinuation(next) ||
    (i == 1 &&
      ( (first == 0xE0 && next < 0xA0) || (first == 0xED && next >= 0xA0)
     || (first == 0xF0 && next < 0x90) || (first == 0xF4 && next >= 0x90)))
  }

  /** No byte of the scalar at the front of s, as far as s reaches, is bad. */
  predicate FrontOk(s: seq<Byte>)
    requires |s| > 0
  {
    forall i :: 1 <= i < Width(s[0]) && i < |s| ==> !BadByte(s[0], i, s[i])
  }

  datatype Front = Replace | Partial | Copy(width: nat)

  function FrontOf(s: seq<Byte>): (r: Front)
    requires |s| > 0
    ensures r.Copy? ==> 1 <= r.width <= |s|
  {
    if Width(s[0]) == 0 || !FrontOk(s) then Replace
    else if Width(s[0]) > |s| then Partial
    else Copy(Width(s[0]))
  }

  /** Bytes consumed and text emitted by one turn on a front that is not partial. */
  function Taken(s: seq<Byte>): (w: nat)
    requires |s| > 0 && !FrontOf(s).Partial?
    ensures 1 <= w <= |s|
  {
    if FrontOf(s).Replace? then 1 else FrontOf(s).width
  }

  function Emitted(s: seq<Byte>): seq<Byte>
    requires |s| > 0 && !FrontOf(s).Partial?
  {
    if FrontOf(s).Replace? then REPLACEMENT else s[..Taken(s)]
  }

  /** Output and carried bytes of a whole append over the buffer s. */
  function Repair(s: seq<Byte>, finish: bool): (r: (seq<Byte>, seq<Byte>))
    decreases |s|
  {
    if s == [] then ([], [])
    else if FrontOf(s).Partial? then (if finish then (REPLACEMENT, []) else ([], s))
    else var r := Repair(s[Taken(s)..], finish); (Emitted(s) + r.0, r.1)
  }

  lemma RepairTurn(s: seq<Byte>, finish: bool)
    requires |s| > 0 && !FrontOf(s).Partial?
    ensures var r := Repair(s[Taken(s)..], finish);
      Repair(s, finish) == (Emitted(s) + r.0, r.1)
  {
  }

  lemma Associative(a: seq<Byte>, b: seq<Byte>, c: seq<Byte>)
    ensures a + (b + c) == (a + b) + c
  {
  }

  // ----- the loop and the grammar agree on one scalar -----

  /** The loop copies exactly the front scalars of the grammar. */
  lemma CopyIsChar(s: seq<Byte>, w: nat)
    requires |s| > 0 && w <= |s|
    ensures FrontOf(s) == Copy(w) <==> IsChar(s[..w])
  {
  }

  /** The loop holds back exactly the nonempty proper prefixes of a scalar. */
  lemma PartialIsProperPrefix(s: seq<Byte>)
    requires |s| > 0
    ensures FrontOf(s) == Partial <==> ProperPrefixOfChar(s)
    ensures FrontOf(s) == Partial ==> |s| <= 3
  {
    if FrontOf(s) == Partial {
      assert |s| >= 2 ==> !BadByte(s[0], 1, s[1]);
      assert |s| >= 3 ==> !BadByte(s[0], 2, s[2]);
      var second: Byte := if s[0] == 0xE0 then 0xA0 else if s[0] == 0xF0 then 0x90 else 0x80;
      var full := if |s| == 1 then [s[0], second, 0x80, 0x80] else if |s| == 2 then s + [0x80, 0x80] else s + [0x80];
      var c := full[..Width(s[0])];
      assert IsChar(c) && s < c;
    } else if ProperPrefixOfChar(s) {
      var c :| IsChar(c) && s < c;
      assert FrontOk(s) by {
        forall i | 1 <= i < Width(s[0]) && i < |s| ensures !BadByte(s[0], i, s[i]) {
          assert s[i] == c[i];
        }
      }
    }
  }

  // ----- well-formedness -----

  lemma ReplacementIsFffd()
    ensures IsChar(REPLACEMENT) && CodePoint(REPLACEMENT) == 0xFFFD
  {
  }

  /** Some front of s is a UTF8-char. */
  ghost predicate StartsWithChar(s: seq<Byte>) {
    exists w :: 0 <= w <= |s| && IsChar(s[..w])
  }

  /** Repair against the grammar: a scalar at the front passes; the front of an unfinished one waits, or becomes U+FFFD
      at the end; of anything else one byte becomes U+FFFD and the rest is looked at again. */
  lemma RepairByGrammar(s: seq<Byte>, finish: bool)
    requires s != []
    ensures forall w :: 0 <= w <= |s| && IsChar(s[..w]) ==>
      var r := Repair(s[w..], finish); Repair(s, finish) == (s[..w] + r.0, r.1)
    ensures ProperPrefixOfChar(s) ==>
      && (!finish ==> Repair(s, finish) == ([], s))
      && (finish ==> var (out, kept) := Repair(s, finish); IsChar(out) && CodePoint(out) == 0xFFFD && kept == [])
    ensures !StartsWithChar(s) && !ProperPrefixOfChar(s) ==>
      exists c :: IsChar(c) && CodePoint(c) == 0xFFFD
                  && var r := Repair(s[1..], finish); Repair(s, finish) == (c + r.0, r.1)
  {
    hide FrontOf, IsChar, Taken, Emitted, CodePoint;
    ReplacementIsFffd();
    PartialIsProperPrefix(s);
    forall w | 0 <= w <= |s| && IsChar(s[..w])
      ensures var r := Repair(s[w..], finish); Repair(s, finish) == (s[..w] + r.0, r.1)
    {
      CharIsCopied(s, w);
    }
    FrontDecides(s);
  }

  lemma CharIsCopied(s: seq<Byte>, w: nat)
    requires s != [] && w <= |s| && IsChar(s[..w])
    ensures FrontOf(s) == Copy(w) && Taken(s) == w && Emitted(s) == s[..w]
  {
  }

  lemma FrontDecides(s: seq<Byte>)
    requires s != []
    ensures FrontOf(s).Copy? ==> StartsWithChar(s)
    ensures FrontOf(s).Replace? ==> Taken(s) == 1 && Emitted(s) == REPLACEMENT
  {
    if FrontOf(s).Copy? {
      assert IsChar(s[..FrontOf(s).width]);
    }
  }

  lemma ConsWellFormed(c: seq<Byte>, s: seq<Byte>)
    requires IsChar(c) && WellFormed(s)
    ensures WellFormed(c + s)
  {
    var cs :| AllChars(cs) && Flatten(cs) == s;
    assert AllChars([c] + cs) && Flatten([c] + cs) == c + s by { assert ([c] + cs)[1..] == cs; }
  }

  lemma WellFormedFront(s: seq<Byte>)
    requires WellFormed(s) && s != []
    ensures FrontOf(s).Copy? && WellFormed(s[FrontOf(s).width..])
  {
    var cs :| AllChars(cs) && Flatten(cs) == s;
    assert cs != [];
    var w := |cs[0]|;
    assert s[..w] == cs[0] && s[w..] == Flatten(cs[1..]);
    CopyIsChar(s, w);
    assert AllChars(cs[1..]);
  }

  lemma {:induction false} EmptyWellFormed()
    ensures WellFormed([])
  {
    assert AllChars([]) && Flatten([]) == [];
  }

  lemma EmittedIsChar(s: seq<Byte>)
    requires |s| > 0 && !FrontOf(s).Partial?
    ensures IsChar(Emitted(s))
  {
  }

  /** Whatever comes in, and finishing or not, only well-formed text goes out. */
  lemma {:induction false} RepairIsWellFormed(s: seq<Byte>, finish: bool)
    ensures WellFormed(Repair(s, finish).0)
    decreases |s|
  {
    EmptyWellFormed();
    if s == [] {
    } else if FrontOf(s).Partial? {
      ConsWellFormed(REPLACEMENT, []);
      assert REPLACEMENT + [] == REPLACEMENT;
    } else {
      EmittedIsChar(s);
      RepairIsWellFormed(s[Taken(s)..], finish);
      ConsWellFormed(Emitted(s), Repair(s[Taken(s)..], finish).0);
    }
  }

  /** Well-formed text passes unchanged and nothing is carried over, finishing or not. */
  lemma {:induction false} WellFormedUnchanged(s: seq<Byte>, finish: bool)
    requires WellFormed(s)
    ensures Repair(s, finish) == (s, [])
    decreases |s|
  {
    if s != [] {
      WellFormedFront(s);
      var w := FrontOf(s).width;
      WellFormedUnchanged(s[w..], finish);
      assert s[..w] + s[w..] == s;
    }
  }

  lemma ValidIffWellFormed(s: seq<Byte>)
    ensures Repair(s, true).0 == s <==> WellFormed(s)
  {
    RepairIsWellFormed(s, true);
    if WellFormed(s) {
      WellFormedUnchanged(s, true);
    }
  }

  lemma RepairIsIdempotent(s: seq<Byte>)
    ensures Repair(Repair(s, true).0, true) == (Repair(s, true).0, [])
  {
    RepairIsWellFormed(s, true);
    WellFormedUnchanged(Repair(s, true).0, true);
  }

  // ----- chunk independence -----

  /** What is carried is empty or a proper prefix of a scalar, so at most three bytes; finishing carries nothing. */
  lemma {:induction false} CarriedIsProperPrefix(s: seq<Byte>, finish: bool)
    ensures var rest := Repair(s, finish).1;
      && |rest| <= |s| && rest == s[|s| - |rest|..] && |rest| <= 3
      && (rest == [] || (!finish && ProperPrefixOfChar(rest)))
    decreases |s|
  {
    if s == [] {
    } else if FrontOf(s).Partial? {
      PartialIsProperPrefix(s);
    } else {
      CarriedIsProperPrefix(s[Taken(s)..], finish);
    }
  }

  /** A front that is decided stays decided when more bytes arrive. */
  lemma DecidedFrontStays(s: seq<Byte>, t: seq<Byte>)
    requires |s| > 0 && !FrontOf(s).Partial?
    ensures FrontOf(s + t) == FrontOf(s)
  {
    if Width(s[0]) != 0 {
      if !FrontOk(s) {
        var i :| 1 <= i < Width(s[0]) && i < |s| && BadByte(s[0], i, s[i]);
        assert BadByte((s + t)[0], i, (s + t)[i]);
      } else {
        assert FrontOk(s + t);
      }
    }
  }

  /** Two appends do what one append of both chunks does. */
  lemma {:induction false} SplitAnywhere(s: seq<Byte>, t: seq<Byte>, finish: bool)
    ensures var first := Repair(s, false); var second := Repair(first.1 + t, finish);
      Repair(s + t, finish) == (first.0 + second.0, second.1)
    decreases |s|
  {
    if s == [] {
      assert s + t == t && [] + t == t;
      assert [] + Repair(t, finish).0 == Repair(t, finish).0;
    } else if FrontOf(s).Partial? {
      assert [] + Repair(s + t, finish).0 == Repair(s + t, finish).0;
    } else {
      SplitTurn(s, t, finish);
      SplitAnywhere(s[Taken(s)..], t, finish);
      var first := Repair(s[Taken(s)..], false);
      Associative(Emitted(s), first.0, Repair(first.1 + t, finish).0);
    }
  }

  /** A turn decided within the first chunk happens alike with and without the second. */
  lemma SplitTurn(s: seq<Byte>, t: seq<Byte>, finish: bool)
    requires |s| > 0 && !FrontOf(s).Partial?
    ensures var first := Repair(s[Taken(s)..], false); var both := Repair(s[Taken(s)..] + t, finish);
      && Repair(s, false) == (Emitted(s) + first.0, first.1)
      && Repair(s + t, finish) == (Emitted(s) + both.0, both.1)
  {
    hide Repair;
    DecidedFrontStays(s, t);
    assert (s + t)[Taken(s)..] == s[Taken(s)..] + t && (s + t)[..Taken(s)] == s[..Taken(s)];
    RepairTurn(s, false);
    RepairTurn(s + t, finish);
  }

  function Concat(chunks: seq<seq<Byte>>): seq<Byte> {
    if chunks == [] then [] else chunks[0] + Concat(chunks[1..])
  }

  /** Outputs of successive appends, starting from `pending`, with finish on the last only. */
  function Outputs(pending: seq<Byte>, chunks: seq<seq<Byte>>): seq<Byte>
    requires chunks != []
    decreases |chunks|
  {
    if |chunks| == 1 then Repair(pending + chunks[0], true).0
    else var r := Repair(pending + chunks[0], false); r.0 + Outputs(r.1, chunks[1..])
  }

  /** However the bytes are cut into chunks, the output is that of one finishing append of the whole. */
  lemma {:induction false} ChunkIndependence(pending: seq<Byte>, chunks: seq<seq<Byte>>)
    requires chunks != []
    ensures Outputs(pending, chunks) == Repair(pending + Concat(chunks), true).0
    decreases |chunks|
  {
    var s := pending + chunks[0];
    if |chunks| == 1 {
      assert Concat(chunks) == chunks[0] by { assert chunks[1..] == [] && chunks[0] + [] == chunks[0]; }
    } else {
      var rest := Concat(chunks[1..]);
      var first := Repair(s, false);
      assert s + rest == pending + Concat(chunks);
      SplitAnywhere(s, rest, true);
      ChunkIndependence(first.1, chunks[1..]);
      assert Outputs(pending, chunks) == first.0 + Outputs(first.1, chunks[1..]);
    }
  }

  // ----- damage stays local -----

  /** Text that is well-formed from some point on comes out intact from that point on, whatever precedes it. */
  lemma {:induction false} DamageStaysLocal(x: seq<Byte>, w: seq<Byte>) returns (y: seq<Byte>)
    requires WellFormed(w) && w != []
    ensures WellFormed(y) && Repair(x + w, true).0 == y + w
    decreases |x|
  {
    hide Repair;
    if x == [] {
      EmptyWellFormed();
      assert x + w == w && [] + w == w;
      WellFormedUnchanged(w, true);
      y := [];
    } else {
      FrontStopsBefore(x, w);
      var s := x + w;
      assert s[Taken(s)..] == x[Taken(s)..] + w;
      var z := DamageStaysLocal(x[Taken(s)..], w);
      EmittedIsChar(s);
      ConsWellFormed(Emitted(s), z);
      y := Emitted(s) + z;
      RepairTurn(s, true);
      Associative(Emitted(s), z, w);
    }
  }

  /** A scalar starting in x never reaches into well-formed text behind it: that text starts with no
      continuation byte. */
  lemma FrontStopsBefore(x: seq<Byte>, w: seq<Byte>)
    requires WellFormed(w) && w != [] && x != []
    ensures !FrontOf(x + w).Partial? && Taken(x + w) <= |x|
  {
    WellFormedFront(w);
    var s := x + w;
    if Width(s[0]) > |x| && FrontOk(s) {
      assert s[|x|] == w[0];
      assert NotContinuation(w[0]);
      assert BadByte(s[0], |x|, s[|x|]);
    }
  }

  /** After the first `offset` bytes of `all`, `result` has been emitted. */
  ghost predicate Emitting(all: seq<Byte>, finish: bool, offset: nat, result: seq<Byte>)
    requires offset <= |all|
  {
    Repair(all, finish) == (result + Repair(all[offset..], finish).0, Repair(all[offset..], finish).1)
  }

  lemma EmittingStarts(all: seq<Byte>, finish: bool)
    ensures Emitting(all, finish, 0, [])
  {
    assert all[0..] == all && [] + Repair(all, finish).0 == Repair(all, finish).0;
  }

  /** One turn of the loop moves the front scalar from the buffer to the output. */
  lemma Turn(all: seq<Byte>, finish: bool, offset: nat, result: seq<Byte>, w: nat, piece: seq<Byte>)
    requires offset < |all| && Emitting(all, finish, offset, result)
    requires offset + w <= |all|
    requires
      || (FrontOf(all[offset..]).Replace? && w == 1 && piece == REPLACEMENT)
      || (FrontOf(all[offset..]) == Copy(w) && piece == all[offset..offset + w])
    ensures Emitting(all, finish, offset + w, result + piece)
  {
    hide Repair;
    var rest := all[offset..];
    assert rest[w..] == all[offset + w..] && rest[..w] == all[offset..offset + w];
    RepairTurn(rest, finish);
    Associative(result, piece, Repair(all[offset + w..], finish).0);
  }

  /** The loop ends at the end of the buffer or at a partial scalar. */
  lemma EmittingEnds(all: seq<Byte>, finish: bool, offset: nat, result: seq<Byte>)
    requires offset <= |all| && Emitting(all, finish, offset, result)
    ensures offset == |all| ==> Repair(all, finish) == (result, [])
    ensures offset < |all| && FrontOf(all[offset..]).Partial? ==>
      Repair(all, finish) == if finish then (result + REPLACEMENT, []) else (result, all[offset..])
  {
    assert result + [] == result && all[|all|..] == [];
  }

  class Stream {
    var pending: seq<Byte>

    constructor ()
      ensures pending == []
    {
      pending := [];
    }

    /** The inner loop: no byte of the scalar at `offset`, as far as it has arrived, is bad. */
    static method ScanFront(buffer: seq<Byte>, offset: nat) returns (valid: bool)
      requires offset < |buffer|
      ensures valid <==> FrontOk(buffer[offset..])
    {
      var first := buffer[offset];
      ghost var rest := buffer[offset..];
      valid := true;
      var i := 1;
      while i < Width(first) && offset + i < |buffer|
        invariant 1 <= i <= Max(1, Width(first)) && offset + i <= |buffer|
        invariant valid <==> forall j :: 1 <= j < i ==> !BadByte(first, j, rest[j])
      {
        var next := buffer[offset + i];
        assert next == rest[i];
        if BadByte(first, i, next) {
          valid := false;
        }
        i := i + 1;
      }
    }

    method Append(bytes: seq<Byte>, finish: bool) returns (result: seq<Byte>)
      modifies this
      ensures (result, pending) == Repair(old(pending) + bytes, finish)
    {
      hide Repair;
      pending := pending + bytes;
      ghost var all := pending;
      result := [];
      var offset := 0;
      EmittingStarts(all, finish);
      while offset < |pending|
        invariant pending == all && 0 <= offset <= |all|
        invariant Emitting(all, finish, offset, result)
      {
        var width := Width(pending[offset]);
        if width == 0 {
          Turn(all, finish, offset, result, 1, REPLACEMENT);
          result := result + REPLACEMENT;
          offset := offset + 1;
          continue;
        }
        var valid := ScanFront(pending, offset);
        if !valid {
          Turn(all, finish, offset, result, 1, REPLACEMENT);
          result := result + REPLACEMENT;
          offset := offset + 1;
          continue;
        }
        if offset + width > |pending| {
          EmittingEnds(all, finish, offset, result);
          if finish {
            result := result + REPLACEMENT;
            offset := |pending|;
            assert pending[offset..] == [];
          }
          pending := pending[offset..];
          return;
        }
        var scalar := pending[offset..offset + width];
        Turn(all, finish, offset, result, width, scalar);
        result := result + scalar;
        offset := offset + width;
      }
      EmittingEnds(all, finish, offset, result);
      pending := pending[offset..];
    }

    static method Valid(bytes: seq<Byte>) returns (ok: bool)
      ensures ok <==> WellFormed(bytes)
    {
      var stream := new Stream();
      var out := stream.Append(bytes, true);
      assert [] + bytes == bytes;
      ValidIffWellFormed(bytes);
      ok := out == bytes;
    }
  }
}
