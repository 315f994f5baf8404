/**
  * `canonicalize` of evals/src/progress-fingerprint.ts: JSON text with sorted object keys, as the
  * fingerprint of tool-call arguments. Leaf strings are quoted as section 7 of RFC 8259 and
  * JSON.stringify prescribe. Text is a sequence of UTF-16 code units.
  */
module Canonical {
  import opened Common

  type Unit = u: int | 0 <= u < 0x1_0000
  type Text = seq<Unit>

  datatype Entry<T> = Entry(key: Text, value: T)

  /** A value parsed from JSON. A number is its shortest decimal text, or infinite where the text overflowed, as 1e400
      does; an object lists its entries in insertion order. */
  datatype Value =
    | Null | True | False
    | Num(text: Text)
    | Infinite(negative: bool)
    | Str(s: Text)
    | Arr(items: seq<Value>)
    | Obj(entries: seq<Entry<Value>>)

  const QUOTE: Unit := 34
  const COMMA: Unit := 44
  const COLON: Unit := 58
  const SLASH: Unit := 47
  const LBRACKET: Unit := 91
  const BACKSLASH: Unit := 92
  const RBRACKET: Unit := 93
  const LOWER_U: Unit := 117
  const LBRACE: Unit := 123
  const RBRACE: Unit := 125
  const NULL: Text := [110, 117, 108, 108]
  const TRUE: Text := [116, 114, 117, 101]
  const FALSE: Text := [102, 97, 108, 115, 101]

  /** Digits, sign, point and exponent mark. */
  predicate IsNumberUnit(u: Unit) {
    48 <= u <= 57 || u == 43 || u == 45 || u == 46 || u == 69 || u == 101
  }

  predicate IsNumber(t: Text) {
    t != [] && forall i :: 0 <= i < |t| ==> IsNumberUnit(t[i])
  }

  predicate DistinctKeys<T>(es: seq<Entry<T>>) {
    forall i, j :: 0 <= i < j < |es| ==> es[i].key != es[j].key
  }

  /** What a JavaScript value parsed from JSON can be. */
  predicate Parsed(v: Value) {
    match v
    case Num(t) => IsNumber(t)
    case Arr(items) => forall i :: 0 <= i < |items| ==> Parsed(items[i])
    case Obj(entries) => DistinctKeys(entries) && forall i :: 0 <= i < |entries| ==> Parsed(entries[i].value)
    case _ => true
  }

  /** What JSON text can hold: the same without infinite numbers. */
  predicate WellFormed(v: Value) {
    match v
    case Num(t) => IsNumber(t)
    case Infinite(_) => false
    case Arr(items) => forall i :: 0 <= i < |items| ==> WellFormed(items[i])
    case Obj(entries) => DistinctKeys(entries) && forall i :: 0 <= i < |entries| ==> WellFormed(entries[i].value)
    case _ => true
  }

  // ----- quoting -----

  predicate IsHigh(u: Unit) {
    0xD800 <= u <= 0xDBFF
  }

  predicate IsLow(u: Unit) {
    0xDC00 <= u <= 0xDFFF
  }

  function HexDigit(d: int): Unit
    requires 0 <= d < 16
  {
    if d < 10 then 48 + d else 87 + d
  }

  function HexValue(u: Unit): (d: int)
    ensures -1 <= d < 16
  {
    if 48 <= u <= 57 then u - 48
    else if 97 <= u <= 102 then u - 87
    else if 65 <= u <= 70 then u - 55
    else -1
  }

  function Escaped(u: Unit): Text {
    if u == 8 then [BACKSLASH, 98]
    else if u == 9 then [BACKSLASH, 116]
    else if u == 10 then [BACKSLASH, 110]
    else if u == 12 then [BACKSLASH, 102]
    else if u == 13 then [BACKSLASH, 114]
    else if u == QUOTE || u == BACKSLASH then [BACKSLASH, u]
    else if u < 32 || IsHigh(u) || IsLow(u) then
      [BACKSLASH, LOWER_U, HexDigit(u / 4096), HexDigit(u / 256 % 16), HexDigit(u / 16 % 16), HexDigit(u % 16)]
    else [u]
  }

  /** The body of a quoted string: surrogate pairs pass, lone surrogates are escaped. */
  function Escape(s: Text): Text {
    if s == [] then []
    else if |s| >= 2 && IsHigh(s[0]) && IsLow(s[1]) then s[..2] + Escape(s[2..])
    else Escaped(s[0]) + Escape(s[1..])
  }

  function Quote(s: Text): Text {
    [QUOTE] + Escape(s) + [QUOTE]
  }

  // ----- sorting by key -----

  /** Order of code units, as Array.prototype.sort compares strings. */
  predicate Less(a: Text, b: Text) {
    if b == [] then false
    else if a == [] then true
    else a[0] < b[0] || (a[0] == b[0] && Less(a[1..], b[1..]))
  }

  function Insert<T>(e: Entry<T>, es: seq<Entry<T>>): seq<Entry<T>> {
    if es == [] || !Less(es[0].key, e.key) then [e] + es else [es[0]] + Insert(e, es[1..])
  }

  function Sort<T>(es: seq<Entry<T>>): seq<Entry<T>> {
    if es == [] then [] else Insert(es[0], Sort(es[1..]))
  }

  // ----- the printer -----

  function Join(ts: seq<Text>): Text {
    if ts == [] then [] else if |ts| == 1 then ts[0] else ts[0] + [COMMA] + Join(ts[1..])
  }

  function Fields(es: seq<Entry<Text>>): seq<Text> {
    if es == [] then [] else [Quote(es[0].key) + [COLON] + es[0].value] + Fields(es[1..])
  }

  function Canonicalize(v: Value): Text {
    match v
    case Null => NULL
    case True => TRUE
    case False => FALSE
    case Num(t) => t
    case Infinite(_) => NULL
    case Str(s) => Quote(s)
    case Arr(items) => [LBRACKET] + Join(CanonicalizeAll(items)) + [RBRACKET]
    case Obj(entries) => [LBRACE] + Join(Fields(Sort(CanonicalizeEntries(entries)))) + [RBRACE]
  }

  function CanonicalizeAll(vs: seq<Value>): seq<Text> {
    if vs == [] then [] else [Canonicalize(vs[0])] + CanonicalizeAll(vs[1..])
  }

  function CanonicalizeEntries(es: seq<Entry<Value>>): seq<Entry<Text>> {
    if es == [] then [] else [Entry(es[0].key, Canonicalize(es[0].value))] + CanonicalizeEntries(es[1..])
  }

  // ----- the parser -----

  /** One unit of a quoted string, escaped or raw. */
  function Unescaped(s: Text): (r: Option<(Unit, Text)>)
    ensures r.Some? ==> |r.value.1| < |s|
  {
    if s == [] then None
    else if s[0] != BACKSLASH then Some((s[0], s[1..]))
    else if |s| < 2 then None
    else if s[1] == 98 then Some((8, s[2..]))
    else if s[1] == 116 then Some((9, s[2..]))
    else if s[1] == 110 then Some((10, s[2..]))
    else if s[1] == 102 then Some((12, s[2..]))
    else if s[1] == 114 then Some((13, s[2..]))
    else if s[1] == QUOTE || s[1] == BACKSLASH || s[1] == SLASH then Some((s[1], s[2..]))
    else if s[1] == LOWER_U && |s| >= 6 && HexValue(s[2]) >= 0 && HexValue(s[3]) >= 0
            && HexValue(s[4]) >= 0 && HexValue(s[5]) >= 0 then
      Some((HexValue(s[2]) * 4096 + HexValue(s[3]) * 256 + HexValue(s[4]) * 16 + HexValue(s[5]), s[6..]))
    else None
  }

  /** A string body up to and including its closing quote. */
  function ParseBody(s: Text): (r: Option<(Text, Text)>)
    ensures r.Some? ==> |r.value.1| < |s|
    decreases |s|
  {
    if s == [] then None
    else if s[0] == QUOTE then Some(([], s[1..]))
    else match Unescaped(s)
      case None => None
      case Some((u, rest)) =>
        match ParseBody(rest)
        case None => None
        case Some((body, after)) => Some(([u] + body, after))
  }

  function NumberPrefix(s: Text): (n: nat)
    ensures n <= |s|
  {
    if s == [] || !IsNumberUnit(s[0]) then 0 else 1 + NumberPrefix(s[1..])
  }

  function ParseWord(s: Text, word: Text, v: Value): (r: Option<(Value, Text)>)
    requires word != []
    ensures r.Some? ==> |r.value.1| < |s|
  {
    if word <= s then Some((v, s[|word|..])) else None
  }

  function Parse(s: Text): (r: Option<(Value, Text)>)
    ensures r.Some? ==> |r.value.1| < |s|
    decreases |s|, 0
  {
    if s == [] then None
    else if s[0] == NULL[0] then ParseWord(s, NULL, Null)
    else if s[0] == TRUE[0] then ParseWord(s, TRUE, True)
    else if s[0] == FALSE[0] then ParseWord(s, FALSE, False)
    else if s[0] == QUOTE then
      match ParseBody(s[1..])
      case None => None
      case Some((body, rest)) => Some((Str(body), rest))
    else if s[0] == LBRACKET then
      if |s| >= 2 && s[1] == RBRACKET then Some((Arr([]), s[2..]))
      else match ParseItems(s[1..])
        case None => None
        case Some((items, rest)) => Some((Arr(items), rest))
    else if s[0] == LBRACE then
      if |s| >= 2 && s[1] == RBRACE then Some((Obj([]), s[2..]))
      else match ParseEntries(s[1..])
        case None => None
        case Some((entries, rest)) => Some((Obj(entries), rest))
    else
      var n := NumberPrefix(s);
      if n == 0 then None else Some((Num(s[..n]), s[n..]))
  }

  /** One or more items, separated by commas, and the closing bracket. */
  function ParseItems(s: Text): (r: Option<(seq<Value>, Text)>)
    ensures r.Some? ==> |r.value.1| < |s|
    decreases |s|, 1
  {
    match Parse(s)
    case None => None
    case Some((v, rest)) =>
      if rest == [] then None
      else if rest[0] == RBRACKET then Some(([v], rest[1..]))
      else if rest[0] != COMMA then None
      else match ParseItems(rest[1..])
        case None => None
        case Some((vs, after)) => Some(([v] + vs, after))
  }

  /** One or more fields, separated by commas, and the closing brace. */
  function ParseEntries(s: Text): (r: Option<(seq<Entry<Value>>, Text)>)
    ensures r.Some? ==> |r.value.1| < |s|
    decreases |s|, 1
  {
    if s == [] || s[0] != QUOTE then None
    else match ParseBody(s[1..])
      case None => None
      case Some((key, more)) =>
        if more == [] || more[0] != COLON then None
        else match Parse(more[1..])
          case None => None
          case Some((v, rest)) =>
            if rest == [] then None
            else if rest[0] == RBRACE then Some(([Entry(key, v)], rest[1..]))
            else if rest[0] != COMMA then None
            else match ParseEntries(rest[1..])
              case None => None
              case Some((es, after)) => Some(([Entry(key, v)] + es, after))
  }

  // ----- quoting is undone -----

  lemma HexDigitRead(d: int)
    requires 0 <= d < 16
    ensures HexValue(HexDigit(d)) == d
  {
  }

  /** Exactly the digits of the grammar have a value, the same in either case. */
  lemma HexValueIffDigit(u: Unit)
    ensures HexValue(u) >= 0 <==> IsHexDigit(u)
    ensures 65 <= u <= 70 ==> HexValue(u) == HexValue(u + 32)
  {
  }

  lemma HexRoundTrip(u: Unit)
    ensures HexValue(HexDigit(u / 4096)) == u / 4096 && HexValue(HexDigit(u / 256 % 16)) == u / 256 % 16
    ensures HexValue(HexDigit(u / 16 % 16)) == u / 16 % 16 && HexValue(HexDigit(u % 16)) == u % 16
    ensures u / 4096 * 4096 + u / 256 % 16 * 256 + u / 16 % 16 * 16 + u % 16 == u
  {
    hide HexValue, HexDigit;
    HexDigitRead(u / 4096);
    HexDigitRead(u / 256 % 16);
    HexDigitRead(u / 16 % 16);
    HexDigitRead(u % 16);
    assert u / 16 / 16 == u / 256 && u / 256 / 16 == u / 4096;
  }

  lemma UnescapedUndoes(u: Unit, rest: Text)
    ensures Unescaped(Escaped(u) + rest) == Some((u, rest))
    ensures Escaped(u)[0] != QUOTE
  {
    HexRoundTrip(u);
    var e := Escaped(u);
    var s := e + rest;
    assert s[|e|..] == rest;
    assert forall i :: 0 <= i < |e| ==> s[i] == e[i];
  }

  /** One unit followed by a body that parses. */
  lemma BodyStep(s: Text, u: Unit, rest: Text, body: Text, after: Text)
    requires s != [] && s[0] != QUOTE && Unescaped(s) == Some((u, rest)) && ParseBody(rest) == Some((body, after))
    ensures ParseBody(s) == Some(([u] + body, after))
  {
  }

  lemma RawUnit(u: Unit, rest: Text, body: Text, after: Text)
    requires u != QUOTE && u != BACKSLASH && ParseBody(rest) == Some((body, after))
    ensures ParseBody([u] + rest) == Some(([u] + body, after))
  {
  }

  lemma EscapeTurns(s: Text)
    requires s != []
    ensures |s| >= 2 && IsHigh(s[0]) && IsLow(s[1]) ==> Escape(s) == [s[0]] + ([s[1]] + Escape(s[2..]))
    ensures !(|s| >= 2 && IsHigh(s[0]) && IsLow(s[1])) ==> Escape(s) == Escaped(s[0]) + Escape(s[1..])
  {
  }

  lemma Regroup(a: Text, b: Text, rest: Text)
    ensures (a + b) + [QUOTE] + rest == a + (b + [QUOTE] + rest)
  {
  }

  lemma {:induction false} BodyUndoesEscape(s: Text, rest: Text)
    ensures ParseBody(Escape(s) + [QUOTE] + rest) == Some((s, rest))
    decreases |s|
  {
    if s == [] {
      assert (Escape(s) + [QUOTE] + rest)[1..] == rest;
    } else {
      hide ParseBody, Escape, Escaped, Unescaped;
      EscapeTurns(s);
      if |s| >= 2 && IsHigh(s[0]) && IsLow(s[1]) {
        BodyUndoesEscape(s[2..], rest);
        var tail := Escape(s[2..]) + [QUOTE] + rest;
        Regroup([s[1]], Escape(s[2..]), rest);
        Regroup([s[0]], [s[1]] + Escape(s[2..]), rest);
        RawUnit(s[1], tail, s[2..], rest);
        RawUnit(s[0], [s[1]] + tail, [s[1]] + s[2..], rest);
        assert [s[0]] + ([s[1]] + s[2..]) == s;
      } else {
        BodyUndoesEscape(s[1..], rest);
        var tail := Escape(s[1..]) + [QUOTE] + rest;
        Regroup(Escaped(s[0]), Escape(s[1..]), rest);
        UnescapedUndoes(s[0], tail);
        BodyStep(Escaped(s[0]) + tail, s[0], tail, s[1..], rest);
        assert [s[0]] + s[1..] == s;
      }
    }
  }

  // ----- the quoted text is a string of section 7 of RFC 8259 -----

  /** HEXDIG, either case. */
  predicate IsHexDigit(u: Unit) {
    48 <= u <= 57 || 65 <= u <= 70 || 97 <= u <= 102
  }

  /** The letters that may follow a backslash: quotation mark, backslash, slash, b, f, n, r, t. */
  const ESCAPE_LETTERS: set<Unit> := {QUOTE, BACKSLASH, SLASH, 98, 102, 110, 114, 116}

  /** `char` of the grammar, in UTF-16: an unescaped scalar, a two-character escape, or a backslash, u and four
      hex digits. */
  predicate IsStringChar(c: Text) {
    || (|c| == 1 && c[0] >= 32 && c[0] != QUOTE && c[0] != BACKSLASH && !IsHigh(c[0]) && !IsLow(c[0]))
    || (|c| == 2 && IsHigh(c[0]) && IsLow(c[1]))
    || (|c| == 2 && c[0] == BACKSLASH && c[1] in ESCAPE_LETTERS)
    || (|c| == 6 && c[0] == BACKSLASH && c[1] == LOWER_U && forall i :: 2 <= i < 6 ==> IsHexDigit(c[i]))
  }

  function Flatten(cs: seq<Text>): Text {
    if cs == [] then [] else cs[0] + Flatten(cs[1..])
  }

  ghost predicate AllStringChars(cs: seq<Text>) {
    forall i :: 0 <= i < |cs| ==> IsStringChar(cs[i])
  }

  /** What may stand between the quotation marks: *char. */
  ghost predicate IsBody(t: Text) {
    exists cs :: AllStringChars(cs) && Flatten(cs) == t
  }

  lemma EscapedIsChar(u: Unit)
    ensures IsStringChar(Escaped(u))
  {
  }

  lemma {:induction false} EscapeIsBody(s: Text)
    ensures IsBody(Escape(s))
    decreases |s|
  {
    if s == [] {
      assert AllStringChars([]) && Flatten([]) == Escape(s);
    } else {
      hide Escaped, IsStringChar;
      var n := if |s| >= 2 && IsHigh(s[0]) && IsLow(s[1]) then 2 else 1;
      EscapeIsBody(s[n..]);
      var cs :| AllStringChars(cs) && Flatten(cs) == Escape(s[n..]);
      var first := if n == 2 then s[..2] else Escaped(s[0]);
      assert IsStringChar(first) by {
        EscapedIsChar(s[0]);
        PairIsChar(s);
      }
      assert AllStringChars([first] + cs) && Flatten([first] + cs) == first + Flatten(cs);
    }
  }

  lemma PairIsChar(s: Text)
    ensures |s| >= 2 && IsHigh(s[0]) && IsLow(s[1]) ==> IsStringChar(s[..2])
  {
  }

  /** How long a single unit is written: a letter escape for five controls, quotation mark and backslash, four hex
      digits for the other controls and lone surrogates, and itself otherwise; a surrogate pair stays as it is. */
  lemma OneUnit(u: Unit)
    ensures |Escape([u])| == if u == 8 || u == 9 || u == 10 || u == 12 || u == 13 || u == 34 || u == 92 then 2
                             else if u < 32 || 0xD800 <= u < 0xE000 then 6 else 1
  {
    assert [u][1..] == [] && Escape([u]) == Escaped(u) + [];
  }

  lemma TwoUnits(a: Unit, b: Unit)
    ensures Escape([a, b]) == if 0xD800 <= a < 0xDC00 && 0xDC00 <= b < 0xE000 then [a, b] else Escape([a]) + Escape([b])
  {
    hide Escaped;
    assert [a, b][2..] == [] && [a, b][1..] == [b] && [a][1..] == [] && [a, b][..2] == [a, b];
    EscapeNothing();
    EscapeTurns([a, b]);
    EscapeTurns([a]);
  }

  /** The units of a text of ASCII characters. */
  function Units(s: string): (t: Text)
    ensures |t| == |s|
  {
    seq(|s|, i requires 0 <= i < |s| => (s[i] as int % 0x1_0000) as Unit)
  }

  lemma Alone(u: Unit)
    ensures Escape([u]) == Escaped(u)
  {
    hide Escaped;
    assert [u][1..] == [];
    EscapeNothing();
    EscapeTurns([u]);
  }

  /** The escapes, spelled out. */
  lemma EscapesSpelledOut()
    ensures Escape([8]) == Units("\\b") && Escape([9]) == Units("\\t") && Escape([10]) == Units("\\n")
    ensures Escape([12]) == Units("\\f") && Escape([13]) == Units("\\r")
    ensures Escape([34]) == Units("\\\"") && Escape([92]) == Units("\\\\")
    ensures Escape([0x1F]) == Units("\\u001f") && Escape([0xDABC]) == Units("\\udabc")
  {
    hide Escape;
    forall u: Unit ensures Escape([u]) == Escaped(u) {
      Alone(u);
    }
  }

  // ----- and the shortest of its readings: what JSON.stringify writes -----

  /** The units a character of the grammar stands for. */
  function Decode(c: Text): Text
    requires IsStringChar(c)
  {
    if |c| == 1 || (|c| == 2 && c[0] != BACKSLASH) then c
    else match Unescaped(c)
      case Some((u, _)) => [u]
      case None => []
  }

  function DecodeAll(cs: seq<Text>): Text
    requires AllStringChars(cs)
  {
    if cs == [] then [] else Decode(cs[0]) + DecodeAll(cs[1..])
  }

  lemma EscapeReads(c: Text, rest: Text)
    requires IsStringChar(c) && c[0] == BACKSLASH
    ensures |Decode(c)| == 1 && Unescaped(c + rest) == Some((Decode(c)[0], rest))
  {
    var s := c + rest;
    assert s[|c|..] == rest && forall i :: 0 <= i < |c| ==> s[i] == c[i];
    assert c[|c|..] == [];
  }

  /** The parser reads one character of the grammar as what it stands for. */
  lemma CharReads(c: Text, rest: Text, body: Text, after: Text)
    requires IsStringChar(c) && ParseBody(rest) == Some((body, after))
    ensures ParseBody(c + rest) == Some((Decode(c) + body, after))
  {
    hide ParseBody, Unescaped;
    if c[0] == BACKSLASH {
      EscapeReads(c, rest);
      BodyStep(c + rest, Decode(c)[0], rest, body, after);
    } else if |c| == 1 {
      RawUnit(c[0], rest, body, after);
      assert c + rest == [c[0]] + rest && Decode(c) == [c[0]];
    } else {
      RawUnit(c[1], rest, body, after);
      RawUnit(c[0], [c[1]] + rest, [c[1]] + body, after);
      assert c + rest == [c[0]] + ([c[1]] + rest) && Decode(c) + body == [c[0]] + ([c[1]] + body);
    }
  }

  lemma {:induction false} BodyReads(cs: seq<Text>)
    requires AllStringChars(cs)
    ensures ParseBody(Flatten(cs) + [QUOTE]) == Some((DecodeAll(cs), []))
    decreases |cs|
  {
    if cs == [] {
      assert ([] + [QUOTE])[1..] == [];
    } else {
      hide ParseBody, IsStringChar, Decode;
      BodyReads(cs[1..]);
      CharReads(cs[0], Flatten(cs[1..]) + [QUOTE], DecodeAll(cs[1..]), []);
      assert Flatten(cs) + [QUOTE] == cs[0] + (Flatten(cs[1..]) + [QUOTE]);
    }
  }

  /** A character written with lower-case digits, if any. */
  predicate IsLower(c: Text) {
    |c| == 6 ==> forall i :: 2 <= i < 6 ==> !(65 <= c[i] <= 70)
  }

  /** No character that stands for one unit is shorter than its escape, and none as short is another. */
  lemma EscapedIsShortest(c: Text)
    requires IsStringChar(c) && |Decode(c)| == 1
    ensures var u := Decode(c)[0]; |Escaped(u)| <= |c| && (|Escaped(u)| == |c| && IsLower(c) ==> c == Escaped(u))
  {
    if |c| == 6 {
      EscapedHex(c);
    }
  }

  lemma EscapedHex(c: Text)
    requires IsStringChar(c) && |c| == 6
    ensures var u := Decode(c)[0]; |Escaped(u)| == 6 && IsLower(c) ==> c == Escaped(u)
  {
    if IsLower(c) {
      HexBack(HexValue(c[2]), HexValue(c[3]), HexValue(c[4]), HexValue(c[5]));
      forall i | 2 <= i < 6 ensures HexDigit(HexValue(c[i])) == c[i] {}
    }
  }

  lemma HexBack(a: int, b: int, c: int, d: int)
    requires 0 <= a < 16 && 0 <= b < 16 && 0 <= c < 16 && 0 <= d < 16
    ensures var u := a * 4096 + b * 256 + c * 16 + d;
      u / 4096 == a && u / 256 % 16 == b && u / 16 % 16 == c && u % 16 == d
  {
    assert (a * 4096 + b * 256 + c * 16 + d) / 16 == a * 256 + b * 16 + c;
    assert (a * 4096 + b * 256 + c * 16 + d) / 256 == a * 16 + b;
  }

  predicate AllLower(cs: seq<Text>) {
    forall i :: 0 <= i < |cs| ==> IsLower(cs[i])
  }

  /** What a character of the grammar can stand for: one unit, or a pair that it writes raw. */
  lemma DecodeShape(c: Text)
    requires IsStringChar(c)
    ensures |Decode(c)| == 1 || (c == Decode(c) && |c| == 2 && IsHigh(c[0]) && IsLow(c[1]))
    ensures |Decode(c)| == 1 && (IsHigh(Decode(c)[0]) || IsLow(Decode(c)[0])) ==> |c| == 6
  {
    if c[0] == BACKSLASH {
      EscapeReads(c, []);
    }
  }

  /** Every body that reads as s is at least as long as the quoted text, and the quoted text is the only one as short
      that writes its hex digits in lower case. */
  lemma {:induction false} EscapeIsShortest(s: Text, cs: seq<Text>)
    requires AllStringChars(cs) && DecodeAll(cs) == s
    ensures |Escape(s)| <= |Flatten(cs)|
    ensures |Escape(s)| == |Flatten(cs)| && AllLower(cs) ==> Flatten(cs) == Escape(s)
    decreases |cs|
  {
    hide Decode, IsStringChar, Escaped, Escape, IsLower;
    if cs == [] {
      EscapeNothing();
    } else {
      var c, rest := cs[0], cs[1..];
      DecodeShape(c);
      assert Flatten(cs) == c + Flatten(rest);
      EscapeTurns(s);
      if |Decode(c)| == 2 {
        assert s[2..] == DecodeAll(rest) && s[..2] == c;
        EscapeIsShortest(s[2..], rest);
      } else if |s| >= 2 && IsHigh(s[0]) && IsLow(s[1]) {
        var d, more := rest[0], rest[1..];
        SecondHalf(s, cs);
        DecodeShape(d);
        assert Flatten(rest) == d + Flatten(more) && s[2..] == DecodeAll(more);
        EscapeIsShortest(s[2..], more);
      } else {
        assert s[1..] == DecodeAll(rest) && Decode(c) == [s[0]];
        EscapeIsShortest(s[1..], rest);
        EscapedIsShortest(c);
      }
    }
  }

  lemma EscapeNothing()
    ensures Escape([]) == []
  {
  }

  /** A pair that the first character covers only half of: the other half is a character of its own. */
  lemma SecondHalf(s: Text, cs: seq<Text>)
    requires AllStringChars(cs) && DecodeAll(cs) == s && cs != [] && |Decode(cs[0])| == 1
    requires |s| >= 2 && IsHigh(s[0]) && IsLow(s[1])
    ensures |cs| >= 2 && |Decode(cs[1])| == 1 && Decode(cs[1])[0] == s[1] && s[2..] == DecodeAll(cs[2..])
    ensures Decode(cs[0])[0] == s[0]
  {
    hide Decode, IsStringChar;
    var rest := cs[1..];
    assert s[1..] == DecodeAll(rest);
    if rest != [] {
      DecodeShape(rest[0]);
      assert rest[1..] == cs[2..];
      assert s[1..][1..] == s[2..];
    }
  }

  /** Over every body of the grammar, told by what the parser reads. */
  lemma EscapeIsShortestBody(s: Text, t: Text)
    requires IsBody(t) && ParseBody(t + [QUOTE]) == Some((s, []))
    ensures |Escape(s)| <= |t|
  {
    var cs :| AllStringChars(cs) && Flatten(cs) == t;
    BodyReads(cs);
    EscapeIsShortest(s, cs);
  }

  /** The unit at i needs no escape: no control, quotation mark or backslash, and no half of a pair alone. */
  predicate Unproblematic(s: Text, i: nat)
    requires i < |s|
  {
    && s[i] >= 32 && s[i] != QUOTE && s[i] != BACKSLASH
    && (IsHigh(s[i]) ==> i + 1 < |s| && IsLow(s[i + 1]))
    && (IsLow(s[i]) ==> i > 0 && IsHigh(s[i - 1]))
  }

  ghost predicate NeedsNoEscape(s: Text) {
    forall i :: 0 <= i < |s| ==> Unproblematic(s, i)
  }

  /** Such text is written as it is. */
  lemma {:induction false} PlainTextIsKept(s: Text)
    requires NeedsNoEscape(s)
    ensures Escape(s) == s
    decreases |s|
  {
    if s != [] {
      hide Escape;
      assert Unproblematic(s, 0);
      var n := if IsHigh(s[0]) then 2 else 1;
      assert |s| >= n && (n == 2 ==> IsLow(s[1]));
      forall i | 0 <= i < |s[n..]| ensures Unproblematic(s[n..], i) {
        assert Unproblematic(s, i + n);
      }
      PlainTextIsKept(s[n..]);
      EscapeTurns(s);
      assert s == s[..n] + s[n..];
    }
  }

  // ----- the printer on values whose keys are already sorted -----

  function Norm(v: Value): Value {
    match v
    case Arr(items) => Arr(NormAll(items))
    case Obj(entries) => Obj(Sort(NormEntries(entries)))
    case _ => v
  }

  function NormAll(vs: seq<Value>): (r: seq<Value>)
    ensures |r| == |vs| && forall i :: 0 <= i < |vs| ==> r[i] == Norm(vs[i])
  {
    if vs == [] then [] else [Norm(vs[0])] + NormAll(vs[1..])
  }

  function NormEntries(es: seq<Entry<Value>>): (r: seq<Entry<Value>>)
    ensures |r| == |es| && forall i :: 0 <= i < |es| ==> r[i] == Entry(es[i].key, Norm(es[i].value))
  {
    if es == [] then [] else [Entry(es[0].key, Norm(es[0].value))] + NormEntries(es[1..])
  }

  function Show(v: Value): Text {
    match v
    case Null => NULL
    case True => TRUE
    case False => FALSE
    case Num(t) => t
    case Infinite(_) => NULL
    case Str(s) => Quote(s)
    case Arr(items) => [LBRACKET] + Join(ShowAll(items)) + [RBRACKET]
    case Obj(entries) => [LBRACE] + Join(Fields(ShowEntries(entries))) + [RBRACE]
  }

  function ShowAll(vs: seq<Value>): (r: seq<Text>)
    ensures |r| == |vs|
  {
    if vs == [] then [] else [Show(vs[0])] + ShowAll(vs[1..])
  }

  function ShowEntries(es: seq<Entry<Value>>): (r: seq<Entry<Text>>)
    ensures |r| == |es|
  {
    if es == [] then [] else [Entry(es[0].key, Show(es[0].value))] + ShowEntries(es[1..])
  }

  lemma {:induction false} InsertShown(e: Entry<Value>, es: seq<Entry<Value>>)
    ensures ShowEntries(Insert(e, es)) == Insert(Entry(e.key, Show(e.value)), ShowEntries(es))
    decreases |es|
  {
    if es == [] || !Less(es[0].key, e.key) {
      assert ([e] + es)[1..] == es;
    } else {
      InsertShown(e, es[1..]);
      assert ([es[0]] + Insert(e, es[1..]))[1..] == Insert(e, es[1..]);
      assert ShowEntries(es)[1..] == ShowEntries(es[1..]);
    }
  }

  /** Sorting looks at keys alone. */
  lemma {:induction false} SortShown(es: seq<Entry<Value>>)
    ensures ShowEntries(Sort(es)) == Sort(ShowEntries(es))
    decreases |es|
  {
    if es != [] {
      SortShown(es[1..]);
      InsertShown(es[0], Sort(es[1..]));
      assert ShowEntries(es)[1..] == ShowEntries(es[1..]);
    }
  }

  lemma {:induction false} CanonicalizeIsShowNorm(v: Value)
    ensures Canonicalize(v) == Show(Norm(v))
    decreases v, 0
  {
    match v
    case Arr(items) => AllShowNorm(items);
    case Obj(entries) =>
      EntriesShowNorm(entries);
      SortShown(NormEntries(entries));
    case _ =>
  }

  lemma {:induction false} AllShowNorm(vs: seq<Value>)
    ensures CanonicalizeAll(vs) == ShowAll(NormAll(vs))
    decreases vs, 1
  {
    if vs != [] {
      CanonicalizeIsShowNorm(vs[0]);
      AllShowNorm(vs[1..]);
      assert NormAll(vs)[1..] == NormAll(vs[1..]);
    }
  }

  lemma {:induction false} EntriesShowNorm(es: seq<Entry<Value>>)
    ensures CanonicalizeEntries(es) == ShowEntries(NormEntries(es))
    decreases es, 1
  {
    if es != [] {
      CanonicalizeIsShowNorm(es[0].value);
      EntriesShowNorm(es[1..]);
      assert NormEntries(es)[1..] == NormEntries(es[1..]);
    }
  }

  // ----- the parser undoes the printer -----

  /** No number can continue into rest. */
  predicate Ends(rest: Text) {
    rest == [] || !IsNumberUnit(rest[0])
  }

  lemma {:induction false} NumberPrefixIs(t: Text, rest: Text)
    requires (forall i :: 0 <= i < |t| ==> IsNumberUnit(t[i])) && Ends(rest)
    ensures NumberPrefix(t + rest) == |t|
    decreases |t|
  {
    if t == [] {
      assert t + rest == rest;
    } else {
      NumberPrefixIs(t[1..], rest);
      assert (t + rest)[1..] == t[1..] + rest;
    }
  }

  /** How a printed value starts tells its kind, and never closes a bracket. */
  lemma ShowStarts(v: Value)
    requires WellFormed(v)
    ensures Show(v) != [] && Show(v)[0] != RBRACKET
  {
  }

  lemma ParseNumber(t: Text, rest: Text)
    requires IsNumber(t) && Ends(rest)
    ensures Parse(t + rest) == Some((Num(t), rest))
  {
    hide ParseItems, ParseEntries, ParseBody, NumberPrefix;
    var s := t + rest;
    NumberPrefixIs(t, rest);
    assert IsNumberUnit(t[0]) && s[0] == t[0] && s[..|t|] == t && s[|t|..] == rest;
  }

  lemma ParseString(body: Text, rest: Text)
    ensures Parse(Quote(body) + rest) == Some((Str(body), rest))
  {
    hide ParseItems, ParseEntries, ParseBody, NumberPrefix, Escape;
    BodyUndoesEscape(body, rest);
    var s := Quote(body) + rest;
    assert s[1..] == Escape(body) + [QUOTE] + rest && s[0] == QUOTE;
  }

  lemma ParseWords(v: Value, rest: Text)
    requires v.Null? || v.True? || v.False?
    ensures Parse(Show(v) + rest) == Some((v, rest))
  {
  }

  lemma ShowBrackets(items: seq<Value>, rest: Text)
    ensures Show(Arr(items)) + rest == [LBRACKET] + (Join(ShowAll(items)) + [RBRACKET] + rest)
    ensures Show(Arr([])) + rest == [LBRACKET, RBRACKET] + rest
  {
  }

  lemma ShowBraces(entries: seq<Entry<Value>>, rest: Text)
    ensures Show(Obj(entries)) + rest == [LBRACE] + (Join(Fields(ShowEntries(entries))) + [RBRACE] + rest)
    ensures Show(Obj([])) + rest == [LBRACE, RBRACE] + rest
  {
  }

  lemma ParseArray(items: seq<Value>, body: Text, rest: Text)
    requires items != [] && body != [] && body[0] != RBRACKET && ParseItems(body) == Some((items, rest))
    ensures Parse([LBRACKET] + body) == Some((Arr(items), rest))
  {
  }

  lemma ParseObject(entries: seq<Entry<Value>>, body: Text, rest: Text)
    requires body != [] && body[0] == QUOTE && ParseEntries(body) == Some((entries, rest))
    ensures Parse([LBRACE] + body) == Some((Obj(entries), rest))
  {
  }

  lemma ParseEmpty(rest: Text)
    ensures Parse([LBRACKET, RBRACKET] + rest) == Some((Arr([]), rest))
    ensures Parse([LBRACE, RBRACE] + rest) == Some((Obj([]), rest))
  {
  }

  lemma {:induction false} ParseUndoesShow(v: Value, rest: Text)
    requires WellFormed(v) && Ends(rest)
    ensures Parse(Show(v) + rest) == Some((v, rest))
    decreases v, 0
  {
    hide Parse, ParseItems, ParseEntries, Show, ShowAll, ShowEntries, Join, Fields;
    match v
    case Arr(items) =>
      ParseEmpty(rest);
      ShowBrackets(items, rest);
      if items != [] {
        ItemsUndone(items, rest);
        ParseArray(items, Join(ShowAll(items)) + [RBRACKET] + rest, rest);
      }
    case Obj(entries) =>
      ParseEmpty(rest);
      ShowBraces(entries, rest);
      if entries != [] {
        EntriesUndone(entries, rest);
        ParseObject(entries, Join(Fields(ShowEntries(entries))) + [RBRACE] + rest, rest);
      }
    case Num(t) =>
      ParseNumber(t, rest);
      ShowLeaf(v);
    case Str(body) =>
      ParseString(body, rest);
      ShowLeaf(v);
    case _ => ParseWords(v, rest);
  }

  lemma ShowLeaf(v: Value)
    ensures v.Num? ==> Show(v) == v.text
    ensures v.Str? ==> Show(v) == Quote(v.s)
  {
  }

  lemma ItemsTurn(s: Text, v: Value, rest: Text, vs: seq<Value>, after: Text)
    ensures Parse(s) == Some((v, [RBRACKET] + after)) ==> ParseItems(s) == Some(([v], after))
    ensures Parse(s) == Some((v, [COMMA] + rest)) && ParseItems(rest) == Some((vs, after))
      ==> ParseItems(s) == Some(([v] + vs, after))
  {
  }

  lemma {:induction false} ItemsUndone(items: seq<Value>, rest: Text)
    requires items != [] && forall i :: 0 <= i < |items| ==> WellFormed(items[i])
    ensures ParseItems(Join(ShowAll(items)) + [RBRACKET] + rest) == Some((items, rest))
    ensures Join(ShowAll(items)) != [] && Join(ShowAll(items))[0] != RBRACKET
    decreases items, 1
  {
    hide Parse, ParseItems, Show;
    var first := Show(items[0]);
    ShowStarts(items[0]);
    if |items| == 1 {
      var s := first + ([RBRACKET] + rest);
      ParseUndoesShow(items[0], [RBRACKET] + rest);
      ItemsTurn(s, items[0], [], [], rest);
      assert ShowAll(items) == [first] && Join(ShowAll(items)) + [RBRACKET] + rest == s;
      assert [items[0]] == items;
    } else {
      var more := Join(ShowAll(items[1..])) + [RBRACKET] + rest;
      var s := first + ([COMMA] + more);
      ItemsUndone(items[1..], rest);
      ParseUndoesShow(items[0], [COMMA] + more);
      ItemsTurn(s, items[0], more, items[1..], rest);
      assert ShowAll(items)[1..] == ShowAll(items[1..]);
      assert Join(ShowAll(items)) + [RBRACKET] + rest == s;
      assert [items[0]] + items[1..] == items;
    }
  }

  lemma EntriesTurn(key: Text, v: Value, more: Text, rest: Text, es: seq<Entry<Value>>, after: Text)
    ensures Parse(more) == Some((v, [RBRACE] + after))
      ==> ParseEntries(Quote(key) + ([COLON] + more)) == Some(([Entry(key, v)], after))
    ensures Parse(more) == Some((v, [COMMA] + rest)) && ParseEntries(rest) == Some((es, after))
      ==> ParseEntries(Quote(key) + ([COLON] + more)) == Some(([Entry(key, v)] + es, after))
  {
    hide Parse, ParseBody;
    var s := Quote(key) + ([COLON] + more);
    assert s[1..] == Escape(key) + [QUOTE] + ([COLON] + more);
    BodyUndoesEscape(key, [COLON] + more);
    assert ([COLON] + more)[1..] == more;
    assert ([RBRACE] + after)[1..] == after && ([COMMA] + rest)[1..] == rest;
  }

  lemma {:induction false} EntriesUndone(es: seq<Entry<Value>>, rest: Text)
    requires es != [] && forall i :: 0 <= i < |es| ==> WellFormed(es[i].value)
    ensures ParseEntries(Join(Fields(ShowEntries(es))) + [RBRACE] + rest) == Some((es, rest))
    ensures Join(Fields(ShowEntries(es))) != [] && Join(Fields(ShowEntries(es)))[0] == QUOTE
    decreases es, 1
  {
    hide Parse, ParseEntries, Show, Join, Fields, ShowEntries, Quote;
    var key, text := es[0].key, Show(es[0].value);
    var fields := Fields(ShowEntries(es));
    FieldsSplit(es);
    QuoteStarts(key);
    if |es| == 1 {
      var more := text + ([RBRACE] + rest);
      ParseUndoesShow(es[0].value, [RBRACE] + rest);
      EntriesTurn(key, es[0].value, more, [], [], rest);
      assert Join(fields) + [RBRACE] + rest == Quote(key) + ([COLON] + more);
      assert [es[0]] == es;
    } else {
      var tail := Join(Fields(ShowEntries(es[1..])));
      var more := text + ([COMMA] + (tail + [RBRACE] + rest));
      EntriesUndone(es[1..], rest);
      ParseUndoesShow(es[0].value, [COMMA] + (tail + [RBRACE] + rest));
      EntriesTurn(key, es[0].value, more, tail + [RBRACE] + rest, es[1..], rest);
      RegroupField(Quote(key), text, tail, rest);
      assert [es[0]] + es[1..] == es;
    }
  }

  lemma FieldsSplit(es: seq<Entry<Value>>)
    requires es != []
    ensures var field := Quote(es[0].key) + [COLON] + Show(es[0].value);
      && (|es| == 1 ==> Join(Fields(ShowEntries(es))) == field)
      && (|es| > 1 ==> Join(Fields(ShowEntries(es))) == field + [COMMA] + Join(Fields(ShowEntries(es[1..]))))
  {
  }

  lemma QuoteStarts(key: Text)
    ensures Quote(key) != [] && Quote(key)[0] == QUOTE
  {
  }

  lemma RegroupField(q: Text, text: Text, tail: Text, rest: Text)
    ensures (q + [COLON] + text + [COMMA] + tail) + [RBRACE] + rest
            == q + ([COLON] + (text + ([COMMA] + (tail + [RBRACE] + rest))))
  {
  }

  // ----- sorted entries are determined by their set -----

  lemma {:induction false} LessIrreflexive(a: Text)
    ensures !Less(a, a)
    decreases |a|
  {
    if a != [] { LessIrreflexive(a[1..]); }
  }

  lemma {:induction false} LessTransitive(a: Text, b: Text, c: Text)
    requires Less(a, b) && Less(b, c)
    ensures Less(a, c)
    decreases |a|
  {
    if a != [] && a[0] == b[0] == c[0] { LessTransitive(a[1..], b[1..], c[1..]); }
  }

  lemma {:induction false} LessTotal(a: Text, b: Text)
    ensures a == b || Less(a, b) || Less(b, a)
    decreases |a|
  {
    if a != [] && b != [] && a[0] == b[0] {
      LessTotal(a[1..], b[1..]);
      assert a == [a[0]] + a[1..] && b == [b[0]] + b[1..];
    }
  }

  ghost predicate Sorted<T(!new)>(es: seq<Entry<T>>) {
    forall i, j :: 0 <= i < j < |es| ==> Less(es[i].key, es[j].key)
  }

  lemma {:induction false} InsertKeepsSorted(e: Entry<Value>, es: seq<Entry<Value>>)
    requires Sorted(es) && forall i :: 0 <= i < |es| ==> es[i].key != e.key
    ensures Sorted(Insert(e, es)) && |Insert(e, es)| == |es| + 1
    ensures forall x :: x in Insert(e, es) <==> x == e || x in es
    decreases |es|
  {
    if es == [] {
    } else if Less(es[0].key, e.key) {
      InsertKeepsSorted(e, es[1..]);
      var r := Insert(e, es[1..]);
      assert es == [es[0]] + es[1..];
      forall i | 0 <= i < |r| ensures Less(es[0].key, r[i].key) {
        assert r[i] in r;
      }
    } else {
      LessTotal(e.key, es[0].key);
      forall i | 0 <= i < |es| ensures Less(e.key, es[i].key) {
        if i > 0 { LessTransitive(e.key, es[0].key, es[i].key); }
      }
    }
  }

  lemma {:induction false} SortSorts(es: seq<Entry<Value>>)
    requires DistinctKeys(es)
    ensures Sorted(Sort(es)) && |Sort(es)| == |es| && forall x :: x in Sort(es) <==> x in es
    decreases |es|
  {
    if es != [] {
      SortSorts(es[1..]);
      forall i | 0 <= i < |Sort(es[1..])| ensures Sort(es[1..])[i].key != es[0].key {
        assert Sort(es[1..])[i] in es[1..];
      }
      InsertKeepsSorted(es[0], Sort(es[1..]));
    }
  }

  lemma HeadNotInTail(a: seq<Entry<Value>>)
    requires Sorted(a) && a != []
    ensures forall x :: x in a[1..] <==> x in a && x != a[0]
  {
    LessIrreflexive(a[0].key);
    assert a == [a[0]] + a[1..];
    forall x | x in a[1..] ensures x != a[0] {
      var i :| 0 <= i < |a[1..]| && a[1..][i] == x;
      assert Less(a[0].key, a[i + 1].key);
    }
  }

  lemma {:induction false} SortedUnique(a: seq<Entry<Value>>, b: seq<Entry<Value>>)
    requires Sorted(a) && Sorted(b) && forall x :: x in a <==> x in b
    ensures a == b
    decreases |a|
  {
    if b != [] {
      assert b[0] in b;
    }
    if a != [] {
      assert a[0] in b && b != [] && b[0] in a;
      var i :| 0 <= i < |b| && b[i] == a[0];
      var j :| 0 <= j < |a| && a[j] == b[0];
      if i > 0 && j > 0 {
        LessTransitive(a[0].key, b[0].key, a[0].key);
        LessIrreflexive(a[0].key);
      }
      assert a[0] == b[0];
      HeadNotInTail(a);
      HeadNotInTail(b);
      SortedUnique(a[1..], b[1..]);
    }
  }

  // ----- equality up to key order -----

  /** The same value, objects compared as unordered collections of fields. */
  ghost predicate Same(u: Value, v: Value)
    decreases u
  {
    match (u, v)
    case (Arr(a), Arr(b)) => |a| == |b| && forall i :: 0 <= i < |a| ==> Same(a[i], b[i])
    case (Obj(a), Obj(b)) =>
      |a| == |b| && forall i :: 0 <= i < |a| ==>
        exists j :: 0 <= j < |b| && a[i].key == b[j].key && Same(a[i].value, b[j].value)
    case (_, _) => u == v
  }

  lemma NormWellFormed(v: Value)
    requires WellFormed(v)
    ensures WellFormed(Norm(v))
    decreases v
  {
    match v
    case Arr(items) =>
      forall i | 0 <= i < |items| ensures WellFormed(NormAll(items)[i]) { NormWellFormed(items[i]); }
    case Obj(entries) =>
      var es := NormEntries(entries);
      forall i | 0 <= i < |es| ensures WellFormed(es[i].value) { NormWellFormed(entries[i].value); }
      SortSorts(es);
      var r := Sort(es);
      forall i | 0 <= i < |r| ensures WellFormed(r[i].value) {
        assert r[i] in es;
      }
      forall i, j | 0 <= i < j < |r| ensures r[i].key != r[j].key {
        LessIrreflexive(r[i].key);
      }
    case _ =>
  }

  /** b has a field of this key whose normalized value is the given one. */
  ghost predicate HasField(b: seq<Entry<Value>>, key: Text, value: Value) {
    exists j :: 0 <= j < |b| && b[j].key == key && Norm(b[j].value) == value
  }

  /** Every field of a occurs in b, values compared after normalization. */
  ghost predicate Matched(a: seq<Entry<Value>>, b: seq<Entry<Value>>) {
    |a| == |b| && forall i :: 0 <= i < |a| ==> HasField(b, a[i].key, Norm(a[i].value))
  }

  lemma HasFieldIff(b: seq<Entry<Value>>, key: Text, value: Value)
    ensures HasField(b, key, value) <==> Entry(key, value) in NormEntries(b)
  {
  }

  /** As many entries, and every one of x occurs in y. */
  ghost predicate Included(x: seq<Entry<Value>>, y: seq<Entry<Value>>) {
    |x| == |y| && forall e :: e in x ==> e in y
  }

  lemma MatchedIffIncluded(a: seq<Entry<Value>>, b: seq<Entry<Value>>)
    ensures Matched(a, b) <==> Included(NormEntries(a), NormEntries(b))
  {
    hide Norm, HasField, NormEntries;
    var x, y := NormEntries(a), NormEntries(b);
    forall i | 0 <= i < |a| ensures HasField(b, a[i].key, Norm(a[i].value)) <==> x[i] in y {
      HasFieldIff(b, a[i].key, Norm(a[i].value));
    }
    if forall i :: 0 <= i < |x| ==> x[i] in y {
      assert forall e :: e in x ==> e in y;
    } else {
      var i :| 0 <= i < |x| && x[i] !in y;
      assert x[i] in x;
    }
  }

  lemma NormKeysDistinct(a: seq<Entry<Value>>)
    requires DistinctKeys(a)
    ensures DistinctKeys(NormEntries(a))
  {
  }

  /** Sorting makes the match an equality. */
  lemma FieldsMatch(a: seq<Entry<Value>>, b: seq<Entry<Value>>)
    requires DistinctKeys(a) && DistinctKeys(b)
    ensures Sort(NormEntries(a)) == Sort(NormEntries(b)) <==> Matched(a, b)
  {
    hide Norm, NormEntries, Sort, Sorted, Matched, DistinctKeys;
    var x, y := NormEntries(a), NormEntries(b);
    NormKeysDistinct(a);
    NormKeysDistinct(b);
    SortSorts(x);
    SortSorts(y);
    MatchedIffIncluded(a, b);
    if Sort(x) == Sort(y) {
      assert Included(x, y) by {
        forall e | e in x ensures e in y { assert e in Sort(x); }
      }
    }
    if Included(x, y) {
      SameSizeSubset(x, y);
      SortedUnique(Sort(x), Sort(y));
    }
  }

  ghost function Elements(es: seq<Entry<Value>>): set<Entry<Value>> {
    set e | e in es
  }

  lemma {:induction false} DistinctSize(es: seq<Entry<Value>>)
    requires DistinctKeys(es)
    ensures |Elements(es)| == |es|
    decreases |es|
  {
    if es != [] {
      DistinctSize(es[1..]);
      assert es == [es[0]] + es[1..];
      assert Elements(es) == {es[0]} + Elements(es[1..]);
      assert es[0] !in es[1..];
    }
  }

  lemma SameSizeSubset(x: seq<Entry<Value>>, y: seq<Entry<Value>>)
    requires DistinctKeys(x) && DistinctKeys(y) && Included(x, y)
    ensures forall e :: e in y ==> e in x
  {
    DistinctSize(x);
    DistinctSize(y);
    assert Elements(x) <= Elements(y);
    if Elements(x) != Elements(y) {
      assert Elements(x) < Elements(y);
      ProperSubsetSmaller(Elements(x), Elements(y));
    }
    forall e | e in y ensures e in x { assert e in Elements(y); }
  }

  lemma ProperSubsetSmaller(A: set<Entry<Value>>, B: set<Entry<Value>>)
    requires A < B
    ensures |A| < |B|
  {
    assert B == A + (B - A);
    assert |B| == |A| + |B - A|;
  }

  lemma SameIffMatched(a: seq<Entry<Value>>, b: seq<Entry<Value>>)
    requires forall i, j :: 0 <= i < |a| && 0 <= j < |b| ==>
      (Norm(a[i].value) == Norm(b[j].value) <==> Same(a[i].value, b[j].value))
    ensures Same(Obj(a), Obj(b)) <==> Matched(a, b)
  {
    hide Norm;
    forall i | 0 <= i < |a|
      ensures HasField(b, a[i].key, Norm(a[i].value))
        <==> exists j :: 0 <= j < |b| && a[i].key == b[j].key && Same(a[i].value, b[j].value)
    {
      if HasField(b, a[i].key, Norm(a[i].value)) {
        var j :| 0 <= j < |b| && b[j].key == a[i].key && Norm(b[j].value) == Norm(a[i].value);
        assert Same(a[i].value, b[j].value);
      }
      if j :| 0 <= j < |b| && a[i].key == b[j].key && Same(a[i].value, b[j].value) {
        assert Norm(a[i].value) == Norm(b[j].value);
      }
    }
    assert Same(Obj(a), Obj(b)) <==> |a| == |b| && forall i :: 0 <= i < |a| ==>
      exists j :: 0 <= j < |b| && a[i].key == b[j].key && Same(a[i].value, b[j].value);
  }

  lemma {:induction false} NormIffSame(u: Value, v: Value)
    requires WellFormed(u) && WellFormed(v)
    ensures Norm(u) == Norm(v) <==> Same(u, v)
    decreases u
  {
    match (u, v)
    case (Arr(a), Arr(b)) =>
      if |a| == |b| {
        forall i | 0 <= i < |a| ensures Norm(a[i]) == Norm(b[i]) <==> Same(a[i], b[i]) { NormIffSame(a[i], b[i]); }
        assert NormAll(a) == NormAll(b) <==> forall i :: 0 <= i < |a| ==> NormAll(a)[i] == NormAll(b)[i];
      }
    case (Obj(a), Obj(b)) =>
      forall i, j | 0 <= i < |a| && 0 <= j < |b|
        ensures Norm(a[i].value) == Norm(b[j].value) <==> Same(a[i].value, b[j].value)
      {
        NormIffSame(a[i].value, b[j].value);
      }
      FieldsMatch(a, b);
      SameIffMatched(a, b);
    case (_, _) =>
  }

  // ----- infinite numbers, which JSON.stringify prints as null -----

  /** Every infinite number replaced by null. */
  function Finite(v: Value): Value {
    match v
    case Infinite(_) => Null
    case Arr(items) => Arr(FiniteAll(items))
    case Obj(entries) => Obj(FiniteEntries(entries))
    case _ => v
  }

  function FiniteAll(vs: seq<Value>): (r: seq<Value>)
    ensures |r| == |vs| && forall i :: 0 <= i < |vs| ==> r[i] == Finite(vs[i])
  {
    if vs == [] then [] else [Finite(vs[0])] + FiniteAll(vs[1..])
  }

  function FiniteEntries(es: seq<Entry<Value>>): (r: seq<Entry<Value>>)
    ensures |r| == |es| && forall i :: 0 <= i < |es| ==> r[i] == Entry(es[i].key, Finite(es[i].value))
  {
    if es == [] then [] else [Entry(es[0].key, Finite(es[0].value))] + FiniteEntries(es[1..])
  }

  lemma {:induction false} FiniteIsWellFormed(v: Value)
    requires Parsed(v)
    ensures WellFormed(Finite(v))
    ensures WellFormed(v) ==> Finite(v) == v
    decreases v
  {
    match v
    case Arr(items) =>
      forall i | 0 <= i < |items|
        ensures WellFormed(FiniteAll(items)[i]) && (WellFormed(items[i]) ==> FiniteAll(items)[i] == items[i])
      {
        FiniteIsWellFormed(items[i]);
      }
      assert WellFormed(v) ==> FiniteAll(items) == items;
    case Obj(entries) =>
      var r := FiniteEntries(entries);
      forall i | 0 <= i < |entries|
        ensures WellFormed(r[i].value) && (WellFormed(entries[i].value) ==> r[i] == entries[i])
      {
        FiniteIsWellFormed(entries[i].value);
      }
      assert WellFormed(v) ==> r == entries;
    case _ =>
  }

  lemma {:induction false} CanonicalizeFinite(v: Value)
    ensures Canonicalize(v) == Canonicalize(Finite(v))
    decreases v, 0
  {
    match v
    case Arr(items) => AllFinite(items);
    case Obj(entries) => EntriesFinite(entries);
    case _ =>
  }

  lemma {:induction false} AllFinite(vs: seq<Value>)
    ensures CanonicalizeAll(vs) == CanonicalizeAll(FiniteAll(vs))
    decreases vs, 1
  {
    if vs != [] {
      CanonicalizeFinite(vs[0]);
      AllFinite(vs[1..]);
      assert FiniteAll(vs)[1..] == FiniteAll(vs[1..]);
    }
  }

  lemma {:induction false} EntriesFinite(es: seq<Entry<Value>>)
    ensures CanonicalizeEntries(es) == CanonicalizeEntries(FiniteEntries(es))
    decreases es, 1
  {
    if es != [] {
      CanonicalizeFinite(es[0].value);
      EntriesFinite(es[1..]);
      assert FiniteEntries(es)[1..] == FiniteEntries(es[1..]);
    }
  }

  // ----- the result -----

  /** The text determines the normalized value, null standing for infinite numbers. */
  lemma CanonicalTextParses(v: Value)
    requires Parsed(v)
    ensures Parse(Canonicalize(v)) == Some((Norm(Finite(v)), []))
  {
    hide Parse, Show, Norm, Canonicalize, Finite;
    var w := Finite(v);
    FiniteIsWellFormed(v);
    CanonicalizeFinite(v);
    CanonicalizeIsShowNorm(w);
    NormWellFormed(w);
    ParseUndoesShow(Norm(w), []);
    assert Show(Norm(w)) + [] == Show(Norm(w));
  }

  /** Exactly when: two argument values have the same canonical text if and only if they are equal up to object key
      order once null is put for every infinite number. */
  lemma CanonicalTextIsFaithful(u: Value, v: Value)
    requires Parsed(u) && Parsed(v)
    ensures Canonicalize(u) == Canonicalize(v) <==> Same(Finite(u), Finite(v))
    ensures WellFormed(u) && WellFormed(v) ==> (Canonicalize(u) == Canonicalize(v) <==> Same(u, v))
  {
    hide Parse, Norm, Canonicalize, Finite, Same;
    CanonicalTextParses(u);
    CanonicalTextParses(v);
    FiniteIsWellFormed(u);
    FiniteIsWellFormed(v);
    CanonicalizeFinite(u);
    CanonicalizeFinite(v);
    CanonicalizeIsShowNorm(Finite(u));
    CanonicalizeIsShowNorm(Finite(v));
    NormIffSame(Finite(u), Finite(v));
  }

  /** The input: what [1e400] and [null] parse to are different values with the same text. */
  lemma InfinityReadsAsNull(negative: bool)
    ensures var u, v := Arr([Infinite(negative)]), Arr([Null]);
      Parsed(u) && Parsed(v) && !Same(u, v) && Canonicalize(u) == Canonicalize(v)
  {
    var u, v := Arr([Infinite(negative)]), Arr([Null]);
    assert u.items[0] != v.items[0];
    assert FiniteAll(u.items) == v.items;
    CanonicalizeFinite(u);
  }

  // ----- the text itself -----

  /** The characters a number may be written with. */
  lemma NumberCharacters(u: Unit)
    ensures IsNumberUnit(u) <==> u in Units("0123456789+-.Ee")
  {
    var chars := Units("0123456789+-.Ee");
    if IsNumberUnit(u) {
      assert chars[if 48 <= u <= 57 then u - 48 else if u == 43 then 10 else if u == 45 then 11 else if u == 46 then 12
                   else if u == 69 then 13 else 14] == u;
    }
  }

  /** The words of null and the booleans, and the marks around strings, items and fields. */
  lemma WordsSpelledOut()
    ensures Canonicalize(Null) == Units("null")
    ensures Canonicalize(True) == Units("true") && Canonicalize(False) == Units("false")
    ensures [QUOTE] == Units("\"") && [COMMA] == Units(",") && [COLON] == Units(":")
    ensures [LBRACKET] == Units("[") && [RBRACKET] == Units("]") && [LBRACE] == Units("{") && [RBRACE] == Units("}")
    ensures [LBRACE, RBRACE] == Units("{}")
  {
  }

  lemma ItemsSpelledOut(v: Value, items: seq<Value>)
    ensures Canonicalize(Arr([])) == Units("[") + Units("]")
    ensures Canonicalize(Arr([v])) == Units("[") + Canonicalize(v) + Units("]")
    ensures items != [] ==>
      Canonicalize(Arr([v] + items))
      == Units("[") + (Canonicalize(v) + Units(",") + Join(CanonicalizeAll(items))) + Units("]")
  {
    hide Units;
    WordsSpelledOut();
    assert [v][1..] == [] && ([v] + items)[1..] == items && CanonicalizeAll([v]) == [Canonicalize(v)];
    assert Canonicalize(Arr([])) == [LBRACKET] + [] + [RBRACKET];
  }

  lemma FieldsSpelledOut(e: Entry<Text>, es: seq<Entry<Text>>)
    ensures Join(Fields([e])) == Units("\"") + Escape(e.key) + Units("\"") + Units(":") + e.value
    ensures es != [] ==> Join(Fields([e] + es)) == Join(Fields([e])) + Units(",") + Join(Fields(es))
  {
    hide Units, Escape;
    WordsSpelledOut();
    assert [e][1..] == [] && ([e] + es)[1..] == es;
    assert Fields([e]) == [Quote(e.key) + [COLON] + e.value];
  }

  lemma ObjectsSpelledOut(key: Text, v: Value)
    ensures Canonicalize(Obj([])) == Units("{}")
    ensures Canonicalize(Obj([Entry(key, v)]))
            == Units("{") + (Units("\"") + Escape(key) + Units("\"") + Units(":") + Canonicalize(v)) + Units("}")
  {
    hide Units, Escape;
    WordsSpelledOut();
    assert Canonicalize(Obj([])) == [LBRACE] + [] + [RBRACE] == [LBRACE, RBRACE];
    var e := Entry(key, Canonicalize(v));
    assert [Entry(key, v)][1..] == [] && CanonicalizeEntries([Entry(key, v)]) == [e];
    assert [e][1..] == [] && Sort([e]) == [e];
    FieldsSpelledOut(e, []);
  }

  /** a comes before b in the order of code units: it is a proper prefix, or smaller where they first differ. */
  ghost predicate Before(a: Text, b: Text) {
    exists n: nat :: n <= |a| && n < |b| && a[..n] == b[..n] && (n == |a| || a[n] < b[n])
  }

  lemma {:induction false} LessIsBefore(a: Text, b: Text)
    ensures Less(a, b) <==> Before(a, b)
    decreases |a|
  {
    if a != [] && b != [] && a[0] == b[0] {
      LessIsBefore(a[1..], b[1..]);
      if Before(a[1..], b[1..]) {
        var n: nat :| n <= |a[1..]| && n < |b[1..]| && a[1..][..n] == b[1..][..n]
                      && (n == |a[1..]| || a[1..][n] < b[1..][n]);
        assert a[..n + 1] == [a[0]] + a[1..][..n] && b[..n + 1] == [b[0]] + b[1..][..n];
      }
      if n: nat :| n <= |a| && n < |b| && a[..n] == b[..n] && (n == |a| || a[n] < b[n]) {
        assert n > 0;
        assert a[1..][..n - 1] == a[..n][1..] && b[1..][..n - 1] == b[..n][1..];
      }
    } else if b != [] && (a == [] || a[0] < b[0]) {
      assert a[..0] == b[..0];
    } else if Before(a, b) {
      FirstUnits(a, b);
    }
  }

  lemma FirstUnits(a: Text, b: Text)
    requires Before(a, b) && a != []
    ensures b != [] && a[0] <= b[0]
  {
    var n: nat :| n <= |a| && n < |b| && a[..n] == b[..n] && (n == |a| || a[n] < b[n]);
    if n > 0 {
      assert a[..n][0] == b[..n][0];
    }
  }

  /** At every level of the value that the text stands for, keys ascend in the order of code units. */
  ghost predicate Ascending(v: Value) {
    match v
    case Arr(items) => forall i :: 0 <= i < |items| ==> Ascending(items[i])
    case Obj(entries) =>
      && (forall i, j :: 0 <= i < j < |entries| ==> Before(entries[i].key, entries[j].key))
      && forall i :: 0 <= i < |entries| ==> Ascending(entries[i].value)
    case _ => true
  }

  lemma {:induction false} NormAscends(v: Value)
    requires WellFormed(v)
    ensures Ascending(Norm(v))
    decreases v
  {
    match v
    case Arr(items) =>
      forall i | 0 <= i < |items| ensures Ascending(NormAll(items)[i]) { NormAscends(items[i]); }
    case Obj(entries) =>
      var es := NormEntries(entries);
      forall i | 0 <= i < |es| ensures Ascending(es[i].value) { NormAscends(entries[i].value); }
      SortSorts(es);
      var r := Sort(es);
      forall i | 0 <= i < |r| ensures Ascending(r[i].value) {
        assert r[i] in es;
      }
      forall i, j | 0 <= i < j < |r| ensures Before(r[i].key, r[j].key) {
        LessIsBefore(r[i].key, r[j].key);
      }
    case _ =>
  }

  /** The text reads as a value equal to the given one up to key order and infinite numbers, its keys ascending. */
  lemma TextReadsAscending(v: Value)
    requires Parsed(v)
    ensures var r := Parse(Canonicalize(v)); r.Some? && r.value.1 == [] && Ascending(r.value.0)
  {
    CanonicalTextParses(v);
    FiniteIsWellFormed(v);
    NormAscends(Finite(v));
  }
}
