/** JavaScript strings as sequences of UTF-16 code units, and the quoting that JSON.stringify applies
    to them (RFC 8259 section 7, with lone surrogates escaped as ECMAScript requires). */
module JsonText {
  import opened Common

  type CodeUnit = n: int | 0 <= n < 0x1_0000
  type Text = seq<CodeUnit>

  const NEWLINE: CodeUnit := 0x0A
  const QUOTE: CodeUnit := 0x22
  const COMMA: CodeUnit := 0x2C
  const COLON: CodeUnit := 0x3A
  const LBRACKET: CodeUnit := 0x5B
  const BACKSLASH: CodeUnit := 0x5C
  const RBRACKET: CodeUnit := 0x5D
  const LOWER_U: CodeUnit := 0x75
  const LBRACE: CodeUnit := 0x7B
  const RBRACE: CodeUnit := 0x7D

  /** The code units of an ASCII literal of the source. */
  function Ascii(s: string): (t: Text)
    ensures |t| == |s|
  {
    seq(|s|, i requires 0 <= i < |s| => if s[i] as int < 0x80 then s[i] as int else 0x3F)
  }

  lemma Regroup(a: Text, b: Text, c: Text)
    ensures a + b + c == a + (b + c)
  {
  }

  predicate IsHigh(u: CodeUnit) { 0xD800 <= u < 0xDC00 }

  predicate IsLow(u: CodeUnit) { 0xDC00 <= u < 0xE000 }

  // ---------- hexadecimal digits ----------

  function HexDigit(n: int): CodeUnit
    requires 0 <= n < 16
  {
    if n < 10 then 0x30 + n else 0x61 + (n - 10)
  }

  function HexValue(u: CodeUnit): Option<int> {
    if 0x30 <= u < 0x3A then Some(u - 0x30)
    else if 0x61 <= u < 0x67 then Some(u - 0x61 + 10)
    else None
  }

  function Hex2(n: int): (t: Text)
    requires 0 <= n < 0x100
    ensures |t| == 2
  {
    [HexDigit(n / 16), HexDigit(n % 16)]
  }

  function Hex4(u: CodeUnit): Text {
    Hex2(u / 0x100) + Hex2(u % 0x100)
  }

  function ReadHex2(t: Text): (r: Option<int>)
    requires |t| >= 2
    ensures r.Some? ==> 0 <= r.value < 0x100
  {
    match (HexValue(t[0]), HexValue(t[1]))
    case (Some(a), Some(b)) => Some(a * 16 + b)
    case _ => None
  }

  function ReadHex4(t: Text): (r: Option<CodeUnit>)
    requires |t| >= 4
  {
    match (ReadHex2(t), ReadHex2(t[2..]))
    case (Some(h), Some(l)) => Some(h * 0x100 + l)
    case _ => None
  }

  lemma Hex2RoundTrip(n: int, r: Text)
    requires 0 <= n < 0x100
    ensures ReadHex2(Hex2(n) + r) == Some(n)
  {
    var a, b := n / 16, n % 16;
    assert HexValue(HexDigit(a)) == Some(a) && HexValue(HexDigit(b)) == Some(b);
  }

  lemma HexRoundTrip(u: CodeUnit, r: Text)
    ensures ReadHex4(Hex4(u) + r) == Some(u)
  {
    var h, l := Hex2(u / 0x100), Hex2(u % 0x100);
    Hex2RoundTrip(u / 0x100, l + r);
    Hex2RoundTrip(u % 0x100, r);
    assert Hex4(u) + r == h + (l + r);
    assert (h + (l + r))[2..] == l + r;
  }

  // ---------- quoting ----------

  function EscapeUnit(u: CodeUnit): Text {
    if u == QUOTE || u == BACKSLASH then [BACKSLASH, u]
    else if u == 0x08 then [BACKSLASH, 0x62]
    else if u == 0x09 then [BACKSLASH, 0x74]
    else if u == 0x0A then [BACKSLASH, 0x6E]
    else if u == 0x0C then [BACKSLASH, 0x66]
    else if u == 0x0D then [BACKSLASH, 0x72]
    else if u < 0x20 || IsHigh(u) || IsLow(u) then [BACKSLASH, LOWER_U] + Hex4(u)
    else [u]
  }

  /** A surrogate pair is copied; a surrogate on its own is escaped. */
  function Escaped(s: Text): Text {
    if s == [] then []
    else if |s| > 1 && IsHigh(s[0]) && IsLow(s[1]) then [s[0], s[1]] + Escaped(s[2..])
    else EscapeUnit(s[0]) + Escaped(s[1..])
  }

  /** JSON.stringify on a string. */
  function Quote(s: Text): Text {
    [QUOTE] + Escaped(s) + [QUOTE]
  }

  /** What a backslash followed by `u` stands for, apart from \uXXXX. */
  function ShortEscape(u: CodeUnit): Option<CodeUnit> {
    if u == QUOTE || u == BACKSLASH then Some(u)
    else if u == 0x62 then Some(0x08)
    else if u == 0x74 then Some(0x09)
    else if u == 0x6E then Some(0x0A)
    else if u == 0x66 then Some(0x0C)
    else if u == 0x72 then Some(0x0D)
    else None
  }

  /** Reads string content up to and including the closing quote. */
  function Unquote(t: Text): (r: Option<(Text, Text)>)
    ensures r.Some? ==> |r.value.1| < |t|
    decreases |t|
  {
    if t == [] then None
    else if t[0] == QUOTE then Some(([], t[1..]))
    else if t[0] != BACKSLASH then Prepend(t[0], Unquote(t[1..]))
    else if |t| >= 6 && t[1] == LOWER_U then
      match ReadHex4(t[2..])
      case Some(u) => Prepend(u, Unquote(t[6..]))
      case None => None
    else if |t| >= 2 then
      match ShortEscape(t[1])
      case Some(u) => Prepend(u, Unquote(t[2..]))
      case None => None
    else None
  }

  function Prepend(u: CodeUnit, r: Option<(Text, Text)>): Option<(Text, Text)> {
    match r
    case Some((s, rest)) => Some(([u] + s, rest))
    case None => None
  }

  lemma UnquotePlain(u: CodeUnit, t: Text)
    requires u != QUOTE && u != BACKSLASH
    ensures Unquote([u] + t) == Prepend(u, Unquote(t))
  {
    assert ([u] + t)[1..] == t;
  }

  lemma UnquoteShort(v: CodeUnit, u: CodeUnit, t: Text)
    requires v != LOWER_U && ShortEscape(v) == Some(u)
    ensures Unquote([BACKSLASH, v] + t) == Prepend(u, Unquote(t))
  {
    assert ([BACKSLASH, v] + t)[2..] == t;
  }

  lemma UnquoteHex(u: CodeUnit, t: Text)
    ensures Unquote([BACKSLASH, LOWER_U] + Hex4(u) + t) == Prepend(u, Unquote(t))
  {
    var all := [BACKSLASH, LOWER_U] + Hex4(u) + t;
    HexRoundTrip(u, t);
    assert all[2..] == Hex4(u) + t && all[6..] == t;
  }

  lemma UnquoteUnit(u: CodeUnit, t: Text)
    ensures Unquote(EscapeUnit(u) + t) == Prepend(u, Unquote(t))
  {
    var e := EscapeUnit(u);
    if |e| == 6 {
      UnquoteHex(u, t);
    } else if |e| == 2 {
      UnquoteShort(e[1], u, t);
    } else {
      UnquotePlain(u, t);
    }
  }

  lemma UnquotePair(a: CodeUnit, b: CodeUnit, s: Text, t: Text, rest: Text)
    requires IsHigh(a) && IsLow(b) && Unquote(t) == Some((s, rest))
    ensures Unquote([a, b] + t) == Some(([a, b] + s, rest))
  {
    UnquotePlain(b, t);
    UnquotePlain(a, [b] + t);
    assert [a, b] + t == [a] + ([b] + t);
    assert [a] + ([b] + s) == [a, b] + s;
  }

  lemma UnquoteStep(u: CodeUnit, s: Text, e: Text, tail: Text, rest: Text)
    requires Unquote(e + tail) == Some((s, rest))
    ensures Unquote(EscapeUnit(u) + e + tail) == Some(([u] + s, rest))
  {
    UnquoteUnit(u, e + tail);
    assert EscapeUnit(u) + e + tail == EscapeUnit(u) + (e + tail);
  }

  lemma {:induction false} EscapedRoundTrip(s: Text, tail: Text, rest: Text)
    requires Unquote(tail) == Some(([], rest))
    ensures Unquote(Escaped(s) + tail) == Some((s, rest))
  {
    if s == [] {
      assert Escaped(s) + tail == tail;
    } else if |s| > 1 && IsHigh(s[0]) && IsLow(s[1]) {
      EscapedRoundTrip(s[2..], tail, rest);
      UnquotePair(s[0], s[1], s[2..], Escaped(s[2..]) + tail, rest);
      Regroup([s[0], s[1]], Escaped(s[2..]), tail);
      assert [s[0], s[1]] + s[2..] == s;
    } else {
      EscapedRoundTrip(s[1..], tail, rest);
      UnquoteStep(s[0], s[1..], Escaped(s[1..]), tail, rest);
      assert [s[0]] + s[1..] == s;
    }
  }

  /** The quoted form of any string, followed by anything, reads back as that string. */
  lemma QuoteRoundTrip(s: Text, rest: Text)
    ensures Unquote((Quote(s) + rest)[1..]) == Some((s, rest))
  {
    var tail := [QUOTE] + rest;
    UnquoteEnd(rest);
    EscapedRoundTrip(s, tail, rest);
    assert (Quote(s) + rest)[1..] == Escaped(s) + tail;
  }

  lemma UnquoteEnd(rest: Text)
    ensures Unquote([QUOTE] + rest) == Some(([], rest))
  {
    assert ([QUOTE] + rest)[1..] == rest;
  }

  /** No control character survives quoting; in particular no raw newline. */
  lemma {:induction false} QuotedHasNoControl(s: Text)
    ensures forall u | u in Quote(s) :: u >= 0x20
  {
    EscapedHasNoControl(s);
  }

  lemma {:induction false} EscapedHasNoControl(s: Text)
    ensures forall u | u in Escaped(s) :: u >= 0x20
  {
    if s == [] {
    } else if |s| > 1 && IsHigh(s[0]) && IsLow(s[1]) {
      EscapedHasNoControl(s[2..]);
    } else {
      EscapedHasNoControl(s[1..]);
      assert forall u | u in EscapeUnit(s[0]) :: u >= 0x20;
    }
  }
}
