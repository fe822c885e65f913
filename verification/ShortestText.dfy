/** Why the canonical text is the only one: no other text without control characters and lone surrogates that
    reads back as the same value is as short. */
module ShortestText {
  import opened Common
  import opened JsonText
  import opened CanonicalJson

  // ---------- strings ----------

  /** High and low surrogates come in pairs only. */
  predicate Paired(t: Text) {
    && (forall i, j | 0 <= i < |t| && 0 <= j < |t| && j == i + 1 :: IsHigh(t[i]) <==> IsLow(t[j]))
    && (t != [] ==> !IsLow(t[0]) && !IsHigh(t[|t| - 1]))
  }

  /** What a string token may hold: no control character and no lone surrogate. */
  predicate Clean(t: Text) {
    Paired(t) && forall i | 0 <= i < |t| :: t[i] >= 0x20
  }

  /** `t` between quotes is one way of writing `s`. */
  predicate Spells(t: Text, s: Text) {
    Clean(t) && Unquote(t + [QUOTE]) == Some((s, []))
  }

  lemma CleanFrom(t: Text, k: nat)
    requires Clean(t) && k <= |t| && (k < |t| ==> !IsLow(t[k]))
    ensures Clean(t[k..])
  {
  }

  lemma HexDigitOf(u: CodeUnit)
    requires HexValue(u).Some?
    ensures 0 <= HexValue(u).value < 16 && HexDigit(HexValue(u).value) == u
  {
  }

  lemma Hex2Of(t: Text)
    requires |t| >= 2 && ReadHex2(t).Some?
    ensures Hex2(ReadHex2(t).value) == [t[0], t[1]]
  {
    var a, b := HexValue(t[0]).value, HexValue(t[1]).value;
    HexDigitOf(t[0]);
    HexDigitOf(t[1]);
    assert (a * 16 + b) / 16 == a && (a * 16 + b) % 16 == b;
  }

  lemma Hex4Of(t: Text)
    requires |t| >= 4 && ReadHex4(t).Some?
    ensures Hex4(ReadHex4(t).value) == t[..4]
  {
    var h, l := ReadHex2(t).value, ReadHex2(t[2..]).value;
    Hex2Of(t);
    Hex2Of(t[2..]);
    assert (h * 0x100 + l) / 0x100 == h && (h * 0x100 + l) % 0x100 == l;
  }

  /** What escaping makes of a unit in front of a string: at most six units more, and only six if the unit is a
      control character without a short form or a lone surrogate. */
  lemma EscapedMore(u: CodeUnit, s: Text)
    ensures |Escaped([u] + s)| <= 6 + |Escaped(s)|
    ensures |Escaped([u] + s)| == 6 + |Escaped(s)| ==>
      Escaped([u] + s) == [BACKSLASH, LOWER_U] + Hex4(u) + Escaped(s)
  {
    assert ([u] + s)[1..] == s;
    if s != [] && IsHigh(u) && IsLow(s[0]) { assert ([u] + s)[2..] == s[1..]; }
  }

  lemma ReadPlain(t: Text, s: Text, rest: Text)
    requires t != [] && t[0] != QUOTE && t[0] != BACKSLASH && Unquote(t) == Some((s, rest))
    ensures s != [] && s[0] == t[0] && Unquote(t[1..]) == Some((s[1..], rest)) && s == [t[0]] + s[1..]
  {
    var (s', rest') := Unquote(t[1..]).value;
    assert ([t[0]] + s')[1..] == s';
  }

  lemma ReadEscape(t: Text, s: Text, rest: Text) returns (n: nat)
    requires t != [] && t[0] == BACKSLASH && Unquote(t) == Some((s, rest))
    ensures 2 <= n <= |t| && s != [] && s == [s[0]] + s[1..] && Unquote(t[n..]) == Some((s[1..], rest))
    ensures (n == 2 && t[1] != LOWER_U && ShortEscape(t[1]) == Some(s[0]))
         || (n == 6 && t[..6] == [BACKSLASH, LOWER_U] + Hex4(s[0]))
    ensures !IsHigh(t[n - 1])
  {
    n := if |t| >= 6 && t[1] == LOWER_U then 6 else 2;
    var (s', rest') := Unquote(t[n..]).value;
    if n == 6 {
      Hex4Of(t[2..]);
      assert HexValue(t[2..][2..][1]).Some?;
    }
    assert s == [s[0]] + s' && s[1..] == s';
  }

  /** Escaping a unit that has a short form. */
  lemma EscapedShort(v: CodeUnit, u: CodeUnit, s: Text)
    requires ShortEscape(v) == Some(u) && v != LOWER_U
    ensures Escaped([u] + s) == [BACKSLASH, v] + Escaped(s)
  {
    assert ([u] + s)[1..] == s;
  }

  /** What comes before the quote in front of `rest` is no shorter than `content`, and only as long if it is that. */
  ghost predicate AtLeastContent(t: Text, content: Text, rest: Text) {
    && |rest| < |t| && t[|t| - |rest|..] == rest && t[|t| - |rest| - 1] == QUOTE
    && |content| + 1 + |rest| <= |t|
    && (|content| + 1 + |rest| == |t| ==> t == content + [QUOTE] + rest)
  }

  /** The same for `k` more units in front, which the content has too, or for a content that is shorter still. */
  lemma AtLeastMore(t: Text, k: nat, content: Text, less: Text, rest: Text)
    requires k <= |t| && AtLeastContent(t[k..], less, rest)
    requires content == t[..k] + less || |content| < k + |less|
    ensures AtLeastContent(t, content, rest)
  {
    SameTail(t, k, |rest|);
    if |content| + 1 + |rest| == |t| { SameText(t, k, less, rest); }
  }

  lemma SameTail(t: Text, k: nat, n: nat)
    requires k <= |t| && n < |t| - k
    ensures t[k..][|t| - k - n..] == t[|t| - n..] && t[k..][|t| - k - n - 1] == t[|t| - n - 1]
  {
  }

  lemma SameText(t: Text, k: nat, content: Text, rest: Text)
    requires k <= |t| && t[k..] == content + [QUOTE] + rest
    ensures t == t[..k] + content + [QUOTE] + rest
  {
    assert t == t[..k] + t[k..];
  }

  lemma CleanAfter(t: Text, k: nat)
    requires Clean(t) && 0 < k <= |t| && !IsHigh(t[k - 1])
    ensures Clean(t[k..])
  {
    if k < |t| { assert IsHigh(t[k - 1]) <==> IsLow(t[k]); }
    CleanFrom(t, k);
  }

  /** What escaping makes of a string whose first unit `t` spells with a backslash, in `n` units. */
  lemma EscapedEscape(t: Text, n: nat, s: Text)
    requires n <= |t| && s != []
    requires (n == 2 && t[0] == BACKSLASH && t[1] != LOWER_U && ShortEscape(t[1]) == Some(s[0]))
          || (n == 6 && t[..6] == [BACKSLASH, LOWER_U] + Hex4(s[0]))
    ensures Escaped(s) == t[..n] + Escaped(s[1..]) || |Escaped(s)| < n + |Escaped(s[1..])|
  {
    assert s == [s[0]] + s[1..];
    if n == 2 {
      EscapedShort(t[1], s[0], s[1..]);
      assert t[..2] == [BACKSLASH, t[1]];
    } else {
      EscapedMore(s[0], s[1..]);
    }
  }

  lemma EscapedFirst(t: Text, s: Text)
    requires t != [] && s != [] && s[0] == t[0]
    requires t[0] >= 0x20 && t[0] != QUOTE && t[0] != BACKSLASH && !IsHigh(t[0]) && !IsLow(t[0])
    ensures Escaped(s) == t[..1] + Escaped(s[1..])
  {
    assert t[..1] == EscapeUnit(s[0]);
  }

  lemma EscapedFirstTwo(t: Text, s: Text)
    requires |t| >= 2 && |s| >= 2 && s[0] == t[0] && s[1] == t[1] && IsHigh(t[0]) && IsLow(t[1])
    ensures Escaped(s) == t[..2] + Escaped(s[2..])
  {
    assert t[..2] == [s[0], s[1]];
  }

  lemma ReadPair(t: Text, s: Text, rest: Text)
    requires |t| >= 2 && IsHigh(t[0]) && IsLow(t[1]) && Unquote(t) == Some((s, rest))
    ensures |s| >= 2 && s[0] == t[0] && s[1] == t[1] && Unquote(t[2..]) == Some((s[2..], rest))
  {
    ReadPlain(t, s, rest);
    ReadPlain(t[1..], s[1..], rest);
    assert t[1..][1..] == t[2..] && s[1..][1..] == s[2..];
  }

  lemma {:induction false} ShortestFrom(t: Text, s: Text, rest: Text)
    requires Clean(t) && Unquote(t) == Some((s, rest))
    ensures AtLeastContent(t, Escaped(s), rest)
    decreases |t|
  {
    if t[0] == QUOTE {
      assert t == [] + [QUOTE] + rest;
    } else {
      var n, k := 1, 1;
      if t[0] == BACKSLASH {
        n := ReadEscape(t, s, rest);
        EscapedEscape(t, n, s);
      } else if IsHigh(t[0]) {
        ReadPair(t, s, rest);
        EscapedFirstTwo(t, s);
        n, k := 2, 2;
      } else {
        ReadPlain(t, s, rest);
        EscapedFirst(t, s);
      }
      CleanAfter(t, n);
      ShortestFrom(t[n..], s[k..], rest);
      AtLeastMore(t, n, Escaped(s), Escaped(s[k..]), rest);
    }
  }

  lemma {:induction false} EscapedIsPaired(s: Text)
    ensures Paired(Escaped(s))
  {
    if s == [] {
    } else if |s| > 1 && IsHigh(s[0]) && IsLow(s[1]) {
      EscapedIsPaired(s[2..]);
      PairedConcat([s[0], s[1]], Escaped(s[2..]));
    } else {
      EscapedIsPaired(s[1..]);
      EscapedUnitIsPaired(s[0]);
      PairedConcat(EscapeUnit(s[0]), Escaped(s[1..]));
    }
  }

  lemma PairedConcat(a: Text, b: Text)
    requires Paired(a) && Paired(b)
    ensures Paired(a + b)
  {
    var t := a + b;
    forall i, j | 0 <= i < |t| && 0 <= j < |t| && j == i + 1 ensures IsHigh(t[i]) <==> IsLow(t[j]) {
      if j < |a| { assert t[i] == a[i] && t[j] == a[j]; }
      else if i >= |a| { assert t[i] == b[i - |a|] && t[j] == b[j - |a|]; }
    }
  }

  lemma EscapedUnitIsPaired(u: CodeUnit)
    ensures Paired(EscapeUnit(u))
  {
    assert forall i | 0 <= i < |Hex4(u)| :: Hex4(u)[i] < 0x100;
  }

  /** Quoting writes the shortest text that reads back as the string, and no other text of that length does, among
      those without control characters and lone surrogates. */
  lemma QuoteIsShortest(s: Text, t: Text)
    ensures exists e :: Quote(s) == [QUOTE] + e + [QUOTE] && Spells(e, s)
    ensures Spells(t, s) ==> |Quote(s)| <= |t| + 2
    ensures Spells(t, s) && |Quote(s)| == |t| + 2 ==> Quote(s) == [QUOTE] + t + [QUOTE]
  {
    EscapedIsPaired(s);
    EscapedHasNoControl(s);
    UnquoteEnd([]);
    assert [QUOTE] + [] == [QUOTE];
    EscapedRoundTrip(s, [QUOTE], []);
    forall i | 0 <= i < |Escaped(s)| ensures Escaped(s)[i] >= 0x20 { assert Escaped(s)[i] in Escaped(s); }
    assert Spells(Escaped(s), s);
    if Spells(t, s) {
      PairedConcat(t, [QUOTE]);
      ShortestFrom(t + [QUOTE], s, []);
      if |Escaped(s)| == |t| { assert t == (t + [QUOTE])[..|t|] == (Escaped(s) + [QUOTE])[..|t|]; }
    }
  }

  // ---------- values ----------

  /** The value written out as it stands, with its entries in their order. */
  function Plain(v: Value): Text
    decreases v
  {
    match v
    case Undefined => []
    case Null => Ascii("null")
    case Bool(b) => if b then Ascii("true") else Ascii("false")
    case Num(digits) => digits
    case Str(s) => Quote(s)
    case Arr(items) =>
      [LBRACKET] + Join(seq(|items|, i requires 0 <= i < |items| => Plain(items[i]))) + [RBRACKET]
    case Obj(entries) =>
      [LBRACE] + Join(seq(|entries|, i requires 0 <= i < |entries| =>
        Quote(entries[i].key) + [COLON] + Plain(entries[i].value))) + [RBRACE]
  }

  function PlainItems(items: seq<Value>): seq<Text> {
    seq(|items|, i requires 0 <= i < |items| => Plain(items[i]))
  }

  function PlainEntry(e: Entry): Text { Quote(e.key) + [COLON] + Plain(e.value) }

  function PlainEntries(es: seq<Entry>): seq<Text> {
    seq(|es|, i requires 0 <= i < |es| => PlainEntry(es[i]))
  }

  lemma PlainArr(items: seq<Value>)
    ensures Plain(Arr(items)) == [LBRACKET] + Join(PlainItems(items)) + [RBRACKET]
  {
    var v := Arr(items);
    assert seq(|v.items|, i requires 0 <= i < |v.items| => Plain(v.items[i])) == PlainItems(items);
  }

  lemma PlainObj(es: seq<Entry>)
    ensures Plain(Obj(es)) == [LBRACE] + Join(PlainEntries(es)) + [RBRACE]
  {
    var v := Obj(es);
    assert seq(|v.entries|, i requires 0 <= i < |v.entries| =>
      Quote(v.entries[i].key) + [COLON] + Plain(v.entries[i].value)) == PlainEntries(es);
  }

  /** Printing a value is writing out its canonical form. */
  lemma {:induction false} CanonWrittenOut(c: Collation, v: Value)
    ensures Plain(Canon(c, v)) == Stringify(c, v)
    decreases v
  {
    match v {
      case Arr(items) =>
        StringifyArr(c, items);
        if items == [Undefined] {
          PlainArr([]);
          assert ItemTexts(c, items)[0] == [];
        } else {
          forall i | 0 <= i < |items| ensures PlainItems(ItemCanons(c, items))[i] == ItemTexts(c, items)[i] {
            CanonWrittenOut(c, items[i]);
          }
          PlainArr(ItemCanons(c, items));
          assert PlainItems(ItemCanons(c, items)) == ItemTexts(c, items);
        }
      case Obj(entries) =>
        StringifyObj(c, entries);
        var kept := Kept(c, entries);
        forall i | 0 <= i < |kept| ensures PlainEntries(EntryCanons(c, kept))[i] == EntryTexts(c, kept)[i] {
          assert kept[i] in kept && kept[i] in entries;
          CanonWrittenOut(c, kept[i].value);
        }
        PlainObj(EntryCanons(c, kept));
        assert PlainEntries(EntryCanons(c, kept)) == EntryTexts(c, kept);
      case _ =>
    }
  }

  /** The part of `t` before `rest` is no shorter than `text`, and only as long if it is `text`. */
  ghost predicate AtLeast(t: Text, text: Text, rest: Text) {
    && |rest| <= |t| && t[|t| - |rest|..] == rest && Clean(rest)
    && |text| + |rest| <= |t|
    && (|text| + |rest| == |t| ==> t == text + rest)
  }

  lemma AtLeastThen(t: Text, a: Text, mid: Text, b: Text, rest: Text)
    requires AtLeast(t, a, mid) && AtLeast(mid, b, rest)
    ensures AtLeast(t, a + b, rest)
  {
    assert a + (b + rest) == a + b + rest;
  }

  lemma CutAt(t: Text, k: nat)
    requires Clean(t) && k <= |t| && (k > 0 ==> !IsHigh(t[k - 1]))
    ensures AtLeast(t, t[..k], t[k..])
  {
    if 0 < k < |t| { assert IsHigh(t[k - 1]) <==> IsLow(t[k]); }
    CleanFrom(t, k);
    assert t == t[..k] + t[k..];
  }

  lemma CutUnit(t: Text)
    requires Clean(t) && t != [] && !IsHigh(t[0])
    ensures AtLeast(t, [t[0]], t[1..])
  {
    CutAt(t, 1);
    assert t[..1] == [t[0]];
  }

  lemma ContentAtLeast(t: Text, s: Text, rest: Text)
    requires Clean(t) && AtLeastContent(t, Escaped(s), rest)
    ensures AtLeast(t, Escaped(s) + [QUOTE], rest)
  {
    CutAt(t, |t| - |rest|);
  }

  lemma StringAtLeast(t: Text, s: Text, rest: Text)
    requires Clean(t) && t != [] && t[0] == QUOTE && Unquote(t[1..]) == Some((s, rest))
    ensures AtLeast(t, Quote(s), rest)
  {
    CutUnit(t);
    ShortestFrom(t[1..], s, rest);
    ContentAtLeast(t[1..], s, rest);
    AtLeastThen(t, [QUOTE], t[1..], Escaped(s) + [QUOTE], rest);
    Regroup([QUOTE], Escaped(s), [QUOTE]);
  }

  lemma WordAtLeast(t: Text, w: Text)
    requires Clean(t) && StartsWith(t, w) && w != [] && !IsHigh(w[|w| - 1])
    ensures AtLeast(t, w, t[|w|..])
  {
    assert t[..|w|][|w| - 1] == t[|w| - 1];
    CutAt(t, |w|);
  }

  lemma {:induction false} NumeralUnits(t: Text)
    ensures forall i | 0 <= i < NumeralLength(t) :: IsNumeralUnit(t[i])
  {
    if t != [] && IsNumeralUnit(t[0]) {
      NumeralUnits(t[1..]);
      forall i | 0 <= i < NumeralLength(t) ensures IsNumeralUnit(t[i]) {
        if i > 0 { assert t[i] == t[1..][i - 1]; }
      }
    }
  }

  lemma ScalarAtLeast(t: Text, w: Value, rest: Text)
    requires Clean(t) && ParseValue(t) == Some((w, rest)) && t[0] != LBRACKET && t[0] != LBRACE
    ensures AtLeast(t, Plain(w), rest)
  {
    if t[0] == QUOTE {
      StringAtLeast(t, w.s, rest);
    } else if StartsWith(t, Ascii("null")) {
      WordAtLeast(t, Ascii("null"));
    } else if StartsWith(t, Ascii("true")) {
      WordAtLeast(t, Ascii("true"));
    } else if StartsWith(t, Ascii("false")) {
      WordAtLeast(t, Ascii("false"));
    } else {
      NumeralUnits(t);
      CutAt(t, NumeralLength(t));
    }
  }

  /** An empty array or object. */
  lemma EmptyAtLeast(t: Text)
    requires Clean(t) && |t| >= 2 && !IsHigh(t[0]) && !IsHigh(t[1])
    ensures AtLeast(t, [t[0], t[1]], t[2..])
  {
    CutAt(t, 2);
    assert t[..2] == [t[0], t[1]];
  }

  lemma ArrAtLeast(t: Text, items: seq<Value>, rest: Text)
    requires Clean(t) && t != [] && t[0] == LBRACKET
    requires AtLeast(t[1..], Join(PlainItems(items)) + [RBRACKET], rest)
    ensures AtLeast(t, Plain(Arr(items)), rest)
  {
    var body := Join(PlainItems(items));
    PlainArr(items);
    CutUnit(t);
    AtLeastThen(t, [LBRACKET], t[1..], body + [RBRACKET], rest);
    Regroup([LBRACKET], body, [RBRACKET]);
  }

  lemma ObjAtLeast(t: Text, es: seq<Entry>, rest: Text)
    requires Clean(t) && t != [] && t[0] == LBRACE
    requires AtLeast(t[1..], Join(PlainEntries(es)) + [RBRACE], rest)
    ensures AtLeast(t, Plain(Obj(es)), rest)
  {
    var body := Join(PlainEntries(es));
    PlainObj(es);
    CutUnit(t);
    AtLeastThen(t, [LBRACE], t[1..], body + [RBRACE], rest);
    Regroup([LBRACE], body, [RBRACE]);
  }

  lemma {:induction false} ValueAtLeast(t: Text, w: Value, rest: Text)
    requires Clean(t) && ParseValue(t) == Some((w, rest))
    ensures AtLeast(t, Plain(w), rest)
    decreases |t|, 0
  {
    if t[0] != LBRACKET && t[0] != LBRACE {
      ScalarAtLeast(t, w, rest);
    } else if |t| > 1 && t[1] == (if t[0] == LBRACKET then RBRACKET else RBRACE) {
      EmptyAtLeast(t);
      PlainArr([]);
      PlainObj([]);
    } else {
      CutUnit(t);
      if t[0] == LBRACKET {
        ItemsAtLeast(t[1..], w.items, rest);
        ArrAtLeast(t, w.items, rest);
      } else {
        EntriesAtLeast(t[1..], w.entries, rest);
        ObjAtLeast(t, w.entries, rest);
      }
    }
  }

  lemma {:induction false} ItemAtLeast(t: Text, w: Value, rest: Text)
    requires Clean(t) && ParseItem(t) == Some((w, rest))
    ensures AtLeast(t, Plain(w), rest)
    decreases |t|, 1
  {
    if t != [] && (t[0] == COMMA || t[0] == RBRACKET) {
      assert t == [] + t;
    } else {
      ValueAtLeast(t, w, rest);
    }
  }

  /** A first part and what follows it, in the list of parts. */
  lemma JoinedAtLeast(t: Text, first: Text, mid: Text, parts: seq<Text>, more: seq<Text>, close: CodeUnit, rest: Text)
    requires AtLeast(t, first, mid) && mid != [] && parts == [first] + more
    requires if more == [] then AtLeast(mid, [close], rest)
             else mid[0] == COMMA && AtLeast(mid[1..], Join(more) + [close], rest)
    ensures AtLeast(t, Join(parts) + [close], rest)
  {
    if more == [] {
      AtLeastThen(t, first, mid, [close], rest);
    } else {
      CutUnit(mid);
      AtLeastThen(mid, [COMMA], mid[1..], Join(more) + [close], rest);
      AtLeastThen(t, first, mid, [COMMA] + (Join(more) + [close]), rest);
      JoinMore(first, parts, [close]);
      assert parts[1..] == more;
    }
  }

  /** The first item read, and what comes after it. */
  lemma SplitItems(t: Text, all: seq<Value>, rest: Text) returns (first: Value, mid: Text)
    requires ParseItems(t) == Some((all, rest))
    ensures ParseItem(t) == Some((first, mid)) && mid != [] && |mid| <= |t| && all == [first] + all[1..]
    ensures if mid[0] == RBRACKET then all[1..] == [] && rest == mid[1..]
            else mid[0] == COMMA && ParseItems(mid[1..]) == Some((all[1..], rest))
  {
    first, mid := ParseItem(t).value.0, ParseItem(t).value.1;
    if mid[0] != RBRACKET {
      var (more, after) := ParseItems(mid[1..]).value;
      assert ([first] + more)[1..] == more;
    }
  }

  lemma ItemsJoined(t: Text, v: Value, mid: Text, more: seq<Value>, rest: Text)
    requires AtLeast(t, Plain(v), mid) && mid != []
    requires if more == [] then mid[0] == RBRACKET && rest == mid[1..]
             else mid[0] == COMMA && AtLeast(mid[1..], Join(PlainItems(more)) + [RBRACKET], rest)
    ensures AtLeast(t, Join(PlainItems([v] + more)) + [RBRACKET], rest)
  {
    CutUnit(mid);
    PlainMore(v, more);
    JoinedAtLeast(t, Plain(v), mid, PlainItems([v] + more), PlainItems(more), RBRACKET, rest);
  }

  lemma {:induction false} ItemsAtLeast(t: Text, items: seq<Value>, rest: Text)
    requires Clean(t) && ParseItems(t) == Some((items, rest))
    ensures items != [] && AtLeast(t, Join(PlainItems(items)) + [RBRACKET], rest)
    decreases |t|, 2
  {
    var v, mid := SplitItems(t, items, rest);
    ItemAtLeast(t, v, mid);
    if mid[0] != RBRACKET {
      CutUnit(mid);
      ItemsAtLeast(mid[1..], items[1..], rest);
    }
    ItemsJoined(t, v, mid, items[1..], rest);
  }

  lemma PlainMore(v: Value, more: seq<Value>)
    ensures PlainItems([v] + more) == [Plain(v)] + PlainItems(more) && |PlainItems(more)| == |more|
  {
  }

  lemma {:induction false} EntryAtLeast(t: Text, e: Entry, rest: Text)
    requires Clean(t) && ParseEntry(t) == Some((e, rest))
    ensures AtLeast(t, PlainEntry(e), rest)
    decreases |t|, 1
  {
    var (key, mid) := Unquote(t[1..]).value;
    StringAtLeast(t, key, mid);
    CutUnit(mid);
    ValueAtLeast(mid[1..], e.value, rest);
    AtLeastThen(mid, [COLON], mid[1..], Plain(e.value), rest);
    AtLeastThen(t, Quote(key), mid, [COLON] + Plain(e.value), rest);
    Regroup(Quote(key), [COLON], Plain(e.value));
  }

  /** The first entry read, and what comes after it. */
  lemma SplitEntries(t: Text, all: seq<Entry>, rest: Text) returns (first: Entry, mid: Text)
    requires ParseEntries(t) == Some((all, rest))
    ensures ParseEntry(t) == Some((first, mid)) && mid != [] && |mid| <= |t| && all == [first] + all[1..]
    ensures if mid[0] == RBRACE then all[1..] == [] && rest == mid[1..]
            else mid[0] == COMMA && ParseEntries(mid[1..]) == Some((all[1..], rest))
  {
    first, mid := ParseEntry(t).value.0, ParseEntry(t).value.1;
    if mid[0] != RBRACE {
      var (more, after) := ParseEntries(mid[1..]).value;
      assert ([first] + more)[1..] == more;
    }
  }

  lemma EntriesJoined(t: Text, e: Entry, mid: Text, more: seq<Entry>, rest: Text)
    requires AtLeast(t, PlainEntry(e), mid) && mid != []
    requires if more == [] then mid[0] == RBRACE && rest == mid[1..]
             else mid[0] == COMMA && AtLeast(mid[1..], Join(PlainEntries(more)) + [RBRACE], rest)
    ensures AtLeast(t, Join(PlainEntries([e] + more)) + [RBRACE], rest)
  {
    CutUnit(mid);
    PlainMoreEntries(e, more);
    JoinedAtLeast(t, PlainEntry(e), mid, PlainEntries([e] + more), PlainEntries(more), RBRACE, rest);
  }

  lemma {:induction false} EntriesAtLeast(t: Text, es: seq<Entry>, rest: Text)
    requires Clean(t) && ParseEntries(t) == Some((es, rest))
    ensures es != [] && AtLeast(t, Join(PlainEntries(es)) + [RBRACE], rest)
    decreases |t|, 2
  {
    var e, mid := SplitEntries(t, es, rest);
    EntryAtLeast(t, e, mid);
    if mid[0] != RBRACE {
      CutUnit(mid);
      EntriesAtLeast(mid[1..], es[1..], rest);
    }
    EntriesJoined(t, e, mid, es[1..], rest);
  }

  lemma PlainMoreEntries(e: Entry, more: seq<Entry>)
    ensures PlainEntries([e] + more) == [PlainEntry(e)] + PlainEntries(more) && |PlainEntries(more)| == |more|
  {
  }

  /** The printed text reads back as the canonical form of the value, every other text that does is longer. */
  lemma StringifyIsShortest(c: Collation, v: Value, t: Text)
    requires Valid(v) && Clean(t) && Parse(t) == Some(Canon(c, v)) && t != Stringify(c, v)
    ensures |Stringify(c, v)| < |t|
  {
    CanonWrittenOut(c, v);
    if t != [] {
      ValueAtLeast(t, Canon(c, v), []);
      assert Plain(Canon(c, v)) + [] == Plain(Canon(c, v));
    }
  }
}
