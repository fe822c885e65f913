/** The canonical printer used for every signed payload, and a reader that undoes it. */
module CanonicalJson {
  import opened Common
  import opened JsonText

  /** A JavaScript value as the printer sees it. A finite number stands for its own decimal text;
      `entries` are in the order of Object.entries. */
  datatype Value =
    | Undefined
    | Null
    | Bool(b: bool)
    | Num(digits: Text)
    | Str(s: Text)
    | Arr(items: seq<Value>)
    | Obj(entries: seq<Entry>)

  datatype Entry = Entry(key: Text, value: Value)

  /** localeCompare as a collation weight: comparing weights is a total preorder on keys, and two
      different keys may weigh the same. */
  type Collation = Text -> real

  predicate IsNumeralUnit(u: CodeUnit) {
    0x30 <= u < 0x3A || u == 0x2D || u == 0x2B || u == 0x2E || u == 0x65
  }

  predicate IsNumeral(t: Text) {
    && t != []
    && (t[0] == 0x2D || 0x30 <= t[0] < 0x3A)
    && forall u | u in t :: IsNumeralUnit(u)
  }

  predicate DistinctKeys(es: seq<Entry>) {
    forall i, j | 0 <= i < j < |es| :: es[i].key != es[j].key
  }

  /** The number that a run of decimal digits stands for. */
  function Number(t: Text): nat {
    if t == [] then 0
    else
      var u := t[|t| - 1];
      10 * Number(t[..|t| - 1]) + if 0x30 <= u < 0x3A then u - 0x30 else 0
  }

  /** An array index: the decimal text, without leading zeros, of a number below 2^32 - 1. */
  predicate IsIndex(t: Text) {
    && t != [] && (forall u | u in t :: 0x30 <= u < 0x3A) && (t[0] == 0x30 ==> |t| == 1)
    && Number(t) < 0xFFFF_FFFF
  }

  /** Object.entries lists array indices first, in ascending order. */
  predicate Listed(es: seq<Entry>) {
    forall i, j | 0 <= i < j < |es| && IsIndex(es[j].key) :: IsIndex(es[i].key) && Number(es[i].key) < Number(es[j].key)
  }

  /** What every JavaScript value satisfies: numbers have number text, objects have distinct keys in the order of
      Object.entries. */
  predicate Valid(v: Value) {
    match v
    case Num(digits) => IsNumeral(digits)
    case Arr(items) => forall i | 0 <= i < |items| :: Valid(items[i])
    case Obj(entries) =>
      DistinctKeys(entries) && Listed(entries) && forall i | 0 <= i < |entries| :: Valid(entries[i].value)
    case _ => true
  }

  // ---------- filter and stable sort of the entries ----------

  function Defined(es: seq<Entry>): (r: seq<Entry>)
    ensures forall e :: e in r <==> e in es && !e.value.Undefined?
    ensures DistinctKeys(es) ==> DistinctKeys(r)
  {
    if es == [] then []
    else
      var rest := Defined(es[1..]);
      assert es == [es[0]] + es[1..];
      assert forall e | e in rest :: e in es[1..];
      if es[0].value.Undefined? then rest else [es[0]] + rest
  }

  /** Puts `e` in front of the first entry that does not sort strictly before it. */
  function Insert(c: Collation, e: Entry, es: seq<Entry>): (r: seq<Entry>)
    ensures forall x :: x in r <==> x == e || x in es
    ensures |r| == |es| + 1
  {
    if es == [] || c(e.key) <= c(es[0].key) then [e] + es
    else
      assert es == [es[0]] + es[1..];
      [es[0]] + Insert(c, e, es[1..])
  }

  /** Array.prototype.sort by key: stable. */
  function SortByKey(c: Collation, es: seq<Entry>): (r: seq<Entry>)
    ensures forall x :: x in r <==> x in es
    ensures |r| == |es|
  {
    if es == [] then []
    else
      assert es == [es[0]] + es[1..];
      Insert(c, es[0], SortByKey(c, es[1..]))
  }

  function Kept(c: Collation, es: seq<Entry>): (r: seq<Entry>)
    ensures forall e :: e in r <==> e in es && !e.value.Undefined?
  {
    SortByKey(c, Defined(es))
  }

  // ---------- printing ----------

  function Join(parts: seq<Text>): Text {
    if parts == [] then []
    else if |parts| == 1 then parts[0]
    else parts[0] + [COMMA] + Join(parts[1..])
  }

  /** stableStringify. An undefined value prints nothing, which is how `join` renders it in an array. */
  function Stringify(c: Collation, v: Value): Text
    decreases v
  {
    match v
    case Undefined => []
    case Null => Ascii("null")
    case Bool(b) => if b then Ascii("true") else Ascii("false")
    case Num(digits) => digits
    case Str(s) => Quote(s)
    case Arr(items) =>
      [LBRACKET] + Join(seq(|items|, i requires 0 <= i < |items| => Stringify(c, items[i]))) + [RBRACKET]
    case Obj(entries) =>
      var kept := Kept(c, entries);
      [LBRACE] + Join(seq(|kept|, i requires 0 <= i < |kept| =>
        assert kept[i] in entries;
        Quote(kept[i].key) + [COLON] + Stringify(c, kept[i].value))) + [RBRACE]
  }

  /** What the text stands for: undefined entries gone, keys sorted, and an array holding a single
      undefined read as empty. */
  function Canon(c: Collation, v: Value): Value
    decreases v
  {
    match v
    case Arr(items) =>
      if items == [Undefined] then Arr([])
      else Arr(seq(|items|, i requires 0 <= i < |items| => Canon(c, items[i])))
    case Obj(entries) =>
      var kept := Kept(c, entries);
      Obj(seq(|kept|, i requires 0 <= i < |kept| =>
        assert kept[i] in entries;
        Entry(kept[i].key, Canon(c, kept[i].value))))
    case _ => v
  }

  // ---------- reading ----------

  predicate StartsWith(t: Text, p: Text) {
    |p| <= |t| && t[..|p|] == p
  }

  function NumeralLength(t: Text): (n: nat)
    ensures n <= |t|
  {
    if t == [] || !IsNumeralUnit(t[0]) then 0 else 1 + NumeralLength(t[1..])
  }

  function ParseValue(t: Text): (r: Option<(Value, Text)>)
    ensures r.Some? ==> |r.value.1| < |t|
    decreases |t|, 0
  {
    if t == [] then None
    else if t[0] == QUOTE then
      match Unquote(t[1..])
      case Some((s, rest)) => Some((Str(s), rest))
      case None => None
    else if t[0] == LBRACKET then
      if |t| > 1 && t[1] == RBRACKET then Some((Arr([]), t[2..]))
      else
        match ParseItems(t[1..])
        case Some((items, rest)) => Some((Arr(items), rest))
        case None => None
    else if t[0] == LBRACE then
      if |t| > 1 && t[1] == RBRACE then Some((Obj([]), t[2..]))
      else
        match ParseEntries(t[1..])
        case Some((entries, rest)) => Some((Obj(entries), rest))
        case None => None
    else if StartsWith(t, Ascii("null")) then Some((Null, t[4..]))
    else if StartsWith(t, Ascii("true")) then Some((Bool(true), t[4..]))
    else if StartsWith(t, Ascii("false")) then Some((Bool(false), t[5..]))
    else
      var n := NumeralLength(t);
      if n > 0 then Some((Num(t[..n]), t[n..])) else None
  }

  /** An array element; nothing before a comma or bracket stands for undefined. */
  function ParseItem(t: Text): (r: Option<(Value, Text)>)
    ensures r.Some? ==> |r.value.1| <= |t|
    decreases |t|, 1
  {
    if t != [] && (t[0] == COMMA || t[0] == RBRACKET) then Some((Undefined, t)) else ParseValue(t)
  }

  function ParseItems(t: Text): (r: Option<(seq<Value>, Text)>)
    ensures r.Some? ==> |r.value.1| < |t|
    decreases |t|, 2
  {
    match ParseItem(t)
    case None => None
    case Some((v, rest)) =>
      if rest == [] then None
      else if rest[0] == RBRACKET then Some(([v], rest[1..]))
      else if rest[0] != COMMA then None
      else
        match ParseItems(rest[1..])
        case None => None
        case Some((vs, after)) => Some(([v] + vs, after))
  }

  function ParseEntries(t: Text): (r: Option<(seq<Entry>, Text)>)
    ensures r.Some? ==> |r.value.1| < |t|
    decreases |t|, 2
  {
    match ParseEntry(t)
    case None => None
    case Some((e, rest)) =>
      if rest == [] then None
      else if rest[0] == RBRACE then Some(([e], rest[1..]))
      else if rest[0] != COMMA then None
      else
        match ParseEntries(rest[1..])
        case None => None
        case Some((es, after)) => Some(([e] + es, after))
  }

  function ParseEntry(t: Text): (r: Option<(Entry, Text)>)
    ensures r.Some? ==> |r.value.1| < |t|
    decreases |t|, 1
  {
    if t == [] || t[0] != QUOTE then None
    else
      match Unquote(t[1..])
      case None => None
      case Some((key, rest)) =>
        if rest == [] || rest[0] != COLON then None
        else
          match ParseValue(rest[1..])
          case None => None
          case Some((v, after)) => Some((Entry(key, v), after))
  }

  // ---------- the reader undoes the printer ----------

  /** What may follow a printed value inside a larger text. */
  predicate Delimited(rest: Text) {
    rest == [] || rest[0] == COMMA || rest[0] == RBRACKET || rest[0] == RBRACE
  }

  function ItemTexts(c: Collation, items: seq<Value>): seq<Text> {
    seq(|items|, i requires 0 <= i < |items| => Stringify(c, items[i]))
  }

  function ItemCanons(c: Collation, items: seq<Value>): seq<Value> {
    seq(|items|, i requires 0 <= i < |items| => Canon(c, items[i]))
  }

  function EntryText(c: Collation, e: Entry): Text {
    Quote(e.key) + [COLON] + Stringify(c, e.value)
  }

  function EntryTexts(c: Collation, es: seq<Entry>): seq<Text> {
    seq(|es|, i requires 0 <= i < |es| => EntryText(c, es[i]))
  }

  function EntryCanons(c: Collation, es: seq<Entry>): seq<Entry> {
    seq(|es|, i requires 0 <= i < |es| => Entry(es[i].key, Canon(c, es[i].value)))
  }

  lemma StringifyArr(c: Collation, items: seq<Value>)
    ensures Stringify(c, Arr(items)) == [LBRACKET] + Join(ItemTexts(c, items)) + [RBRACKET]
    ensures items != [Undefined] ==> Canon(c, Arr(items)) == Arr(ItemCanons(c, items))
  {
    var v := Arr(items);
    assert seq(|v.items|, i requires 0 <= i < |v.items| => Stringify(c, v.items[i])) == ItemTexts(c, items);
    assert seq(|v.items|, i requires 0 <= i < |v.items| => Canon(c, v.items[i])) == ItemCanons(c, items);
  }

  lemma StringifyObj(c: Collation, entries: seq<Entry>)
    ensures Stringify(c, Obj(entries)) == [LBRACE] + Join(EntryTexts(c, Kept(c, entries))) + [RBRACE]
    ensures Canon(c, Obj(entries)) == Obj(EntryCanons(c, Kept(c, entries)))
  {
    var kept := Kept(c, entries);
    assert seq(|kept|, i requires 0 <= i < |kept| =>
      assert kept[i] in entries;
      Quote(kept[i].key) + [COLON] + Stringify(c, kept[i].value)) == EntryTexts(c, kept);
    assert seq(|kept|, i requires 0 <= i < |kept| =>
      assert kept[i] in entries;
      Entry(kept[i].key, Canon(c, kept[i].value))) == EntryCanons(c, kept);
  }

  lemma {:induction false} NumeralLengthOf(t: Text, rest: Text)
    requires forall u | u in t :: IsNumeralUnit(u)
    requires Delimited(rest)
    ensures NumeralLength(t + rest) == |t|
  {
    if t == [] {
      assert t + rest == rest;
    } else {
      NumeralLengthOf(t[1..], rest);
      assert (t + rest)[1..] == t[1..] + rest;
    }
  }

  lemma ParseNumeral(t: Text, rest: Text)
    requires IsNumeral(t) && Delimited(rest)
    ensures ParseValue(t + rest) == Some((Num(t), rest))
  {
    NumeralLengthOf(t, rest);
    var all := t + rest;
    assert all[0] == t[0];
    assert all[..|t|] == t && all[|t|..] == rest;
    assert Ascii("null")[0] == 0x6E && Ascii("true")[0] == 0x74 && Ascii("false")[0] == 0x66;
    assert all[..1][0] == all[0];
  }

  lemma ParseWord(rest: Text)
    ensures ParseValue(Ascii("null") + rest) == Some((Null, rest))
    ensures ParseValue(Ascii("true") + rest) == Some((Bool(true), rest))
    ensures ParseValue(Ascii("false") + rest) == Some((Bool(false), rest))
  {
    var n, t, f := Ascii("null"), Ascii("true"), Ascii("false");
    assert (n + rest)[..4] == n && (n + rest)[4..] == rest;
    assert (t + rest)[..4] == t && (t + rest)[4..] == rest;
    assert (f + rest)[..5] == f && (f + rest)[5..] == rest;
    assert n[0] == 0x6E && t[0] == 0x74 && f[0] == 0x66;
    assert (t + rest)[0] == 0x74 && (f + rest)[0] == 0x66;
  }

  /** Where a printed value may start: never with a closing bracket or a comma. */
  lemma FirstUnit(c: Collation, v: Value)
    requires Valid(v) && !v.Undefined?
    ensures var t := Stringify(c, v);
      t != [] && t[0] != COMMA && t[0] != RBRACKET && t[0] != RBRACE
  {
    assert Ascii("null")[0] == 0x6E && Ascii("true")[0] == 0x74 && Ascii("false")[0] == 0x66;
    if v.Arr? {
      StringifyArr(c, v.items);
    } else if v.Obj? {
      StringifyObj(c, v.entries);
    }
  }

  // One step of each reader, so that the induction below need not unfold it.

  lemma ReadArr(body: Text, items: seq<Value>, rest: Text)
    requires body != [] && body[0] != RBRACKET && ParseItems(body) == Some((items, rest))
    ensures ParseValue([LBRACKET] + body) == Some((Arr(items), rest))
  {
    assert ([LBRACKET] + body)[1..] == body;
  }

  lemma ReadObj(body: Text, entries: seq<Entry>, rest: Text)
    requires body != [] && body[0] != RBRACE && ParseEntries(body) == Some((entries, rest))
    ensures ParseValue([LBRACE] + body) == Some((Obj(entries), rest))
  {
    assert ([LBRACE] + body)[1..] == body;
  }

  lemma ReadEmpty(rest: Text)
    ensures ParseValue([LBRACKET] + ([RBRACKET] + rest)) == Some((Arr([]), rest))
    ensures ParseValue([LBRACE] + ([RBRACE] + rest)) == Some((Obj([]), rest))
  {
    assert ([LBRACKET] + ([RBRACKET] + rest))[2..] == rest;
    assert ([LBRACE] + ([RBRACE] + rest))[2..] == rest;
  }

  lemma ReadEntry(key: Text, text: Text, v: Value, rest: Text)
    requires ParseValue(text) == Some((v, rest))
    ensures ParseEntry(Quote(key) + ([COLON] + text)) == Some((Entry(key, v), rest))
  {
    var t := Quote(key) + ([COLON] + text);
    QuoteRoundTrip(key, [COLON] + text);
    assert t[0] == QUOTE;
    assert ([COLON] + text)[1..] == text;
  }

  lemma ReadItems(t: Text, v: Value, after: Text, later: Text, vs: seq<Value>, rest: Text)
    requires ParseItem(t) == Some((v, after))
    requires
      || (after == [RBRACKET] + rest && vs == [])
      || (after == [COMMA] + later && ParseItems(later) == Some((vs, rest)))
    ensures ParseItems(t) == Some(([v] + vs, rest))
  {
    if after[0] == RBRACKET {
      assert after[1..] == rest && [v] + vs == [v];
    } else {
      assert after[1..] == later;
    }
  }

  lemma ReadEntries(t: Text, e: Entry, after: Text, later: Text, es: seq<Entry>, rest: Text)
    requires ParseEntry(t) == Some((e, after))
    requires
      || (after == [RBRACE] + rest && es == [])
      || (after == [COMMA] + later && ParseEntries(later) == Some((es, rest)))
    ensures ParseEntries(t) == Some(([e] + es, rest))
  {
    if after[0] == RBRACE {
      assert after[1..] == rest && [e] + es == [e];
    } else {
      assert after[1..] == later;
    }
  }

  lemma JoinMore(first: Text, texts: seq<Text>, tail: Text)
    requires texts != [] && texts[0] == first
    ensures |texts| == 1 ==> Join(texts) + tail == first + tail
    ensures |texts| > 1 ==> Join(texts) + tail == first + ([COMMA] + (Join(texts[1..]) + tail))
  {
    if |texts| > 1 {
      assert Join(texts) == first + [COMMA] + Join(texts[1..]);
    }
  }

  /** Reading the printed form of any value gives its canonical form and leaves what follows. */
  lemma {:induction false} RoundTrip(c: Collation, v: Value, rest: Text)
    requires Valid(v) && !v.Undefined? && Delimited(rest)
    ensures ParseValue(Stringify(c, v) + rest) == Some((Canon(c, v), rest))
    decreases v, 0
  {
    match v {
      case Num(digits) => ParseNumeral(digits, rest);
      case Str(s) =>
        QuoteRoundTrip(s, rest);
        assert (Quote(s) + rest)[0] == QUOTE;
      case Arr(items) => RoundTripArr(c, items, rest);
      case Obj(entries) => RoundTripObj(c, entries, rest);
      case _ => ParseWord(rest);
    }
  }

  lemma {:induction false} RoundTripArr(c: Collation, items: seq<Value>, rest: Text)
    requires Valid(Arr(items)) && Delimited(rest)
    ensures ParseValue(Stringify(c, Arr(items)) + rest) == Some((Canon(c, Arr(items)), rest))
    decreases items, 3
  {
    StringifyArr(c, items);
    var body := Join(ItemTexts(c, items)) + ([RBRACKET] + rest);
    Regroup([LBRACKET] + Join(ItemTexts(c, items)), [RBRACKET], rest);
    Regroup([LBRACKET], Join(ItemTexts(c, items)), [RBRACKET] + rest);
    if items == [] || items == [Undefined] {
      assert body == [RBRACKET] + rest;
      ReadEmpty(rest);
      assert ItemCanons(c, []) == [];
    } else {
      RoundTripItems(c, items, rest);
      JoinFirst(c, items, [RBRACKET] + rest);
      ReadArr(body, ItemCanons(c, items), rest);
    }
  }

  /** The text after an opening bracket begins with the closing one only for [] and [undefined]. */
  lemma JoinFirst(c: Collation, items: seq<Value>, tail: Text)
    requires items != [] && items != [Undefined] && Valid(Arr(items))
    ensures var t := Join(ItemTexts(c, items)) + tail; t != [] && t[0] != RBRACKET
  {
    var texts := ItemTexts(c, items);
    assert texts[0] == Stringify(c, items[0]);
    if items[0].Undefined? {
      assert |items| > 1;
      assert Join(texts) == [] + [COMMA] + Join(texts[1..]);
    } else {
      FirstUnit(c, items[0]);
      assert Join(texts)[0] == texts[0][0];
    }
  }

  lemma {:induction false} RoundTripItem(c: Collation, v: Value, rest: Text)
    requires Valid(v) && rest != [] && (rest[0] == COMMA || rest[0] == RBRACKET)
    ensures ParseItem(Stringify(c, v) + rest) == Some((Canon(c, v), rest))
    decreases v, 1
  {
    if v.Undefined? {
      assert Stringify(c, v) + rest == rest;
    } else {
      FirstUnit(c, v);
      RoundTrip(c, v, rest);
    }
  }

  lemma {:induction false} RoundTripItems(c: Collation, items: seq<Value>, rest: Text)
    requires items != [] && Valid(Arr(items))
    ensures ParseItems(Join(ItemTexts(c, items)) + ([RBRACKET] + rest)) == Some((ItemCanons(c, items), rest))
    decreases items, 2
  {
    var texts, tail := ItemTexts(c, items), [RBRACKET] + rest;
    var v, more := items[0], items[1..];
    assert ItemCanons(c, items) == [Canon(c, v)] + ItemCanons(c, more);
    JoinMore(Stringify(c, v), texts, tail);
    if more == [] {
      RoundTripItem(c, v, tail);
      ReadItems(Join(texts) + tail, Canon(c, v), tail, [], [], rest);
    } else {
      assert texts[1..] == ItemTexts(c, more);
      var later := Join(ItemTexts(c, more)) + tail;
      RoundTripItem(c, v, [COMMA] + later);
      RoundTripItems(c, more, rest);
      ReadItems(Join(texts) + tail, Canon(c, v), [COMMA] + later, later, ItemCanons(c, more), rest);
    }
  }

  lemma EntriesFirst(c: Collation, kept: seq<Entry>, tail: Text)
    requires kept != []
    ensures var t := Join(EntryTexts(c, kept)) + tail; t != [] && t[0] == QUOTE
  {
    JoinMore(EntryText(c, kept[0]), EntryTexts(c, kept), tail);
  }

  lemma {:induction false} RoundTripObj(c: Collation, entries: seq<Entry>, rest: Text)
    requires Valid(Obj(entries)) && Delimited(rest)
    ensures ParseValue(Stringify(c, Obj(entries)) + rest) == Some((Canon(c, Obj(entries)), rest))
    decreases entries, 3
  {
    StringifyObj(c, entries);
    var kept := Kept(c, entries);
    var body := Join(EntryTexts(c, kept)) + ([RBRACE] + rest);
    Regroup([LBRACE] + Join(EntryTexts(c, kept)), [RBRACE], rest);
    Regroup([LBRACE], Join(EntryTexts(c, kept)), [RBRACE] + rest);
    if kept == [] {
      assert body == [RBRACE] + rest;
      ReadEmpty(rest);
      assert EntryCanons(c, kept) == [];
    } else {
      RoundTripEntries(c, entries, kept, rest);
      EntriesFirst(c, kept, [RBRACE] + rest);
      ReadObj(body, EntryCanons(c, kept), rest);
    }
  }

  lemma {:induction false} RoundTripEntry(c: Collation, e: Entry, rest: Text)
    requires Valid(e.value) && !e.value.Undefined? && Delimited(rest)
    ensures ParseEntry(EntryText(c, e) + rest) == Some((Entry(e.key, Canon(c, e.value)), rest))
    decreases e.value, 1
  {
    var text := Stringify(c, e.value) + rest;
    RoundTrip(c, e.value, rest);
    ReadEntry(e.key, text, Canon(c, e.value), rest);
    Regroup(Quote(e.key) + [COLON], Stringify(c, e.value), rest);
    Regroup(Quote(e.key), [COLON], text);
  }

  lemma TextsOf(c: Collation, kept: seq<Entry>)
    requires kept != []
    ensures EntryTexts(c, kept)[0] == EntryText(c, kept[0])
    ensures EntryTexts(c, kept)[1..] == EntryTexts(c, kept[1..])
    ensures EntryCanons(c, kept) == [Entry(kept[0].key, Canon(c, kept[0].value))] + EntryCanons(c, kept[1..])
  {
  }

  lemma {:induction false} RoundTripEntries(c: Collation, entries: seq<Entry>, kept: seq<Entry>, rest: Text)
    requires Valid(Obj(entries)) && kept != []
    requires forall e | e in kept :: e in entries && !e.value.Undefined?
    ensures ParseEntries(Join(EntryTexts(c, kept)) + ([RBRACE] + rest)) == Some((EntryCanons(c, kept), rest))
    decreases entries, 2, |kept|
  {
    var texts, tail := EntryTexts(c, kept), [RBRACE] + rest;
    var e, more := kept[0], kept[1..];
    var out := Entry(e.key, Canon(c, e.value));
    TextsOf(c, kept);
    assert e in kept && e in entries;
    JoinMore(EntryText(c, e), texts, tail);
    if more == [] {
      RoundTripEntry(c, e, tail);
      ReadEntries(Join(texts) + tail, out, tail, [], [], rest);
      assert EntryCanons(c, more) == [];
    } else {
      var later := Join(EntryTexts(c, more)) + tail;
      RoundTripEntry(c, e, [COMMA] + later);
      assert forall x | x in more :: x in kept;
      RoundTripEntries(c, entries, more, rest);
      ReadEntries(Join(texts) + tail, out, [COMMA] + later, later, EntryCanons(c, more), rest);
    }
  }

  /** Reads a whole text; only undefined prints nothing. */
  function Parse(t: Text): Option<Value> {
    if t == [] then Some(Undefined)
    else
      match ParseValue(t)
      case Some((v, rest)) => if rest == [] then Some(v) else None
      case None => None
  }

  /** Printing is undone by the reader, for every value. */
  lemma PrintThenParse(c: Collation, v: Value)
    requires Valid(v)
    ensures Parse(Stringify(c, v)) == Some(Canon(c, v))
  {
    if !v.Undefined? {
      RoundTrip(c, v, []);
      FirstUnit(c, v);
      assert Stringify(c, v) + [] == Stringify(c, v);
    }
  }
}
