/** The texts a device signs: what each one determines, and why no two kinds can be confused. */
module SigningMessages {
  import opened Common
  import opened JsonText
  import opened CanonicalJson
  import KeyOrder

  const LOGIN := Ascii("LeadSignal extension login v1")
  const INGESTION := Ascii("LeadSignal extension ingestion v1")
  const SOURCE_CONFIG := Ascii("LeadSignal extension source config v1")

  /** A payload inside a template literal. */
  function Payload(c: Collation, v: Value): Text {
    if v.Undefined? then Ascii("undefined") else Stringify(c, v)
  }

  function LoginMessage(challengeId: Text, nonce: Text): Text {
    LOGIN + [NEWLINE] + (challengeId + [NEWLINE] + nonce)
  }

  function IngestionMessage(c: Collation, timestamp: Text, nonce: Text, batch: Value): Text {
    INGESTION + [NEWLINE] + Body(c, timestamp, nonce, batch)
  }

  function SourceConfigMessage(c: Collation, timestamp: Text, nonce: Text, context: Value): Text {
    SOURCE_CONFIG + [NEWLINE] + Body(c, timestamp, nonce, context)
  }

  function Body(c: Collation, timestamp: Text, nonce: Text, payload: Value): Text {
    timestamp + [NEWLINE] + nonce + [NEWLINE] + Payload(c, payload)
  }

  predicate OneLine(t: Text) {
    NEWLINE !in t
  }

  // ---------- canonical text has no raw newline ----------

  lemma {:induction false} JoinOneLine(parts: seq<Text>)
    requires forall i | 0 <= i < |parts| :: OneLine(parts[i])
    ensures OneLine(Join(parts))
  {
    if |parts| > 1 {
      JoinOneLine(parts[1..]);
    }
  }

  lemma {:induction false} CanonicalTextIsOneLine(c: Collation, v: Value)
    requires Valid(v)
    ensures OneLine(Stringify(c, v))
    decreases v
  {
    match v {
      case Str(s) => QuotedHasNoControl(s);
      case Arr(items) =>
        StringifyArr(c, items);
        forall i | 0 <= i < |items| ensures OneLine(ItemTexts(c, items)[i]) {
          CanonicalTextIsOneLine(c, items[i]);
        }
        JoinOneLine(ItemTexts(c, items));
      case Obj(entries) =>
        StringifyObj(c, entries);
        var kept := Kept(c, entries);
        forall i | 0 <= i < |kept| ensures OneLine(EntryTexts(c, kept)[i]) {
          assert kept[i] in kept && kept[i] in entries;
          CanonicalTextIsOneLine(c, kept[i].value);
          QuotedHasNoControl(kept[i].key);
        }
        JoinOneLine(EntryTexts(c, kept));
      case _ =>
    }
  }

  lemma PayloadIsOneLine(c: Collation, v: Value)
    requires Valid(v)
    ensures OneLine(Payload(c, v))
  {
    CanonicalTextIsOneLine(c, v);
  }

  /** Payload texts agree exactly when the canonical forms do, undefined included. */
  lemma SamePayloadIffSameCanon(c: Collation, v: Value, w: Value)
    requires Valid(v) && Valid(w)
    ensures Payload(c, v) == Payload(c, w) <==> Canon(c, v) == Canon(c, w)
  {
    KeyOrder.SameTextIffSameCanon(c, v, w);
    PrintThenParse(c, v);
    PrintThenParse(c, w);
    var u := Ascii("undefined");
    assert u[0] == 0x75 && Ascii("null")[0] == 0x6E && Ascii("true")[0] == 0x74 && Ascii("false")[0] == 0x66;
    assert u[..4][0] == 0x75 && u[..5][0] == 0x75;
    assert Parse(u) == None;
  }

  // ---------- splitting at newlines ----------

  /** Everything before the first newline and everything after the last one is determined. */
  lemma SplitFirst(a: Text, b: Text, a': Text, b': Text)
    requires OneLine(a) && OneLine(a') && a + [NEWLINE] + b == a' + [NEWLINE] + b'
    ensures a == a' && b == b'
  {
    var t, t' := a + [NEWLINE] + b, a' + [NEWLINE] + b';
    assert t[|a|] == NEWLINE && t'[|a'|] == NEWLINE;
    assert forall i | 0 <= i < |a| :: t[i] == a[i] && a[i] in a;
    assert forall i | 0 <= i < |a'| :: t'[i] == a'[i] && a'[i] in a';
    assert |a| == |a'|;
    assert a == t[..|a|] && a' == t'[..|a'|];
    assert b == t[|a| + 1..] && b' == t'[|a'| + 1..];
  }

  /** The last newline of a text that ends with a newline and one line. */
  lemma LastNewlineAt(a: Text, b: Text)
    requires OneLine(b)
    ensures var t := a + [NEWLINE] + b; t[|a|] == NEWLINE && forall i | |a| < i < |t| :: t[i] != NEWLINE
  {
    var t := a + [NEWLINE] + b;
    forall i | |a| < i < |t| ensures t[i] != NEWLINE {
      assert t[i] == b[i - |a| - 1] && b[i - |a| - 1] in b;
    }
  }

  lemma SplitLast(a: Text, b: Text, a': Text, b': Text)
    requires OneLine(b) && OneLine(b') && a + [NEWLINE] + b == a' + [NEWLINE] + b'
    ensures a == a' && b == b'
  {
    var t := a + [NEWLINE] + b;
    LastNewlineAt(a, b);
    LastNewlineAt(a', b');
    assert |a| == |a'|;
    assert a == t[..|a|] && a' == t[..|a|];
    assert b == t[|a| + 1..] && b' == t[|a| + 1..];
  }

  // ---------- what a message determines ----------

  lemma SamePrefix(p: Text, a: Text, b: Text)
    ensures p + a == p + b <==> a == b
  {
    assert (p + a)[|p|..] == a && (p + b)[|p|..] == b;
  }

  /** With newline-free timestamps, equal bodies mean equal timestamp, nonce and payload, whatever the
      nonces contain. */
  lemma BodyDetermines(c: Collation, t: Text, n: Text, v: Value, t': Text, n': Text, v': Value)
    requires Valid(v) && Valid(v') && OneLine(t) && OneLine(t')
    ensures Body(c, t, n, v) == Body(c, t', n', v') <==> t == t' && n == n' && Canon(c, v) == Canon(c, v')
  {
    SamePayloadIffSameCanon(c, v, v');
    if Body(c, t, n, v) == Body(c, t', n', v') {
      PayloadIsOneLine(c, v);
      PayloadIsOneLine(c, v');
      SplitLast(t + [NEWLINE] + n, Payload(c, v), t' + [NEWLINE] + n', Payload(c, v'));
      SplitFirst(t, n, t', n');
    }
  }

  /** A signed ingestion message stands for one timestamp, nonce and batch. */
  lemma IngestionDetermines(c: Collation, t: Text, n: Text, v: Value, t': Text, n': Text, v': Value)
    requires Valid(v) && Valid(v') && OneLine(t) && OneLine(t')
    ensures IngestionMessage(c, t, n, v) == IngestionMessage(c, t', n', v')
       <==> t == t' && n == n' && Canon(c, v) == Canon(c, v')
  {
    SamePrefix(INGESTION + [NEWLINE], Body(c, t, n, v), Body(c, t', n', v'));
    BodyDetermines(c, t, n, v, t', n', v');
  }

  /** The same for a signed source-config message. */
  lemma SourceConfigDetermines(c: Collation, t: Text, n: Text, v: Value, t': Text, n': Text, v': Value)
    requires Valid(v) && Valid(v') && OneLine(t) && OneLine(t')
    ensures SourceConfigMessage(c, t, n, v) == SourceConfigMessage(c, t', n', v')
       <==> t == t' && n == n' && Canon(c, v) == Canon(c, v')
  {
    SamePrefix(SOURCE_CONFIG + [NEWLINE], Body(c, t, n, v), Body(c, t', n', v'));
    BodyDetermines(c, t, n, v, t', n', v');
  }

  lemma LoginDetermines(id: Text, n: Text, id': Text, n': Text)
    requires OneLine(id) && OneLine(id')
    ensures LoginMessage(id, n) == LoginMessage(id', n') <==> id == id' && n == n'
  {
    SamePrefix(LOGIN + [NEWLINE], id + [NEWLINE] + n, id' + [NEWLINE] + n');
    if id + [NEWLINE] + n == id' + [NEWLINE] + n' {
      SplitFirst(id, n, id', n');
    }
  }

  /** No message of one kind equals a message of another. */
  lemma KindsNeverCoincide(c: Collation, id: Text, n: Text, t1: Text, n1: Text, v1: Value, t2: Text, n2: Text,
                           v2: Value)
    ensures LoginMessage(id, n) != IngestionMessage(c, t1, n1, v1)
    ensures LoginMessage(id, n) != SourceConfigMessage(c, t2, n2, v2)
    ensures IngestionMessage(c, t1, n1, v1) != SourceConfigMessage(c, t2, n2, v2)
  {
    HeadUnits();
    HeadsDiffer(LOGIN, id + [NEWLINE] + n, INGESTION, Body(c, t1, n1, v1));
    HeadsDiffer(LOGIN, id + [NEWLINE] + n, SOURCE_CONFIG, Body(c, t2, n2, v2));
    HeadsDiffer(INGESTION, Body(c, t1, n1, v1), SOURCE_CONFIG, Body(c, t2, n2, v2));
  }

  lemma HeadUnits()
    ensures |LOGIN| > 21 && |INGESTION| > 21 && |SOURCE_CONFIG| > 21
    ensures LOGIN[21] == 'l' as int && INGESTION[21] == 'i' as int && SOURCE_CONFIG[21] == 's' as int
  {
  }

  lemma HeadsDiffer(head: Text, rest: Text, other: Text, rest': Text)
    requires |head| > 21 && |other| > 21 && head[21] != other[21]
    ensures head + [NEWLINE] + rest != other + [NEWLINE] + rest'
  {
    assert (head + [NEWLINE] + rest)[21] == head[21] && (other + [NEWLINE] + rest')[21] == other[21];
  }

  // ---------- the newline hypothesis is needed ----------

  /** The body is that of other parts, too. */
  ghost predicate ReadsAs(c: Collation, t: Text, n: Text, v: Value, t': Text, n': Text, v': Value) {
    && Valid(v') && Body(c, t', n', v') == Body(c, t, n, v)
    && (t' != t || n' != n || Canon(c, v') != Canon(c, v))
  }

  ghost predicate Ambiguous(c: Collation, t: Text, n: Text, v: Value) {
    exists t', n', v' :: ReadsAs(c, t, n, v, t', n', v')
  }

  /** Among all timestamps, nonces and payloads, a message is read back unambiguously exactly when neither its
      timestamp nor its nonce holds a newline. */
  lemma AmbiguousIffNewline(c: Collation, t: Text, n: Text, v: Value)
    requires Valid(v)
    ensures Ambiguous(c, t, n, v) <==> !OneLine(t) || !OneLine(n)
  {
    if i :| 0 <= i < |t| && t[i] == NEWLINE {
      assert t == t[..i] + [NEWLINE] + t[i + 1..];
      SameBody(c, t[..i], t[i + 1..] + [NEWLINE] + n, t, n, v);
      assert ReadsAs(c, t, n, v, t[..i], t[i + 1..] + [NEWLINE] + n, v);
    } else if i :| 0 <= i < |n| && n[i] == NEWLINE {
      assert n == n[..i] + [NEWLINE] + n[i + 1..];
      SameBody(c, t + [NEWLINE] + n[..i], n[i + 1..], t, n, v);
      assert ReadsAs(c, t, n, v, t + [NEWLINE] + n[..i], n[i + 1..], v);
    } else {
      forall t', n', v' ensures !ReadsAs(c, t, n, v, t', n', v') {
        OneReading(c, t, n, v, t', n', v');
      }
    }
  }

  lemma OneReading(c: Collation, t: Text, n: Text, v: Value, t': Text, n': Text, v': Value)
    requires Valid(v) && OneLine(t) && OneLine(n)
    ensures !ReadsAs(c, t, n, v, t', n', v')
  {
    if Valid(v') && Body(c, t', n', v') == Body(c, t, n, v) {
      PayloadIsOneLine(c, v);
      PayloadIsOneLine(c, v');
      SplitLast(t' + [NEWLINE] + n', Payload(c, v'), t + [NEWLINE] + n, Payload(c, v));
      SplitLines(t', n', t, n);
      SamePayloadIffSameCanon(c, v', v);
    }
  }

  lemma SameBody(c: Collation, t: Text, n: Text, t': Text, n': Text, v: Value)
    requires t + [NEWLINE] + n == t' + [NEWLINE] + n'
    ensures Body(c, t, n, v) == Body(c, t', n', v)
  {
  }

  lemma SplitLines(a: Text, b: Text, t: Text, n: Text)
    requires OneLine(t) && OneLine(n) && a + [NEWLINE] + b == t + [NEWLINE] + n
    ensures a == t && b == n
  {
    var l, r := a + [NEWLINE] + b, t + [NEWLINE] + n;
    assert l[|a|] == NEWLINE;
    assert forall i | 0 <= i < |t| :: r[i] == t[i] && t[i] in t;
    assert forall i | |t| < i < |r| :: r[i] == n[i - |t| - 1] && n[i - |t| - 1] in n;
    assert |a| == |t|;
    assert a == l[..|a|] && t == r[..|t|];
    assert b == l[|a| + 1..] && n == r[|t| + 1..];
  }

  // ---------- the lines of a message ----------

  /** The text split at its newlines. */
  function Lines(t: Text): (lines: seq<Text>)
    ensures lines != []
  {
    if t == [] then [[]]
    else
      var rest := Lines(t[1..]);
      if t[0] == NEWLINE then [[]] + rest else [[t[0]] + rest[0]] + rest[1..]
  }

  lemma {:induction false} OneLineIs(t: Text)
    requires OneLine(t)
    ensures Lines(t) == [t]
  {
    if t != [] {
      OneLineIs(t[1..]);
      assert t[0] in t && [t[0]] + t[1..] == t;
    }
  }

  lemma {:induction false} FirstLine(t: Text, rest: Text)
    requires OneLine(t)
    ensures Lines(t + [NEWLINE] + rest) == [t] + Lines(rest)
  {
    var all := t + [NEWLINE] + rest;
    if t == [] {
      assert all[1..] == rest;
    } else {
      FirstLine(t[1..], rest);
      assert t[0] in t && all[1..] == t[1..] + [NEWLINE] + rest;
      assert [t[0]] + t[1..] == t;
    }
  }

  lemma HeadsAreLines()
    ensures OneLine(LOGIN) && OneLine(INGESTION) && OneLine(SOURCE_CONFIG)
  {
    AllPrintable("LeadSignal extension login v1");
    AllPrintable("LeadSignal extension ingestion v1");
    AllPrintable("LeadSignal extension source config v1");
  }

  lemma AllPrintable(s: string)
    requires forall i | 0 <= i < |s| :: s[i] >= ' '
    ensures OneLine(Ascii(s))
  {
    forall u | u in Ascii(s) ensures u >= 0x20 {
      var i :| 0 <= i < |s| && Ascii(s)[i] == u;
    }
  }

  lemma BodyLines(c: Collation, a: Text, b: Text, v: Value)
    requires Valid(v) && OneLine(a) && OneLine(b)
    ensures Lines(Body(c, a, b, v)) == [a, b, Payload(c, v)]
  {
    PayloadIsOneLine(c, v);
    OneLineIs(Payload(c, v));
    FirstLine(b, Payload(c, v));
    FirstLine(a, b + [NEWLINE] + Payload(c, v));
    assert Body(c, a, b, v) == a + [NEWLINE] + (b + [NEWLINE] + Payload(c, v));
  }

  /** A message is its header, then the parts it signs, each on a line of its own; a missing payload is the word
      undefined. */
  lemma MessagesAreLines(c: Collation, a: Text, b: Text, v: Value)
    requires Valid(v) && OneLine(a) && OneLine(b)
    ensures var payload := if v.Undefined? then Ascii("undefined") else Stringify(c, v);
      && Lines(LoginMessage(a, b)) == [Ascii("LeadSignal extension login v1"), a, b]
      && Lines(IngestionMessage(c, a, b, v)) == [Ascii("LeadSignal extension ingestion v1"), a, b, payload]
      && Lines(SourceConfigMessage(c, a, b, v)) == [Ascii("LeadSignal extension source config v1"), a, b, payload]
  {
    HeadsAreLines();
    BodyLines(c, a, b, v);
    OneLineIs(b);
    FirstLine(a, b);
    FirstLine(LOGIN, a + [NEWLINE] + b);
    FirstLine(INGESTION, Body(c, a, b, v));
    FirstLine(SOURCE_CONFIG, Body(c, a, b, v));
  }
}
