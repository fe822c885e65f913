/** Refusing payloads that carry credentials, at any depth. */
module CredentialFields {
  import opened Common
  import opened JsonText
  import opened CanonicalJson

  const FORBIDDEN: set<Text> := {
    Ascii("authorization"), Ascii("cookie"), Ascii("cookies"), Ascii("localstorage"), Ascii("sessionstorage"),
    Ascii("redditsession"), Ascii("sessiontracker"), Ascii("loid"), Ascii("token"), Ascii("accesstoken"),
    Ascii("refreshtoken"), Ascii("csrftoken") }

  /** String.prototype.toLowerCase. */
  type Lowering = Text -> Text

  function WithoutDashes(t: Text): Text {
    if t == [] then [] else (if t[0] == 0x2D || t[0] == 0x5F then [] else [t[0]]) + WithoutDashes(t[1..])
  }

  predicate Credential(lower: Lowering, key: Text) { lower(WithoutDashes(key)) in FORBIDDEN }

  /** A field of an object, or an item of an array, whose index is its key. */
  datatype Step = Field(key: Text) | Item(index: nat)

  /** The key the check refuses, with the path to it; None when the payload is accepted. Array indices are
      decimal numerals, which are never credential keys. */
  function Refused(lower: Lowering, v: Value): Option<seq<Step>>
    decreases v, 0
  {
    match v
    case Obj(entries) => RefusedEntries(lower, entries)
    case Arr(items) => RefusedItems(lower, items, 0)
    case _ => None
  }

  function RefusedEntries(lower: Lowering, es: seq<Entry>): Option<seq<Step>>
    decreases es, 1
  {
    if es == [] then None
    else if Credential(lower, es[0].key) then Some([Field(es[0].key)])
    else
      match Refused(lower, es[0].value)
      case Some(path) => Some([Field(es[0].key)] + path)
      case None => RefusedEntries(lower, es[1..])
  }

  function RefusedItems(lower: Lowering, items: seq<Value>, from: nat): Option<seq<Step>>
    decreases items, 1
  {
    if items == [] then None
    else
      match Refused(lower, items[0])
      case Some(path) => Some([Item(from)] + path)
      case None => RefusedItems(lower, items[1..], from + 1)
  }

  /** Following `path` into `v` ends at a credential key. */
  ghost predicate Leads(lower: Lowering, v: Value, path: seq<Step>)
    decreases path, 1
  {
    path != [] &&
    match path[0]
    case Field(key) =>
      v.Obj? && exists i :: 0 <= i < |v.entries| && v.entries[i].key == key && LeadsOn(lower, v.entries[i], path)
    case Item(index) => v.Arr? && index < |v.items| && Leads(lower, v.items[index], path[1..])
  }

  ghost predicate LeadsOn(lower: Lowering, e: Entry, path: seq<Step>)
    requires path != []
    decreases path, 0
  {
    if |path| == 1 then Credential(lower, e.key) else Leads(lower, e.value, path[1..])
  }

  lemma {:induction false} RefusedEntriesIff(lower: Lowering, es: seq<Entry>, path: seq<Step>)
    ensures RefusedEntries(lower, es).Some? ==> Leads(lower, Obj(es), RefusedEntries(lower, es).value)
    ensures RefusedEntries(lower, es).None? ==> !Leads(lower, Obj(es), path)
    decreases es, 1
  {
    if es != [] {
      var r := RefusedEntries(lower, es);
      RefusedIff(lower, es[0].value, if path == [] then [] else path[1..]);
      RefusedEntriesIff(lower, es[1..], path);
      if r.Some? {
        if r == RefusedEntries(lower, es[1..]) { LeadsShifts(lower, es, r.value); }
        else { assert LeadsOn(lower, es[0], r.value); }
      } else if Leads(lower, Obj(es), path) {
        LeadsShifts(lower, es, path);
      }
    }
  }

  /** A path into the entries starts at the first of them or goes into the rest. */
  lemma LeadsShifts(lower: Lowering, es: seq<Entry>, path: seq<Step>)
    requires es != [] && path != []
    ensures Leads(lower, Obj(es), path) <==>
      (path[0] == Field(es[0].key) && LeadsOn(lower, es[0], path)) || Leads(lower, Obj(es[1..]), path)
  {
    if path[0].Field? {
      forall i | 0 < i < |es| ensures es[i] == es[1..][i - 1] {
      }
      if Leads(lower, Obj(es[1..]), path) {
        var i :| 0 <= i < |es[1..]| && es[1..][i].key == path[0].key && LeadsOn(lower, es[1..][i], path);
        assert es[i + 1] == es[1..][i];
      }
    }
  }

  lemma {:induction false} RefusedItemsIff(lower: Lowering, items: seq<Value>, from: nat, path: seq<Step>)
    ensures var r := RefusedItems(lower, items, from);
      r.Some? ==>
        (r.value != [] && r.value[0].Item? && from <= r.value[0].index < from + |items|
         && Leads(lower, items[r.value[0].index - from], r.value[1..]))
    ensures RefusedItems(lower, items, from).None? ==> forall i | 0 <= i < |items| :: !Leads(lower, items[i], path)
    decreases items, 1
  {
    if items != [] {
      RefusedIff(lower, items[0], path);
      RefusedItemsIff(lower, items[1..], from + 1, path);
      assert forall i | 0 < i < |items| :: items[i] == items[1..][i - 1];
    }
  }

  lemma {:induction false} RefusedIff(lower: Lowering, v: Value, path: seq<Step>)
    ensures Refused(lower, v).Some? ==> Leads(lower, v, Refused(lower, v).value)
    ensures Refused(lower, v).None? ==> !Leads(lower, v, path)
    decreases v, 0
  {
    match v
    case Obj(entries) => RefusedEntriesIff(lower, entries, path);
    case Arr(items) => RefusedItemsIff(lower, items, 0, if path == [] then [] else path[1..]);
    case _ =>
  }

  /** The check refuses a payload exactly when some field at some depth is named like a credential, letter case,
      dashes and underscores aside; the path it reports leads to such a field. */
  lemma CredentialsAreRefused(lower: Lowering, v: Value)
    ensures Refused(lower, v).Some? <==> exists path :: Leads(lower, v, path)
    ensures Refused(lower, v).Some? ==> Leads(lower, v, Refused(lower, v).value)
  {
    RefusedIff(lower, v, []);
    if Refused(lower, v).None? {
      forall path ensures !Leads(lower, v, path) { RefusedIff(lower, v, path); }
    } else {
      assert Leads(lower, v, Refused(lower, v).value);
    }
  }

  // ---------- which keys they are ----------

  predicate Dash(u: CodeUnit) { u == '-' as int || u == '_' as int }

  /** `at` lists, in order, exactly the positions of `t` that hold neither a dash nor an underscore. */
  ghost predicate OtherPositions(t: Text, at: seq<int>) {
    && (forall i :: i in at <==> 0 <= i < |t| && !Dash(t[i]))
    && (forall m, n | 0 <= m < n < |at| :: at[m] < at[n])
  }

  ghost predicate UnitsAt(t: Text, at: seq<int>, r: Text) {
    |r| == |at| && forall n | 0 <= n < |at| :: 0 <= at[n] < |t| && r[n] == t[at[n]]
  }

  /** Only dashes and underscores are left out of a key, and all of them. */
  lemma {:induction false} WithoutDashesIs(t: Text) returns (at: seq<int>)
    ensures OtherPositions(t, at) && UnitsAt(t, at, WithoutDashes(t))
  {
    if t == [] {
      at := [];
    } else {
      var rest := WithoutDashesIs(t[1..]);
      var moved := seq(|rest|, n requires 0 <= n < |rest| => rest[n] + 1);
      MovedPositions(t, rest, moved);
      MovedUnits(t, rest, moved);
      at := (if Dash(t[0]) then [] else [0]) + moved;
    }
  }

  lemma MovedUnits(t: Text, rest: seq<int>, moved: seq<int>)
    requires t != [] && UnitsAt(t[1..], rest, WithoutDashes(t[1..]))
    requires |moved| == |rest| && forall n | 0 <= n < |rest| :: moved[n] == rest[n] + 1
    ensures UnitsAt(t, (if Dash(t[0]) then [] else [0]) + moved, WithoutDashes(t))
  {
    forall n | 0 <= n < |moved| ensures 0 <= moved[n] < |t| && t[moved[n]] == t[1..][rest[n]] {
    }
  }

  lemma MovedPositions(t: Text, rest: seq<int>, moved: seq<int>)
    requires t != [] && OtherPositions(t[1..], rest)
    requires |moved| == |rest| && forall n | 0 <= n < |rest| :: moved[n] == rest[n] + 1
    ensures OtherPositions(t, (if Dash(t[0]) then [] else [0]) + moved)
  {
    forall i ensures i in moved <==> i - 1 in rest {
      if i - 1 in rest {
        var n :| 0 <= n < |rest| && rest[n] == i - 1;
        assert moved[n] == i;
      }
    }
    forall n | 0 <= n < |moved| ensures moved[n] > 0 { assert rest[n] in rest; }
  }

  const NAMES := [
    "authorization", "cookie", "cookies", "localstorage", "sessionstorage", "redditsession", "sessiontracker", "loid",
    "token", "accesstoken", "refreshtoken", "csrftoken"]

  /** The refused keys are the spellings of these twelve names. */
  lemma CredentialNames(lower: Lowering, key: Text)
    ensures Credential(lower, key) <==> exists n :: 0 <= n < |NAMES| && lower(WithoutDashes(key)) == Ascii(NAMES[n])
  {
    if Credential(lower, key) {
      var name := lower(WithoutDashes(key));
      assert exists n :: 0 <= n < |NAMES| && name == Ascii(NAMES[n]) by { NameOf(name); }
    }
  }

  lemma NameOf(name: Text)
    requires name in FORBIDDEN
    ensures exists n :: 0 <= n < |NAMES| && name == Ascii(NAMES[n])
  {
    var names := seq(|NAMES|, n requires 0 <= n < |NAMES| => Ascii(NAMES[n]));
    assert names[0] == Ascii("authorization") && names[1] == Ascii("cookie") && names[2] == Ascii("cookies");
    assert names[3] == Ascii("localstorage") && names[4] == Ascii("sessionstorage");
    assert names[5] == Ascii("redditsession") && names[6] == Ascii("sessiontracker") && names[7] == Ascii("loid");
    assert names[8] == Ascii("token") && names[9] == Ascii("accesstoken");
    assert names[10] == Ascii("refreshtoken") && names[11] == Ascii("csrftoken");
    var n :| 0 <= n < |names| && names[n] == name;
  }
}
