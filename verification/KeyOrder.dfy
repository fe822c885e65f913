/** When the canonical text depends on the value alone: the printer sorts keys with localeCompare, which
    may find two different keys equal, and then their order in the object shows in the text. */
module KeyOrder {
  import opened JsonText
  import opened CanonicalJson

  /** Equality up to the order of keys and undefined entries; [undefined] counts as []. */
  ghost predicate Equivalent(a: Value, b: Value)
    decreases a
  {
    match (a, b)
    case (Arr(xs), Arr(ys)) =>
      if xs == [Undefined] || ys == [Undefined] then
        (xs == [] || xs == [Undefined]) && (ys == [] || ys == [Undefined])
      else
        |xs| == |ys| && forall i | 0 <= i < |xs| :: Equivalent(xs[i], ys[i])
    case (Obj(es), Obj(fs)) =>
      && (forall k :: HasKey(es, k) <==> HasKey(fs, k))
      && (forall i, j | 0 <= i < |es| && 0 <= j < |fs| && es[i].key == fs[j].key && !es[i].value.Undefined? ::
            Equivalent(es[i].value, fs[j].value))
    case _ => a == b
  }

  ghost predicate HasKey(es: seq<Entry>, k: Text) {
    exists i | 0 <= i < |es| :: es[i].key == k && !es[i].value.Undefined?
  }

  /** Two different keys that the collation cannot tell apart and whose order in the object is free: an array index
      always comes first. */
  predicate Tied(c: Collation, a: Entry, b: Entry) {
    && a.key != b.key && c(a.key) == c(b.key) && !a.value.Undefined? && !b.value.Undefined?
    && !IsIndex(a.key) && !IsIndex(b.key)
  }

  /** Some object inside `v` has two tied keys. */
  ghost predicate HasTie(c: Collation, v: Value)
    decreases v
  {
    match v
    case Arr(items) => exists i | 0 <= i < |items| :: HasTie(c, items[i])
    case Obj(es) =>
      || (exists i, j | 0 <= i < j < |es| :: Tied(c, es[i], es[j]))
      || (exists i | 0 <= i < |es| :: HasTie(c, es[i].value))
    case _ => false
  }

  // ---------- the stable sort ----------

  predicate Sorted(c: Collation, es: seq<Entry>) {
    forall i, j | 0 <= i < j < |es| :: c(es[i].key) <= c(es[j].key)
  }

  lemma {:induction false} InsertAt(c: Collation, e: Entry, es: seq<Entry>) returns (m: nat)
    ensures m <= |es| && Insert(c, e, es) == es[..m] + [e] + es[m..]
    ensures forall i | 0 <= i < m :: c(es[i].key) < c(e.key)
    ensures m < |es| ==> c(e.key) <= c(es[m].key)
  {
    if es == [] || c(e.key) <= c(es[0].key) {
      m := 0;
    } else {
      var n := InsertAt(c, e, es[1..]);
      m := n + 1;
      assert es[..m] == [es[0]] + es[1..][..n] && es[m..] == es[1..][n..];
    }
  }

  lemma InsertSorts(c: Collation, e: Entry, es: seq<Entry>)
    requires Sorted(c, es)
    ensures Sorted(c, Insert(c, e, es))
  {
    var r := Insert(c, e, es);
    var m := InsertAt(c, e, es);
    forall i, j | 0 <= i < j < |r| ensures c(r[i].key) <= c(r[j].key) {
      if j < m {
      } else if i < m {
        if j > m { assert r[j] == es[j - 1]; assert r[i] == es[i]; }
      } else {
        assert r[j] == es[j - 1];
        if i > m { assert r[i] == es[i - 1]; }
      }
    }
  }

  lemma DistinctWith(a: seq<Entry>, e: Entry, b: seq<Entry>)
    requires DistinctKeys(a + b) && (forall i | 0 <= i < |a| :: a[i].key != e.key)
        && (forall i | 0 <= i < |b| :: b[i].key != e.key)
    ensures DistinctKeys(a + [e] + b)
  {
    var r, es := a + [e] + b, a + b;
    forall i, j | 0 <= i < j < |r| ensures r[i].key != r[j].key {
      var i', j' := if i < |a| then i else i - 1, if j < |a| then j else j - 1;
      assert i != |a| && j != |a| ==> r[i] == es[i'] && r[j] == es[j'] && i' < j';
    }
  }

  lemma InsertKeepsDistinct(c: Collation, e: Entry, es: seq<Entry>)
    requires DistinctKeys(es) && forall x | x in es :: x.key != e.key
    ensures DistinctKeys(Insert(c, e, es))
  {
    var m := InsertAt(c, e, es);
    assert es == es[..m] + es[m..];
    forall i | 0 <= i < |es| ensures es[i].key != e.key { assert es[i] in es; }
    DistinctWith(es[..m], e, es[m..]);
  }

  lemma {:induction false} SortSorts(c: Collation, es: seq<Entry>)
    ensures Sorted(c, SortByKey(c, es))
  {
    if es != [] {
      SortSorts(c, es[1..]);
      InsertSorts(c, es[0], SortByKey(c, es[1..]));
    }
  }

  lemma {:induction false} SortKeepsDistinct(c: Collation, es: seq<Entry>)
    requires DistinctKeys(es)
    ensures DistinctKeys(SortByKey(c, es))
  {
    if es != [] {
      SortKeepsDistinct(c, es[1..]);
      InsertKeepsDistinct(c, es[0], SortByKey(c, es[1..]));
    }
  }

  /** An inserted entry comes before every one that does not sort strictly before it. */
  lemma InsertGoesBefore(c: Collation, e: Entry, es: seq<Entry>, t: nat) returns (i: nat, j: nat)
    requires t < |es| && c(e.key) <= c(es[t].key)
    ensures i < j < |Insert(c, e, es)| && Insert(c, e, es)[i] == e && Insert(c, e, es)[j] == es[t]
  {
    i := InsertAt(c, e, es);
    j := t + 1;
  }

  lemma InsertKeepsOrder(c: Collation, e: Entry, es: seq<Entry>, p: nat, q: nat) returns (i: nat, j: nat)
    requires p < q < |es|
    ensures i < j < |Insert(c, e, es)| && Insert(c, e, es)[i] == es[p] && Insert(c, e, es)[j] == es[q]
  {
    var m := InsertAt(c, e, es);
    i, j := if p < m then p else p + 1, if q < m then q else q + 1;
  }

  /** The sort is stable: an entry stays in front of every later one that does not sort before it. */
  lemma {:induction false} SortIsStable(c: Collation, es: seq<Entry>, p: nat, q: nat) returns (i: nat, j: nat)
    requires p < q < |es| && c(es[p].key) <= c(es[q].key)
    ensures i < j < |es| && SortByKey(c, es)[i] == es[p] && SortByKey(c, es)[j] == es[q]
  {
    var s := SortByKey(c, es[1..]);
    if p == 0 {
      assert es[q] == es[1..][q - 1];
      assert es[q] in s;
      var t: nat :| t < |s| && s[t] == es[q];
      i, j := InsertGoesBefore(c, es[0], s, t);
    } else {
      i, j := SortIsStable(c, es[1..], p - 1, q - 1);
      i, j := InsertKeepsOrder(c, es[0], s, i, j);
    }
  }

  lemma DefinedHas(es: seq<Entry>, q: nat) returns (j: nat)
    requires q < |es| && !es[q].value.Undefined?
    ensures j < |Defined(es)| && Defined(es)[j] == es[q]
  {
    assert es[q] in Defined(es);
    j :| 0 <= j < |Defined(es)| && Defined(es)[j] == es[q];
  }

  /** Where an entry of the filtered tail stands in the filtered whole. */
  function Shifted(es: seq<Entry>, i: nat): nat
    requires es != []
  {
    if es[0].value.Undefined? then i else i + 1
  }

  lemma ShiftedAt(es: seq<Entry>, i: nat)
    requires es != [] && i < |Defined(es[1..])|
    ensures Shifted(es, i) < |Defined(es)| && Defined(es)[Shifted(es, i)] == Defined(es[1..])[i]
  {
  }

  lemma {:induction false} DefinedKeepsOrder(es: seq<Entry>, p: nat, q: nat) returns (i: nat, j: nat)
    requires p < q < |es| && !es[p].value.Undefined? && !es[q].value.Undefined?
    ensures i < j < |Defined(es)| && Defined(es)[i] == es[p] && Defined(es)[j] == es[q]
  {
    var tail := es[1..];
    assert tail[q - 1] == es[q];
    if p == 0 {
      j := DefinedHas(tail, q - 1);
      ShiftedAt(es, j);
      i, j := 0, Shifted(es, j);
    } else {
      assert tail[p - 1] == es[p];
      i, j := DefinedKeepsOrder(tail, p - 1, q - 1);
      ShiftedAt(es, i);
      ShiftedAt(es, j);
      i, j := Shifted(es, i), Shifted(es, j);
    }
  }

  /** In the printed order, two entries of one weight appear as they stand in the object. */
  lemma KeptOrder(c: Collation, es: seq<Entry>, p: nat, q: nat) returns (i: nat, j: nat)
    requires p < q < |es| && c(es[p].key) == c(es[q].key) && !es[p].value.Undefined? && !es[q].value.Undefined?
    ensures i < j < |Kept(c, es)| && Kept(c, es)[i] == es[p] && Kept(c, es)[j] == es[q]
  {
    i, j := DefinedKeepsOrder(es, p, q);
    i, j := SortIsStable(c, Defined(es), i, j);
  }

  // ---------- texts, canonical forms and equivalence ----------

  ghost predicate KeyIn(es: seq<Entry>, k: Text) {
    exists i | 0 <= i < |es| :: es[i].key == k
  }

  lemma KeptFacts(c: Collation, es: seq<Entry>)
    requires DistinctKeys(es)
    ensures Sorted(c, Kept(c, es)) && DistinctKeys(Kept(c, es))
    ensures forall k :: HasKey(es, k) <==> KeyIn(Kept(c, es), k)
  {
    var kept := Kept(c, es);
    SortSorts(c, Defined(es));
    SortKeepsDistinct(c, Defined(es));
    forall k ensures HasKey(es, k) <==> KeyIn(kept, k) {
      if HasKey(es, k) {
        var i :| 0 <= i < |es| && es[i].key == k && !es[i].value.Undefined?;
        assert es[i] in kept;
      }
      if i :| 0 <= i < |kept| && kept[i].key == k {
        assert kept[i] in kept;
        var j :| 0 <= j < |es| && es[j] == kept[i];
      }
    }
  }

  /** Entries with the same key in two objects with one canonical form have canonically equal values. */
  lemma CanonLookup(c: Collation, es: seq<Entry>, fs: seq<Entry>, i: nat, j: nat)
    requires DistinctKeys(es) && DistinctKeys(fs)
    requires Canon(c, Obj(es)) == Canon(c, Obj(fs))
    requires i < |es| && j < |fs| && es[i].key == fs[j].key && !es[i].value.Undefined?
    ensures Canon(c, es[i].value) == Canon(c, fs[j].value)
  {
    StringifyObj(c, es);
    StringifyObj(c, fs);
    var ks, ls := Kept(c, es), Kept(c, fs);
    assert es[i] in ks;
    var p :| 0 <= p < |ks| && ks[p] == es[i];
    assert EntryCanons(c, ks)[p] == EntryCanons(c, ls)[p];
    assert ls[p] in ls;
    var q :| 0 <= q < |fs| && fs[q] == ls[p];
    assert q == j;
  }

  lemma SameCanonSameKeys(c: Collation, es: seq<Entry>, fs: seq<Entry>)
    requires DistinctKeys(es) && DistinctKeys(fs) && Canon(c, Obj(es)) == Canon(c, Obj(fs))
    ensures |Kept(c, es)| == |Kept(c, fs)|
    ensures forall i | 0 <= i < |Kept(c, es)| :: Kept(c, es)[i].key == Kept(c, fs)[i].key
    ensures forall k :: HasKey(es, k) <==> HasKey(fs, k)
  {
    StringifyObj(c, es);
    StringifyObj(c, fs);
    var ks, ls := Kept(c, es), Kept(c, fs);
    assert |EntryCanons(c, ks)| == |EntryCanons(c, ls)|;
    forall i | 0 <= i < |ks| ensures ks[i].key == ls[i].key {
      assert EntryCanons(c, ks)[i] == EntryCanons(c, ls)[i];
    }
    KeptFacts(c, es);
    KeptFacts(c, fs);
  }

  lemma {:induction false} SameCanonIsEquivalent(c: Collation, a: Value, b: Value)
    requires Valid(a) && Valid(b) && Canon(c, a) == Canon(c, b)
    ensures Equivalent(a, b)
    decreases a
  {
    if a.Arr? {
      StringifyArr(c, a.items);
      StringifyArr(c, b.items);
      if a.items != [Undefined] && b.items != [Undefined] {
        assert |ItemCanons(c, a.items)| == |ItemCanons(c, b.items)|;
        forall i | 0 <= i < |a.items| ensures Equivalent(a.items[i], b.items[i]) {
          assert ItemCanons(c, a.items)[i] == ItemCanons(c, b.items)[i];
          SameCanonIsEquivalent(c, a.items[i], b.items[i]);
        }
      }
    } else if a.Obj? {
      SameCanonSameKeys(c, a.entries, b.entries);
      forall i, j | 0 <= i < |a.entries| && 0 <= j < |b.entries| && a.entries[i].key == b.entries[j].key
                    && !a.entries[i].value.Undefined?
        ensures Equivalent(a.entries[i].value, b.entries[j].value)
      {
        CanonLookup(c, a.entries, b.entries, i, j);
        SameCanonIsEquivalent(c, a.entries[i].value, b.entries[j].value);
      }
    }
  }

  /** The order of two keys wherever they are printed: by weight, then array indices first. */
  predicate Before(c: Collation, a: Text, b: Text) {
    || c(a) < c(b)
    || (c(a) == c(b) && IsIndex(a) && (IsIndex(b) ==> Number(a) < Number(b)))
  }

  ghost predicate Strict(c: Collation, es: seq<Entry>) {
    forall i, j | 0 <= i < j < |es| :: Before(c, es[i].key, es[j].key)
  }

  ghost predicate NoTie(c: Collation, es: seq<Entry>) {
    forall i, j | 0 <= i < j < |es| :: !Tied(c, es[i], es[j])
  }

  /** Without ties the printed order is strict. */
  lemma KeptIsStrict(c: Collation, es: seq<Entry>)
    requires DistinctKeys(es) && Listed(es) && NoTie(c, es)
    ensures Strict(c, Kept(c, es))
  {
    var ks := Kept(c, es);
    KeptFacts(c, es);
    forall i, j | 0 <= i < j < |ks| ensures Before(c, ks[i].key, ks[j].key) {
      assert ks[i] in ks && ks[j] in ks;
      var p :| 0 <= p < |es| && es[p] == ks[i];
      var q :| 0 <= q < |es| && es[q] == ks[j];
      assert ks[i].key != ks[j].key;
      if c(es[p].key) == c(es[q].key) {
        KeptInOrder(c, es, i, j, p, q);
        assert !Tied(c, es[p], es[q]);
      }
    }
  }

  /** Two entries of one weight are printed in the order of the object. */
  lemma KeptInOrder(c: Collation, es: seq<Entry>, i: nat, j: nat, p: nat, q: nat)
    requires DistinctKeys(es) && i < j < |Kept(c, es)| && p < |es| && q < |es|
    requires Kept(c, es)[i] == es[p] && Kept(c, es)[j] == es[q] && c(es[p].key) == c(es[q].key)
    ensures p < q
  {
    var ks := Kept(c, es);
    KeptFacts(c, es);
    assert ks[i].key != ks[j].key;
    assert ks[i] in ks && ks[j] in ks;
    if q < p {
      var i', j' := KeptOrder(c, es, q, p);
    }
  }

  ghost predicate SameKeySet(xs: seq<Entry>, ys: seq<Entry>) {
    forall k :: KeyIn(xs, k) <==> KeyIn(ys, k)
  }

  lemma SameFirstKey(c: Collation, xs: seq<Entry>, ys: seq<Entry>)
    requires Strict(c, xs) && Strict(c, ys) && SameKeySet(xs, ys) && xs != []
    ensures ys != [] && xs[0].key == ys[0].key
  {
    assert KeyIn(xs, xs[0].key);
    var j :| 0 <= j < |ys| && ys[j].key == xs[0].key;
    assert KeyIn(ys, ys[0].key);
    var i :| 0 <= i < |xs| && xs[i].key == ys[0].key;
    assert i > 0 ==> Before(c, xs[0].key, xs[i].key);
    assert j > 0 ==> Before(c, ys[0].key, ys[j].key);
  }

  lemma TailKeySet(xs: seq<Entry>)
    requires xs != [] && DistinctKeys(xs)
    ensures forall k :: KeyIn(xs[1..], k) <==> KeyIn(xs, k) && k != xs[0].key
  {
    forall k ensures KeyIn(xs[1..], k) <==> KeyIn(xs, k) && k != xs[0].key {
      if i :| 0 <= i < |xs| && xs[i].key == k && i > 0 { assert xs[1..][i - 1].key == k; }
      if i :| 0 <= i < |xs[1..]| && xs[1..][i].key == k { assert xs[i + 1].key == k; }
    }
  }

  /** Two strictly sorted lists over the same keys list them in the same order. */
  lemma {:induction false} SameSortedKeys(c: Collation, xs: seq<Entry>, ys: seq<Entry>)
    requires Strict(c, xs) && Strict(c, ys) && DistinctKeys(xs) && DistinctKeys(ys) && SameKeySet(xs, ys)
    ensures |xs| == |ys| && forall i | 0 <= i < |xs| :: xs[i].key == ys[i].key
  {
    if xs == [] {
      if ys != [] { assert KeyIn(ys, ys[0].key); }
    } else {
      SameFirstKey(c, xs, ys);
      TailKeySet(xs);
      TailKeySet(ys);
      SameSortedKeys(c, xs[1..], ys[1..]);
      forall i | 0 <= i < |xs| ensures xs[i].key == ys[i].key {
        if i > 0 { assert xs[1..][i - 1].key == ys[1..][i - 1].key; }
      }
    }
  }

  lemma {:induction false} EquivalentSameCanon(c: Collation, a: Value, b: Value)
    requires Valid(a) && Valid(b) && Equivalent(a, b) && !HasTie(c, a)
    ensures Canon(c, a) == Canon(c, b)
    decreases a
  {
    if a.Arr? && a.items != [Undefined] && b.items != [Undefined] {
      StringifyArr(c, a.items);
      StringifyArr(c, b.items);
      forall i | 0 <= i < |a.items| ensures Canon(c, a.items[i]) == Canon(c, b.items[i]) {
        EquivalentSameCanon(c, a.items[i], b.items[i]);
      }
    } else if a.Arr? {
      StringifyArr(c, a.items);
      StringifyArr(c, b.items);
      assert ItemCanons(c, []) == [];
    } else if a.Obj? {
      StringifyObj(c, a.entries);
      StringifyObj(c, b.entries);
      KeptSameKeys(c, a, b);
      var ks, ls := Kept(c, a.entries), Kept(c, b.entries);
      forall i | 0 <= i < |ks| ensures EntryCanons(c, ks)[i] == EntryCanons(c, ls)[i] {
        assert ks[i] in ks && ls[i] in ls;
        assert ks[i] in a.entries;
        EquivalentLookup(a, b, ks[i], ls[i]);
        NoTieInside(c, a.entries, ks[i]);
        EquivalentSameCanon(c, ks[i].value, ls[i].value);
      }
      assert EntryCanons(c, ks) == EntryCanons(c, ls);
    }
  }

  lemma EquivalentLookup(a: Value, b: Value, e: Entry, f: Entry)
    requires a.Obj? && b.Obj? && Valid(a) && Valid(b) && Equivalent(a, b)
    requires e in a.entries && f in b.entries && e.key == f.key && !e.value.Undefined?
    ensures Valid(e.value) && Valid(f.value) && Equivalent(e.value, f.value)
  {
  }

  lemma NoTieInside(c: Collation, es: seq<Entry>, e: Entry)
    requires e in es && !HasTie(c, Obj(es))
    ensures !HasTie(c, e.value)
  {
  }

  lemma NoTieAt(c: Collation, es: seq<Entry>, p: nat, q: nat)
    requires NoTie(c, es) && p < |es| && q < |es|
    ensures !Tied(c, es[p], es[q])
  {
    assert Tied(c, es[p], es[q]) <==> Tied(c, es[q], es[p]);
  }

  /** Objects with the same defined keys have the same ties. */
  lemma SameTies(c: Collation, es: seq<Entry>, fs: seq<Entry>)
    requires NoTie(c, es) && DistinctKeys(fs) && forall k | HasKey(fs, k) :: HasKey(es, k)
    ensures NoTie(c, fs)
  {
    forall i, j | 0 <= i < j < |fs| ensures !Tied(c, fs[i], fs[j]) {
      if Tied(c, fs[i], fs[j]) {
        assert HasKey(fs, fs[i].key) && HasKey(fs, fs[j].key);
        var p :| 0 <= p < |es| && es[p].key == fs[i].key && !es[p].value.Undefined?;
        var q :| 0 <= q < |es| && es[q].key == fs[j].key && !es[q].value.Undefined?;
        NoTieAt(c, es, p, q);
      }
    }
  }

  lemma KeptSameKeys(c: Collation, a: Value, b: Value)
    requires Valid(a) && Valid(b) && Equivalent(a, b) && !HasTie(c, a) && a.Obj?
    ensures b.Obj?
    ensures var ks, ls := Kept(c, a.entries), Kept(c, b.entries);
      |ks| == |ls| && forall i | 0 <= i < |ks| :: ks[i].key == ls[i].key
  {
    var es := a.entries;
    var ks, ls := Kept(c, es), Kept(c, b.entries);
    KeptFacts(c, es);
    KeptFacts(c, b.entries);
    SameTies(c, es, b.entries);
    KeptIsStrict(c, es);
    KeptIsStrict(c, b.entries);
    SameSortedKeys(c, ks, ls);
  }

  lemma {:induction false} SameCanonSameText(c: Collation, a: Value, b: Value)
    requires Valid(a) && Valid(b) && Canon(c, a) == Canon(c, b)
    ensures Stringify(c, a) == Stringify(c, b)
    decreases a
  {
    if a.Arr? {
      StringifyArr(c, a.items);
      StringifyArr(c, b.items);
      if a.items != [Undefined] && b.items != [Undefined] {
        assert |ItemCanons(c, a.items)| == |ItemCanons(c, b.items)|;
        forall i | 0 <= i < |a.items| ensures ItemTexts(c, a.items)[i] == ItemTexts(c, b.items)[i] {
          assert ItemCanons(c, a.items)[i] == ItemCanons(c, b.items)[i];
          SameCanonSameText(c, a.items[i], b.items[i]);
        }
        assert ItemTexts(c, a.items) == ItemTexts(c, b.items);
      } else {
        assert Join(ItemTexts(c, a.items)) == [] == Join(ItemTexts(c, b.items));
      }
    } else if a.Obj? {
      StringifyObj(c, a.entries);
      StringifyObj(c, b.entries);
      var ks, ls := Kept(c, a.entries), Kept(c, b.entries);
      assert |EntryCanons(c, ks)| == |EntryCanons(c, ls)|;
      forall i | 0 <= i < |ks| ensures EntryTexts(c, ks)[i] == EntryTexts(c, ls)[i] {
        assert EntryCanons(c, ks)[i] == EntryCanons(c, ls)[i];
        assert ks[i] in ks && ls[i] in ls && ks[i] in a.entries && ls[i] in b.entries;
        SameCanonSameText(c, ks[i].value, ls[i].value);
      }
      assert EntryTexts(c, ks) == EntryTexts(c, ls);
    }
  }

  /** Two values print the same text exactly when they have the same canonical form. */
  lemma SameTextIffSameCanon(c: Collation, a: Value, b: Value)
    requires Valid(a) && Valid(b)
    ensures Stringify(c, a) == Stringify(c, b) <==> Canon(c, a) == Canon(c, b)
  {
    PrintThenParse(c, a);
    PrintThenParse(c, b);
    if Canon(c, a) == Canon(c, b) {
      SameCanonSameText(c, a, b);
    }
  }

  /** Without ties, two values print the same text exactly when they are equal up to key order and
      undefined entries. Equal texts come from equivalent values even with ties. */
  lemma SameTextIffEquivalent(c: Collation, a: Value, b: Value)
    requires Valid(a) && Valid(b)
    ensures Stringify(c, a) == Stringify(c, b) ==> Equivalent(a, b)
    ensures !HasTie(c, a) && Equivalent(a, b) ==> Stringify(c, a) == Stringify(c, b)
  {
    SameTextIffSameCanon(c, a, b);
    if Canon(c, a) == Canon(c, b) {
      SameCanonIsEquivalent(c, a, b);
    }
    if !HasTie(c, a) && Equivalent(a, b) {
      EquivalentSameCanon(c, a, b);
    }
  }

  // ---------- the text shows the order of tied keys ----------

  lemma {:induction false} EquivalentSelf(v: Value)
    requires Valid(v)
    ensures Equivalent(v, v)
  {
    if v.Arr? {
      forall i | 0 <= i < |v.items| ensures Equivalent(v.items[i], v.items[i]) { EquivalentSelf(v.items[i]); }
    } else if v.Obj? {
      forall i | 0 <= i < |v.entries| ensures Equivalent(v.entries[i].value, v.entries[i].value) {
        EquivalentSelf(v.entries[i].value);
      }
    }
  }

  function Swapped(es: seq<Entry>, p: nat, q: nat): (fs: seq<Entry>)
    requires p < q < |es|
    ensures |fs| == |es| && forall i | 0 <= i < |es| :: fs[i] == es[if i == p then q else if i == q then p else i]
  {
    es[p := es[q]][q := es[p]]
  }

  lemma SwappedKeys(es: seq<Entry>, p: nat, q: nat)
    requires p < q < |es|
    ensures forall k | HasKey(es, k) :: HasKey(Swapped(es, p, q), k)
  {
    forall k | HasKey(es, k) ensures HasKey(Swapped(es, p, q), k) {
      var i :| 0 <= i < |es| && es[i].key == k && !es[i].value.Undefined?;
      assert Swapped(es, p, q)[if i == p then q else if i == q then p else i] == es[i];
    }
  }

  lemma SwappedIsListed(es: seq<Entry>, p: nat, q: nat)
    requires Listed(es) && p < q < |es| && !IsIndex(es[p].key) && !IsIndex(es[q].key)
    ensures Listed(Swapped(es, p, q))
  {
    var fs := Swapped(es, p, q);
    forall i, j | 0 <= i < j < |fs| && IsIndex(fs[j].key)
      ensures IsIndex(fs[i].key) && Number(fs[i].key) < Number(fs[j].key)
    {
      assert fs[j] == es[j];
      assert fs[i] == es[i];
    }
  }

  lemma SwappedEquivalent(es: seq<Entry>, p: nat, q: nat)
    requires Valid(Obj(es)) && p < q < |es| && !IsIndex(es[p].key) && !IsIndex(es[q].key)
    ensures Valid(Obj(Swapped(es, p, q))) && Equivalent(Obj(es), Obj(Swapped(es, p, q)))
  {
    var fs := Swapped(es, p, q);
    SwappedIsListed(es, p, q);
    SwappedKeys(es, p, q);
    SwappedKeys(fs, p, q);
    assert Swapped(fs, p, q) == es;
    forall i, j | 0 <= i < |es| && 0 <= j < |fs| && es[i].key == fs[j].key && !es[i].value.Undefined?
      ensures Equivalent(es[i].value, fs[j].value)
    {
      assert fs[j] == es[i];
      EquivalentSelf(es[i].value);
    }
  }

  /** Swapping two tied entries gives an equivalent object with another canonical form. */
  lemma SwapTied(c: Collation, es: seq<Entry>, p: nat, q: nat) returns (w: Value)
    requires Valid(Obj(es)) && p < q < |es| && Tied(c, es[p], es[q])
    ensures w == Obj(Swapped(es, p, q)) && Valid(w) && Equivalent(Obj(es), w) && Canon(c, Obj(es)) != Canon(c, w)
  {
    var fs := Swapped(es, p, q);
    w := Obj(fs);
    SwappedEquivalent(es, p, q);
    if Canon(c, Obj(es)) == Canon(c, w) {
      SameCanonSameKeys(c, es, fs);
      KeptFacts(c, es);
      var i, j := KeptOrder(c, es, p, q);
      var i', j' := KeptOrder(c, fs, p, q);
      OneOrder(Kept(c, es), Kept(c, fs), i, j, i', j');
    }
  }

  /** Two lists of the same distinct keys cannot hold two keys in opposite orders. */
  lemma OneOrder(ks: seq<Entry>, ls: seq<Entry>, i: nat, j: nat, i': nat, j': nat)
    requires DistinctKeys(ks) && |ks| == |ls| && forall n | 0 <= n < |ks| :: ks[n].key == ls[n].key
    requires i < j < |ks| && i' < j' < |ls| && ks[i].key == ls[j'].key
    ensures ks[j].key != ls[i'].key
  {
    assert ks[i].key == ks[j'].key;
  }

  lemma ReplacedKeys(es: seq<Entry>, i: nat, u: Value)
    requires i < |es| && !es[i].value.Undefined? && !u.Undefined?
    ensures forall k :: HasKey(es, k) <==> HasKey(es[i := Entry(es[i].key, u)], k)
  {
    var fs := es[i := Entry(es[i].key, u)];
    forall k ensures HasKey(es, k) <==> HasKey(fs, k) {
      if j :| 0 <= j < |es| && es[j].key == k && !es[j].value.Undefined? { assert fs[j].key == k; }
      if j :| 0 <= j < |fs| && fs[j].key == k && !fs[j].value.Undefined? { assert es[j].key == k; }
    }
  }

  lemma ReplacedEquivalent(es: seq<Entry>, i: nat, u: Value)
    requires Valid(Obj(es)) && i < |es| && Valid(u) && !es[i].value.Undefined? && !u.Undefined?
    requires Equivalent(es[i].value, u)
    ensures var w := Obj(es[i := Entry(es[i].key, u)]); Valid(w) && Equivalent(Obj(es), w)
  {
    var fs := es[i := Entry(es[i].key, u)];
    ReplacedKeys(es, i, u);
    forall p, q | 0 <= p < |es| && 0 <= q < |fs| && es[p].key == fs[q].key && !es[p].value.Undefined?
      ensures Equivalent(es[p].value, fs[q].value)
    {
      assert p == q;
      EquivalentSelf(es[p].value);
    }
  }

  /** Replacing one entry's value by an equivalent one with another canonical form shows outside. */
  lemma ReplaceEntry(c: Collation, es: seq<Entry>, i: nat, u: Value) returns (w: Value)
    requires Valid(Obj(es)) && i < |es| && Valid(u) && !es[i].value.Undefined? && !u.Undefined?
    requires Equivalent(es[i].value, u) && Canon(c, es[i].value) != Canon(c, u)
    ensures Valid(w) && Equivalent(Obj(es), w) && Canon(c, Obj(es)) != Canon(c, w)
  {
    var fs := es[i := Entry(es[i].key, u)];
    w := Obj(fs);
    ReplacedEquivalent(es, i, u);
    if Canon(c, Obj(es)) == Canon(c, w) {
      CanonLookup(c, es, fs, i, i);
      assert false;
    }
  }

  lemma ReplaceItem(c: Collation, items: seq<Value>, i: nat, u: Value) returns (w: Value)
    requires Valid(Arr(items)) && i < |items| && Valid(u) && !items[i].Undefined? && !u.Undefined?
    requires Equivalent(items[i], u) && Canon(c, items[i]) != Canon(c, u)
    ensures Valid(w) && Equivalent(Arr(items), w) && Canon(c, Arr(items)) != Canon(c, w)
  {
    var others := items[i := u];
    w := Arr(others);
    EquivalentSelf(Arr(items));
    assert items[i] != Undefined && others[i] != Undefined;
    StringifyArr(c, items);
    StringifyArr(c, others);
    assert ItemCanons(c, items)[i] != ItemCanons(c, others)[i];
  }

  /** A value with a tie anywhere inside has an equivalent twin that prints differently. */
  lemma {:induction false} TieShows(c: Collation, v: Value) returns (w: Value)
    requires Valid(v) && HasTie(c, v)
    ensures Valid(w) && Equivalent(v, w) && Canon(c, v) != Canon(c, w)
    decreases v
  {
    if v.Arr? {
      var i :| 0 <= i < |v.items| && HasTie(c, v.items[i]);
      var u := TieShows(c, v.items[i]);
      w := ReplaceItem(c, v.items, i, u);
    } else if i, j :| 0 <= i < j < |v.entries| && Tied(c, v.entries[i], v.entries[j]) {
      w := SwapTied(c, v.entries, i, j);
    } else {
      var i :| 0 <= i < |v.entries| && HasTie(c, v.entries[i].value);
      var u := TieShows(c, v.entries[i].value);
      w := ReplaceEntry(c, v.entries, i, u);
    }
  }

  /** e with an acute accent, as one character and as two. */
  const COMPOSED: Text := [0xE9]
  const DECOMPOSED: Text := [0x65, 0x301]

  function Accents(first: Text, second: Text, m: Value, n: Value): Value {
    Obj([Entry(first, m), Entry(second, n)])
  }

  lemma AccentsAreValid()
    ensures Valid(Accents(COMPOSED, DECOMPOSED, Bool(true), Null))
    ensures !IsIndex(COMPOSED) && !IsIndex(DECOMPOSED) && COMPOSED != DECOMPOSED
  {
    assert COMPOSED[0] in COMPOSED && DECOMPOSED[0] in DECOMPOSED && |COMPOSED| != |DECOMPOSED|;
  }

  lemma AccentsSwap()
    ensures Obj(Swapped(Accents(COMPOSED, DECOMPOSED, Bool(true), Null).entries, 0, 1))
      == Accents(DECOMPOSED, COMPOSED, Null, Bool(true))
  {
  }

  /** A collation that does not tell them apart, as canonical equivalence asks, lets one object print in two ways. */
  lemma AccentsPrintTwoWays(c: Collation)
    requires c(COMPOSED) == c(DECOMPOSED)
    ensures var v := Accents(COMPOSED, DECOMPOSED, Bool(true), Null);
      var w := Accents(DECOMPOSED, COMPOSED, Null, Bool(true));
      Valid(v) && Valid(w) && Equivalent(v, w) && Stringify(c, v) != Stringify(c, w)
  {
    var v := Accents(COMPOSED, DECOMPOSED, Bool(true), Null);
    AccentsAreValid();
    AccentsSwap();
    var w := SwapTied(c, v.entries, 0, 1);
    SameTextIffSameCanon(c, v, w);
  }

  /** The printed text is a function of the value alone exactly when no object in it has tied keys. */
  lemma OrderIrrelevantIffNoTies(c: Collation, v: Value)
    requires Valid(v)
    ensures !HasTie(c, v) <==> forall w | Valid(w) && Equivalent(v, w) :: Stringify(c, v) == Stringify(c, w)
  {
    if HasTie(c, v) {
      var w := TieShows(c, v);
      SameTextIffSameCanon(c, v, w);
    } else {
      forall w | Valid(w) && Equivalent(v, w) ensures Stringify(c, v) == Stringify(c, w) {
        SameTextIffEquivalent(c, v, w);
      }
    }
  }
}
