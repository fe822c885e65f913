/** Keeping the first element of every key, in order: what a JavaScript Set or Map keeps of the values put
    into it when an existing key is left alone. */
module FirstSeen {
  predicate Has<T, K(==)>(key: T -> K, s: seq<T>, k: K) {
    exists i | 0 <= i < |s| :: key(s[i]) == k
  }

  function Firsts<T, K(==)>(key: T -> K, s: seq<T>): seq<T> {
    if s == [] then []
    else
      var before := Firsts(key, s[..|s| - 1]);
      if Has(key, before, key(s[|s| - 1])) then before else before + [s[|s| - 1]]
  }

  predicate Distinct<T, K(==)>(key: T -> K, s: seq<T>) {
    forall i, j | 0 <= i < j < |s| :: key(s[i]) != key(s[j])
  }

  predicate IsFirst<T, K(==)>(key: T -> K, s: seq<T>, i: int) {
    0 <= i < |s| && forall j | 0 <= j < i :: key(s[j]) != key(s[i])
  }

  /** `at` lists, in order, exactly the positions of `s` whose key does not occur earlier. */
  ghost predicate FirstPositions<T, K>(key: T -> K, s: seq<T>, at: seq<int>) {
    && (forall i :: i in at <==> IsFirst(key, s, i))
    && (forall m, n | 0 <= m < n < |at| :: at[m] < at[n])
  }

  lemma {:induction false} FirstsStep<T, K>(key: T -> K, s: seq<T>, x: T)
    ensures Firsts(key, s + [x]) == if Has(key, Firsts(key, s), key(x)) then Firsts(key, s) else Firsts(key, s) + [x]
  {
    assert (s + [x])[..|s|] == s;
  }

  /** The same keys, each once. */
  lemma {:induction false} FirstsKeys<T, K>(key: T -> K, s: seq<T>)
    ensures Distinct(key, Firsts(key, s))
    ensures forall k :: Has(key, Firsts(key, s), k) <==> Has(key, s, k)
  {
    if s != [] {
      var n := |s| - 1;
      var before := Firsts(key, s[..n]);
      FirstsKeys(key, s[..n]);
      forall k ensures Has(key, Firsts(key, s), k) <==> Has(key, s, k) {
        if Has(key, s, k) {
          var i :| 0 <= i < |s| && key(s[i]) == k;
          if i < n { assert s[..n][i] == s[i]; }
          if Has(key, before, k) {
            var j :| 0 <= j < |before| && key(before[j]) == k;
            assert Firsts(key, s)[j] == before[j];
          } else {
            assert Firsts(key, s)[|before|] == s[n];
          }
        }
        if Has(key, Firsts(key, s), k) {
          var i :| 0 <= i < |Firsts(key, s)| && key(Firsts(key, s)[i]) == k;
          if i < |before| {
            assert Has(key, s[..n], k);
            var j :| 0 <= j < n && key(s[..n][j]) == k;
            assert s[j] == s[..n][j];
          }
        }
      }
      forall i, j | 0 <= i < j < |Firsts(key, s)| ensures key(Firsts(key, s)[i]) != key(Firsts(key, s)[j]) {
        if j == |before| { assert key(before[i]) != key(s[n]); }
      }
    }
  }

  lemma PositionsExtend<T, K>(key: T -> K, s: seq<T>, at: seq<int>)
    requires s != [] && FirstPositions(key, s[..|s| - 1], at)
    ensures FirstPositions(key, s, if IsFirst(key, s, |s| - 1) then at + [|s| - 1] else at)
  {
    var n := |s| - 1;
    var t := s[..n];
    forall i | i != n ensures IsFirst(key, s, i) <==> IsFirst(key, t, i) {
      assert 0 <= i < n ==> forall j | 0 <= j <= i :: t[j] == s[j];
    }
    forall m | 0 <= m < |at| ensures at[m] < n {
      assert at[m] in at;
    }
  }

  /** An element survives exactly when it is the first with its key, and the order is kept. */
  lemma {:induction false} FirstsArePositions<T, K>(key: T -> K, s: seq<T>) returns (at: seq<int>)
    ensures FirstPositions(key, s, at) && ElementsAt(key, s, at)
  {
    at := [];
    if s != [] {
      var n := |s| - 1;
      at := FirstsArePositions(key, s[..n]);
      PositionsExtend(key, s, at);
      FirstsExtend(key, s, at);
      if IsFirst(key, s, n) {
        at := at + [n];
      }
    }
  }

  ghost predicate ElementsAt<T, K>(key: T -> K, s: seq<T>, at: seq<int>) {
    && |Firsts(key, s)| == |at|
    && (forall n | 0 <= n < |at| :: 0 <= at[n] < |s| && Firsts(key, s)[n] == s[at[n]])
  }

  lemma FirstsExtend<T, K>(key: T -> K, s: seq<T>, at: seq<int>)
    requires s != [] && ElementsAt(key, s[..|s| - 1], at)
    ensures ElementsAt(key, s, if IsFirst(key, s, |s| - 1) then at + [|s| - 1] else at)
  {
    LastIsFirst(key, s);
  }

  lemma LastIsFirst<T, K>(key: T -> K, s: seq<T>)
    requires s != []
    ensures IsFirst(key, s, |s| - 1) <==> !Has(key, Firsts(key, s[..|s| - 1]), key(s[|s| - 1]))
  {
    var t := s[..|s| - 1];
    FirstsKeys(key, t);
    if Has(key, t, key(s[|s| - 1])) {
      var i :| 0 <= i < |t| && key(t[i]) == key(s[|s| - 1]);
      assert s[i] == t[i];
    }
    if !IsFirst(key, s, |s| - 1) {
      var j :| 0 <= j < |t| && key(s[j]) == key(s[|s| - 1]);
      assert t[j] == s[j];
    }
  }

  /** More input only appends. */
  lemma {:induction false} FirstsGrow<T, K>(key: T -> K, s: seq<T>, more: seq<T>)
    ensures Firsts(key, s) <= Firsts(key, s + more)
  {
    if more == [] {
      assert s + more == s;
    } else {
      var m := |more| - 1;
      FirstsGrow(key, s, more[..m]);
      assert s + more == (s + more[..m]) + [more[m]];
      FirstsStep(key, s + more[..m], more[m]);
    }
  }
}
