/**
 * Sorting by string key, code unit by code unit, as canonical serialization sorts object keys and
 * `sortRows` sorts rows (packages/core/src/canonical.ts).
 */
module KeyOrder {

  /** A UTF-16 code unit: JavaScript strings may hold unpaired surrogates. */
  type Unit = u: int | 0 <= u < 0x1_0000

  type Text = seq<Unit>

  datatype Keyed<+T> = Keyed(key: Text, value: T)

  predicate Less(a: Text, b: Text) {
    if b == [] then false
    else if a == [] then true
    else a[0] < b[0] || (a[0] == b[0] && Less(a[1..], b[1..]))
  }

  /** `a` comes first where the two first differ, or ends there. */
  predicate DiffersAt(a: Text, b: Text, i: nat) {
    && i <= |a| && i < |b| && a[..i] == b[..i]
    && (i < |a| ==> a[i] < b[i])
  }

  /** The order is that of the first code unit in which two keys differ, a prefix coming first. */
  lemma {:induction false} LessExactly(a: Text, b: Text)
    ensures Less(a, b) <==> exists i: nat :: DiffersAt(a, b, i)
  {
    if a == [] {
      assert b != [] ==> DiffersAt(a, b, 0);
    } else if b != [] {
      if a[0] < b[0] {
        assert DiffersAt(a, b, 0);
      } else if a[0] == b[0] {
        LessExactly(a[1..], b[1..]);
        if i: nat :| DiffersAt(a[1..], b[1..], i) {
          assert a[..i + 1] == [a[0]] + a[1..][..i] && b[..i + 1] == [b[0]] + b[1..][..i];
          assert DiffersAt(a, b, i + 1);
        }
        if i: nat :| DiffersAt(a, b, i) {
          assert a[..i][1..] == a[1..][..i - 1] && b[..i][1..] == b[1..][..i - 1];
          assert DiffersAt(a[1..], b[1..], i - 1);
        }
      } else if i: nat :| DiffersAt(a, b, i) {
        assert i > 0 && a[..i][0] == a[0] && b[..i][0] == b[0];
      }
    }
  }

  lemma {:induction false} LessIsTotal(a: Text, b: Text)
    ensures Less(a, b) || a == b || Less(b, a)
    ensures !(Less(a, b) && Less(b, a)) && !Less(a, a)
  {
    if a != [] {
      LessIsTotal(a[1..], a[1..]);
      if b != [] && a[0] == b[0] {
        LessIsTotal(a[1..], b[1..]);
        if a[1..] == b[1..] {
          assert a == [a[0]] + a[1..] && b == [b[0]] + b[1..];
        }
      }
    }
  }

  lemma {:induction false} LessIsTransitive(a: Text, b: Text, c: Text)
    requires Less(a, b) && Less(b, c)
    ensures Less(a, c)
  {
    if a != [] && a[0] == b[0] == c[0] {
      LessIsTransitive(a[1..], b[1..], c[1..]);
    }
  }

  /** A stable insertion: a row goes after the rows with its own key. */
  function Insert<T>(x: Keyed<T>, xs: seq<Keyed<T>>): (r: seq<Keyed<T>>)
    ensures |r| == |xs| + 1
  {
    if xs == [] || Less(x.key, xs[0].key) then [x] + xs else [xs[0]] + Insert(x, xs[1..])
  }

  function Sort<T>(xs: seq<Keyed<T>>): (r: seq<Keyed<T>>)
    ensures |r| == |xs|
  {
    if xs == [] then [] else Insert(xs[|xs| - 1], Sort(xs[..|xs| - 1]))
  }

  predicate Sorted<T>(xs: seq<Keyed<T>>) {
    forall i, j | 0 <= i < j < |xs| :: !Less(xs[j].key, xs[i].key)
  }

  predicate DistinctKeys<T>(xs: seq<Keyed<T>>) {
    forall i, j | 0 <= i < j < |xs| :: xs[i].key != xs[j].key
  }

  lemma {:induction false} InsertKeeps<T>(x: Keyed<T>, xs: seq<Keyed<T>>)
    ensures multiset(Insert(x, xs)) == multiset(xs) + multiset{x}
    ensures forall y :: y in Insert(x, xs) <==> y == x || y in xs
    ensures forall i | 0 <= i < |xs| + 1 :: Insert(x, xs)[i] == x || Insert(x, xs)[i] in xs
  {
    if xs == [] || Less(x.key, xs[0].key) {
    } else {
      InsertKeeps(x, xs[1..]);
      assert xs == [xs[0]] + xs[1..];
    }
  }

  lemma {:induction false} InsertSorts<T>(x: Keyed<T>, xs: seq<Keyed<T>>)
    requires Sorted(xs)
    ensures Sorted(Insert(x, xs))
  {
    if xs != [] {
      var r := Insert(x, xs);
      if Less(x.key, xs[0].key) {
        forall j | 0 < j < |r|
          ensures !Less(r[j].key, x.key)
        {
          LessIsTotal(x.key, xs[0].key);
          if j > 1 && Less(xs[j - 1].key, x.key) {
            LessIsTransitive(xs[j - 1].key, x.key, xs[0].key);
          }
        }
      } else {
        InsertSorts(x, xs[1..]);
        InsertKeeps(x, xs[1..]);
        forall j | 0 < j < |r|
          ensures !Less(r[j].key, xs[0].key)
        {
          assert r[j] == Insert(x, xs[1..])[j - 1] && r[j] in Insert(x, xs[1..]);
          if r[j] != x {
            assert r[j] in xs[1..];
            var k :| 1 <= k < |xs| && xs[k] == r[j];
          }
        }
      }
    }
  }

  lemma {:induction false} SortSorts<T>(xs: seq<Keyed<T>>)
    ensures Sorted(Sort(xs)) && multiset(Sort(xs)) == multiset(xs)
    ensures forall y :: y in Sort(xs) <==> y in xs
    ensures forall i | 0 <= i < |xs| :: Sort(xs)[i] in xs
  {
    if xs != [] {
      var init, last := xs[..|xs| - 1], xs[|xs| - 1];
      assert xs == init + [last];
      SortSorts(init);
      InsertSorts(last, Sort(init));
      InsertKeeps(last, Sort(init));
    }
  }

  /** The rows with this key, in their order. */
  function WithKey<T>(xs: seq<Keyed<T>>, key: Text): seq<Keyed<T>> {
    if xs == [] then [] else (if xs[0].key == key then [xs[0]] else []) + WithKey(xs[1..], key)
  }

  lemma {:induction false} RegroupRows<T>(a: seq<T>, b: seq<T>, c: seq<T>)
    ensures a + (b + c) == a + b + c
  {
  }

  lemma {:induction false} WithKeyConcat<T>(xs: seq<Keyed<T>>, ys: seq<Keyed<T>>, key: Text)
    ensures WithKey(xs + ys, key) == WithKey(xs, key) + WithKey(ys, key)
  {
    if xs == [] {
      assert xs + ys == ys;
    } else {
      WithKeyConcat(xs[1..], ys, key);
      assert (xs + ys)[1..] == xs[1..] + ys;
      RegroupRows(if xs[0].key == key then [xs[0]] else [], WithKey(xs[1..], key), WithKey(ys, key));
    }
  }

  lemma {:induction false} NoneWithKey<T>(xs: seq<Keyed<T>>, key: Text)
    requires forall i | 0 <= i < |xs| :: xs[i].key != key
    ensures WithKey(xs, key) == []
  {
    if xs != [] {
      NoneWithKey(xs[1..], key);
    }
  }

  /** A row goes in after all rows with its own key. */
  lemma {:induction false} InsertIsStable<T>(x: Keyed<T>, xs: seq<Keyed<T>>, key: Text)
    requires Sorted(xs)
    ensures WithKey(Insert(x, xs), key) == WithKey(xs, key) + (if x.key == key then [x] else [])
  {
    if xs == [] {
      assert Insert(x, xs)[1..] == [];
    } else if Less(x.key, xs[0].key) {
      forall i | 0 <= i < |xs|
        ensures xs[i].key != x.key
      {
        LessIsTotal(x.key, xs[0].key);
      }
      NoneWithKey(xs, x.key);
      assert ([x] + xs)[1..] == xs;
    } else {
      InsertIsStable(x, xs[1..], key);
      assert Insert(x, xs)[1..] == Insert(x, xs[1..]);
    }
  }

  lemma {:induction false} SortIsSorted<T>(xs: seq<Keyed<T>>)
    ensures Sorted(Sort(xs))
  {
    SortSorts(xs);
  }

  lemma {:induction false} LastWithKey<T>(xs: seq<Keyed<T>>, key: Text)
    requires xs != []
    ensures WithKey(xs, key) ==
            WithKey(xs[..|xs| - 1], key) + (if xs[|xs| - 1].key == key then [xs[|xs| - 1]] else [])
  {
    WithKeyConcat(xs[..|xs| - 1], [xs[|xs| - 1]], key);
    assert xs == xs[..|xs| - 1] + [xs[|xs| - 1]];
  }

  /** Sorting keeps the rows of each key in the order in which they came. */
  lemma {:induction false} SortIsStable<T>(xs: seq<Keyed<T>>, key: Text)
    ensures WithKey(Sort(xs), key) == WithKey(xs, key)
  {
    if xs != [] {
      var init, last := xs[..|xs| - 1], xs[|xs| - 1];
      SortIsStable(init, key);
      SortIsSorted(init);
      InsertIsStable(last, Sort(init), key);
      LastWithKey(xs, key);
    }
  }

  lemma {:induction false} FirstMember<T>(xs: seq<Keyed<T>>, ys: seq<Keyed<T>>)
    requires forall x :: x in xs <==> x in ys
    ensures ys != [] ==> ys[0] in xs
  {
    if ys != [] {
      assert ys[0] in ys;
    }
  }

  lemma {:induction false} SortedIsUnique<T>(xs: seq<Keyed<T>>, ys: seq<Keyed<T>>)
    requires Sorted(xs) && Sorted(ys) && DistinctKeys(xs) && DistinctKeys(ys)
    requires forall x :: x in xs <==> x in ys
    ensures xs == ys
  {
    if xs == [] {
      FirstMember(xs, ys);
    } else {
      assert xs[0] in ys && (ys != [] ==> ys[0] in xs);
      LessIsTotal(xs[0].key, ys[0].key);
      assert xs[0] == ys[0];
      forall x
        ensures x in xs[1..] <==> x in ys[1..]
      {
        TailMembers(xs, x);
        TailMembers(ys, x);
      }
      SortedIsUnique(xs[1..], ys[1..]);
      assert xs == [xs[0]] + xs[1..] && ys == [ys[0]] + ys[1..];
    }
  }

  lemma {:induction false} TailMembers<T>(xs: seq<Keyed<T>>, x: Keyed<T>)
    requires xs != [] && DistinctKeys(xs)
    ensures x in xs[1..] <==> x in xs && x != xs[0]
  {
    if x in xs[1..] {
      var i :| 0 <= i < |xs[1..]| && xs[1..][i] == x;
      assert xs[i + 1] == x;
    }
  }

  lemma {:induction false} InsertDistinct<T>(x: Keyed<T>, xs: seq<Keyed<T>>)
    requires DistinctKeys(xs) && forall i | 0 <= i < |xs| :: xs[i].key != x.key
    ensures DistinctKeys(Insert(x, xs))
  {
    if xs != [] && !Less(x.key, xs[0].key) {
      InsertDistinct(x, xs[1..]);
      InsertKeeps(x, xs[1..]);
      var r := Insert(x, xs[1..]);
      forall j | 0 <= j < |r|
        ensures r[j].key != xs[0].key
      {
        if r[j] != x {
          assert r[j] in xs[1..];
          var k :| 1 <= k < |xs| && xs[k] == r[j];
        }
      }
    }
  }

  lemma {:induction false} SortDistinct<T>(xs: seq<Keyed<T>>)
    requires DistinctKeys(xs)
    ensures DistinctKeys(Sort(xs))
  {
    if xs != [] {
      var init, last := xs[..|xs| - 1], xs[|xs| - 1];
      SortDistinct(init);
      SortSorts(init);
      forall i | 0 <= i < |Sort(init)|
        ensures Sort(init)[i].key != last.key
      {
        var y := Sort(init)[i];
        assert y in init;
        var k :| 0 <= k < |xs| - 1 && xs[k] == y;
      }
      InsertDistinct(last, Sort(init));
    }
  }

  /** Rows with distinct keys come out the same whatever order they went in. */
  lemma {:induction false} SortIgnoresInputOrder<T>(xs: seq<Keyed<T>>, ys: seq<Keyed<T>>)
    requires DistinctKeys(xs) && DistinctKeys(ys)
    requires forall x :: x in xs <==> x in ys
    ensures Sort(xs) == Sort(ys)
  {
    SortSorts(xs);
    SortSorts(ys);
    SortDistinct(xs);
    SortDistinct(ys);
    SortedIsUnique(Sort(xs), Sort(ys));
  }

  // ------------------------------------------------------------------ sorting two views of the same rows

  function Zip<A, B>(xs: seq<Keyed<A>>, ys: seq<Keyed<B>>): seq<Keyed<(A, B)>>
    requires |xs| == |ys|
  {
    seq(|xs|, i requires 0 <= i < |xs| => Keyed(xs[i].key, (xs[i].value, ys[i].value)))
  }

  predicate SameKeys<A, B>(xs: seq<Keyed<A>>, ys: seq<Keyed<B>>) {
    |xs| == |ys| && forall i | 0 <= i < |xs| :: xs[i].key == ys[i].key
  }

  lemma {:induction false} InsertZips<A, B>(x: Keyed<A>, y: Keyed<B>, xs: seq<Keyed<A>>, ys: seq<Keyed<B>>)
    requires x.key == y.key && SameKeys(xs, ys)
    ensures SameKeys(Insert(x, xs), Insert(y, ys))
    ensures Zip(Insert(x, xs), Insert(y, ys)) == Insert(Keyed(x.key, (x.value, y.value)), Zip(xs, ys))
  {
    if xs != [] && !Less(x.key, xs[0].key) {
      InsertZips(x, y, xs[1..], ys[1..]);
      assert Zip(xs, ys)[1..] == Zip(xs[1..], ys[1..]);
    }
  }

  lemma {:induction false} SortZips<A, B>(xs: seq<Keyed<A>>, ys: seq<Keyed<B>>)
    requires SameKeys(xs, ys)
    ensures SameKeys(Sort(xs), Sort(ys)) && Zip(Sort(xs), Sort(ys)) == Sort(Zip(xs, ys))
  {
    if xs != [] {
      var n := |xs| - 1;
      SortZips(xs[..n], ys[..n]);
      InsertZips(xs[n], ys[n], Sort(xs[..n]), Sort(ys[..n]));
      assert Zip(xs, ys)[..n] == Zip(xs[..n], ys[..n]);
    }
  }
}
