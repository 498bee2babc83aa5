/**
 Sorting by a comparator that may tie, as `Array.prototype.sort` does it: ordered, and keeping the
 original order among ties. The two conditions determine the result, so proving them of `Sort` is
 proving what the JavaScript engine returns.
 */
module StableSort {
  import opened Prelude

  ghost predicate TotalPreorder<T(!new)>(le: (T, T) -> bool) {
    && (forall x, y :: le(x, y) || le(y, x))
    && (forall x, y, z :: le(x, y) && le(y, z) ==> le(x, z))
  }

  ghost predicate SortedBy<T>(le: (T, T) -> bool, s: seq<T>) {
    forall i, j :: 0 <= i < j < |s| ==> le(s[i], s[j])
  }

  /** The elements of `s` that tie with `e`, in the order of `s`. */
  ghost function Ties<T>(le: (T, T) -> bool, e: T, s: seq<T>): seq<T> {
    Filter(x => le(e, x) && le(x, e), s)
  }

  ghost predicate KeepsTies<T(!new)>(le: (T, T) -> bool, s: seq<T>, r: seq<T>) {
    forall e :: Ties(le, e, r) == Ties(le, e, s)
  }

  function Insert<T>(le: (T, T) -> bool, x: T, s: seq<T>): seq<T> {
    if s == [] || le(x, s[0]) then [x] + s else [s[0]] + Insert(le, x, s[1..])
  }

  function Sort<T>(le: (T, T) -> bool, s: seq<T>): seq<T> {
    if s == [] then [] else Insert(le, s[0], Sort(le, s[1..]))
  }

  lemma {:induction false} InsertIsPermutation<T>(le: (T, T) -> bool, x: T, s: seq<T>)
    ensures multiset(Insert(le, x, s)) == multiset([x] + s)
  {
    if s != [] && !le(x, s[0]) {
      InsertIsPermutation(le, x, s[1..]);
      assert s == [s[0]] + s[1..];
    }
  }

  lemma {:induction false} SortIsPermutation<T>(le: (T, T) -> bool, s: seq<T>)
    ensures multiset(Sort(le, s)) == multiset(s)
    ensures |Sort(le, s)| == |s|
    ensures forall x :: x in Sort(le, s) <==> x in s
  {
    if s != [] {
      SortIsPermutation(le, s[1..]);
      InsertIsPermutation(le, s[0], Sort(le, s[1..]));
      assert s == [s[0]] + s[1..];
    }
    assert forall x :: x in Sort(le, s) <==> x in multiset(Sort(le, s));
    assert |multiset(s)| == |s| && |multiset(Sort(le, s))| == |Sort(le, s)|;
  }

  lemma {:induction false} InsertIsSorted<T(!new)>(le: (T, T) -> bool, x: T, s: seq<T>)
    requires TotalPreorder(le) && SortedBy(le, s)
    ensures SortedBy(le, Insert(le, x, s))
  {
    if s != [] && !le(x, s[0]) {
      InsertIsSorted(le, x, s[1..]);
      var r := Insert(le, x, s[1..]);
      forall y | y in r ensures le(s[0], y) {
        InsertIsPermutation(le, x, s[1..]);
        assert y in multiset(r);
      }
    }
  }

  lemma {:induction false} InsertKeepsTies<T(!new)>(le: (T, T) -> bool, e: T, x: T, s: seq<T>)
    requires TotalPreorder(le) && SortedBy(le, s)
    ensures Ties(le, e, Insert(le, x, s)) == Ties(le, e, [x] + s)
  {
    if s != [] && !le(x, s[0]) {
      InsertKeepsTies(le, e, x, s[1..]);
      assert !(le(x, e) && le(e, s[0]));
      assert ([x] + s)[1..] == s && ([x] + s[1..])[1..] == s[1..];
      var r := Insert(le, x, s);
      assert r[1..] == Insert(le, x, s[1..]);
      assert Ties(le, e, [x] + s) == (if le(e, x) && le(x, e) then [x] else []) + Ties(le, e, s);
    }
  }

  /** Sorted, a permutation, and stable. */
  lemma {:induction false} SortIsStable<T(!new)>(le: (T, T) -> bool, s: seq<T>)
    requires TotalPreorder(le)
    ensures SortedBy(le, Sort(le, s)) && KeepsTies(le, s, Sort(le, s))
  {
    if s != [] {
      SortIsStable(le, s[1..]);
      InsertIsSorted(le, s[0], Sort(le, s[1..]));
      forall e ensures Ties(le, e, Sort(le, s)) == Ties(le, e, s) {
        InsertKeepsTies(le, e, s[0], Sort(le, s[1..]));
        var t := [s[0]] + Sort(le, s[1..]);
        assert t[1..] == Sort(le, s[1..]);
        assert Ties(le, e, Sort(le, s[1..])) == Ties(le, e, s[1..]);
      }
    }
  }

  /** Only one arrangement is sorted and keeps the order of ties. */
  lemma {:induction false} StableSortIsUnique<T(!new)>(le: (T, T) -> bool, r1: seq<T>, r2: seq<T>)
    requires TotalPreorder(le)
    requires SortedBy(le, r1) && SortedBy(le, r2) && KeepsTies(le, r1, r2)
    ensures r1 == r2
  {
    if r2 != [] {
      var y := r2[0];
      assert y in Ties(le, y, r2);
      assert y in r1;
    }
    if r1 != [] {
      var x := r1[0];
      assert x in Ties(le, x, r1);
      assert x in r2;
      var y := r2[0];
      assert le(x, y) && le(y, x);
      assert Ties(le, x, r1)[0] == x && Ties(le, x, r2)[0] == y;
      forall e ensures Ties(le, e, r1[1..]) == Ties(le, e, r2[1..]) {
        var t1, t2 := Ties(le, e, r1), Ties(le, e, r2);
        assert t1 == t2;
        if le(e, x) && le(x, e) {
          assert t1[1..] == Ties(le, e, r1[1..]);
          assert t2[1..] == Ties(le, e, r2[1..]);
        } else {
          assert t1 == Ties(le, e, r1[1..]);
          assert t2 == Ties(le, e, r2[1..]);
        }
      }
      StableSortIsUnique(le, r1[1..], r2[1..]);
    }
  }
}
