/**
 * `Array.prototype.sort` with a comparator, as the listing uses it. `le(a, b)` stands for
 * "the comparator returns a value <= 0 for (a, b)", so `a` may come first. Since ECMAScript
 * 2019 the sort is stable: elements that rank equally keep their order. The model sorts by
 * insertion, which is stable too.
 */
module Sorting {

  /** The comparator describes a total preorder, so a sorted order exists. */
  ghost predicate TotalPreorder<T(!new)>(le: (T, T) -> bool) {
    && (forall a, b :: le(a, b) || le(b, a))
    && (forall a, b, c :: le(a, b) && le(b, c) ==> le(a, c))
  }

  /** Every element may come before every later one. */
  ghost predicate Sorted<T>(s: seq<T>, le: (T, T) -> bool) {
    forall i, j :: 0 <= i < j < |s| ==> le(s[i], s[j])
  }

  /** `a` and `b` rank equally: each may come before the other. */
  predicate Tied<T>(le: (T, T) -> bool, a: T, b: T) {
    le(a, b) && le(b, a)
  }

  /** The elements of `s` that rank equally with `x`, in their order in `s`. */
  function TiedWith<T>(s: seq<T>, le: (T, T) -> bool, x: T): seq<T> {
    if s == [] then []
    else (if Tied(le, s[0], x) then [s[0]] else []) + TiedWith(s[1..], le, x)
  }

  /** `x` placed into sorted `s` before the first element it may precede. */
  function Insert<T(!new)>(x: T, s: seq<T>, le: (T, T) -> bool): (r: seq<T>)
    requires TotalPreorder(le) && Sorted(s, le)
    ensures multiset(r) == multiset(s) + multiset{x}
    ensures Sorted(r, le)
  {
    if s == [] then [x]
    else if le(x, s[0]) then [x] + s
    else
      var t := Insert(x, s[1..], le);
      assert s == [s[0]] + s[1..];
      assert forall k :: 0 <= k < |t| ==> le(s[0], t[k]) by {
        forall k | 0 <= k < |t| ensures le(s[0], t[k]) {
          assert t[k] in multiset(t);
          assert t[k] == x || t[k] in multiset(s[1..]);
          if t[k] != x {
            var m :| 0 <= m < |s[1..]| && s[1..][m] == t[k];
            assert s[m + 1] == t[k];
          }
        }
      }
      [s[0]] + t
  }

  /** The sorted copy: a permutation of `s` in which every element may precede every later one. */
  function Sort<T(!new)>(s: seq<T>, le: (T, T) -> bool): (r: seq<T>)
    requires TotalPreorder(le)
    ensures multiset(r) == multiset(s)
    ensures |r| == |s|
    ensures Sorted(r, le)
  {
    if s == [] then []
    else
      assert s == [s[0]] + s[1..];
      Insert(s[0], Sort(s[1..], le), le)
  }

  /** The ties of `[a] + s`: `a` if it ties, then the ties of `s`. */
  lemma TiedWithCons<T>(a: T, s: seq<T>, le: (T, T) -> bool, z: T)
    ensures TiedWith([a] + s, le, z) == (if Tied(le, a, z) then [a] else []) + TiedWith(s, le, z)
  {
    assert ([a] + s)[1..] == s;
  }

  /** Two elements that both tie with `z` may come in either order. */
  lemma TiesAreTied<T(!new)>(le: (T, T) -> bool, a: T, b: T, z: T)
    requires TotalPreorder(le)
    ensures Tied(le, a, z) && Tied(le, b, z) ==> le(a, b)
  {
    if Tied(le, a, z) && Tied(le, b, z) {
      assert le(a, z) && le(z, b);
    }
  }

  /**
   * Inserting `x` puts it before every element of `s` that ranks equally with it, and keeps
   * the order of those elements.
   */
  lemma {:induction false} InsertKeepsTies<T(!new)>(x: T, s: seq<T>, le: (T, T) -> bool, z: T)
    requires TotalPreorder(le) && Sorted(s, le)
    ensures TiedWith(Insert(x, s, le), le, z) == (if Tied(le, x, z) then [x] else []) + TiedWith(s, le, z)
  {
    if s == [] {
      TiedWithCons(x, [], le, z);
      assert [x] + [] == [x];
    } else if le(x, s[0]) {
      TiedWithCons(x, s, le, z);
    } else {
      assert Sorted(s[1..], le);
      InsertKeepsTies(x, s[1..], le, z);
      TiedWithCons(s[0], s[1..], le, z);
      TiedWithCons(s[0], Insert(x, s[1..], le), le, z);
      assert s == [s[0]] + s[1..];
      TiesAreTied(le, x, s[0], z);
    }
  }

  /**
   * The sort is stable: for every `z`, the elements that rank equally with `z` come in the
   * same order in the sorted copy as in the input.
   */
  lemma {:induction false} SortKeepsTies<T(!new)>(s: seq<T>, le: (T, T) -> bool, z: T)
    requires TotalPreorder(le)
    ensures TiedWith(Sort(s, le), le, z) == TiedWith(s, le, z)
  {
    if s != [] {
      SortKeepsTies(s[1..], le, z);
      InsertKeepsTies(s[0], Sort(s[1..], le), le, z);
    }
  }
}
