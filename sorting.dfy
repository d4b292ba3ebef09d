/** `Array.prototype.sort` with a comparator, which ECMA-262 (section 23.1.3.30)
    requires to be stable. The comparator `cmp(a, b)` is represented by the relation
    `le(a, b)`, meaning `cmp(a, b) <= 0` ("a may stay before b"). The sort is given as
    a stable insertion sort; what callers rely on is proved about it below: the
    result is sorted, is a permutation of the input, and keeps the input order of
    elements the comparator calls equal. */
module Sorting {

  /** The comparator is consistent: total and transitive. */
  ghost predicate TotalPreorder<T(!new)>(le: (T, T) -> bool) {
    && (forall x, y :: le(x, y) || le(y, x))
    && (forall x, y, z :: le(x, y) && le(y, z) ==> le(x, z))
  }

  ghost predicate SortedBy<T>(s: seq<T>, le: (T, T) -> bool) {
    forall i, j :: 0 <= i < j < |s| ==> le(s[i], s[j])
  }

  /** The comparator returns 0 for x and y. */
  predicate Tied<T>(le: (T, T) -> bool, x: T, y: T) {
    le(x, y) && le(y, x)
  }

  /** The elements of s the comparator ties with x, in their order in s. */
  function TiedWith<T>(s: seq<T>, le: (T, T) -> bool, x: T): seq<T> {
    if s == [] then []
    else (if Tied(le, x, s[0]) then [s[0]] else []) + TiedWith(s[1..], le, x)
  }

  /** Places x in front of the first element it may precede. */
  function InsertBy<T>(x: T, s: seq<T>, le: (T, T) -> bool): (r: seq<T>)
    ensures multiset(r) == multiset(s) + multiset{x}
    ensures |r| == |s| + 1
  {
    if s == [] then [x]
    else if le(x, s[0]) then [x] + s
    else
      assert s == [s[0]] + s[1..];
      [s[0]] + InsertBy(x, s[1..], le)
  }

  /** The stable sort of s under le. */
  function SortBy<T>(s: seq<T>, le: (T, T) -> bool): (r: seq<T>)
    ensures multiset(r) == multiset(s)
    ensures |r| == |s|
  {
    if s == [] then []
    else
      assert s == [s[0]] + s[1..];
      InsertBy(s[0], SortBy(s[1..], le), le)
  }

  lemma {:induction false} InsertSorted<T(!new)>(x: T, s: seq<T>, le: (T, T) -> bool)
    requires TotalPreorder(le) && SortedBy(s, le)
    ensures SortedBy(InsertBy(x, s, le), le)
  {
    if s == [] {
    } else if le(x, s[0]) {
      var r := [x] + s;
      forall i, j | 0 <= i < j < |r| ensures le(r[i], r[j]) {
        if i > 0 {
        } else {
          assert le(x, s[0]) && (j == 1 || le(s[0], s[j - 1]));
        }
      }
    } else {
      InsertSorted(x, s[1..], le);
      var t := InsertBy(x, s[1..], le);
      assert le(s[0], x);
      forall k | 0 <= k < |t| ensures le(s[0], t[k]) {
        assert t[k] in multiset(t);
        if t[k] != x {
          assert t[k] in multiset(s[1..]);
          assert t[k] in s[1..];
          var m :| 0 <= m < |s[1..]| && s[1..][m] == t[k];
          assert s[m + 1] == t[k];
        }
      }
      var r := [s[0]] + t;
      forall i, j | 0 <= i < j < |r| ensures le(r[i], r[j]) {
        if i > 0 {
          assert r[i] == t[i - 1] && r[j] == t[j - 1];
        } else {
          assert r[j] == t[j - 1];
        }
      }
    }
  }

  /** The result of the sort is ordered by the comparator. */
  lemma {:induction false} SortSorted<T(!new)>(s: seq<T>, le: (T, T) -> bool)
    requires TotalPreorder(le)
    ensures SortedBy(SortBy(s, le), le)
  {
    if s != [] {
      SortSorted(s[1..], le);
      InsertSorted(s[0], SortBy(s[1..], le), le);
    }
  }

  lemma TiedWithCons<T>(h: T, t: seq<T>, le: (T, T) -> bool, x: T)
    ensures TiedWith([h] + t, le, x) == (if Tied(le, x, h) then [h] else []) + TiedWith(t, le, x)
  {
    assert ([h] + t)[1..] == t;
  }

  lemma {:induction false} TiedWithAppend<T>(a: seq<T>, b: seq<T>, le: (T, T) -> bool, x: T)
    ensures TiedWith(a + b, le, x) == TiedWith(a, le, x) + TiedWith(b, le, x)
  {
    if a == [] {
      assert a + b == b;
    } else {
      assert a + b == [a[0]] + (a[1..] + b);
      assert a == [a[0]] + a[1..];
      TiedWithCons(a[0], a[1..] + b, le, x);
      TiedWithCons(a[0], a[1..], le, x);
      TiedWithAppend(a[1..], b, le, x);
    }
  }

  lemma SwapEmpty<T>(a: seq<T>, b: seq<T>, c: seq<T>)
    requires a == [] || b == []
    ensures a + (b + c) == b + (a + c)
  {
    if a == [] {
      assert a + (b + c) == b + c;
      assert a + c == c;
    } else {
      assert b + c == c;
      assert b + (a + c) == a + c;
    }
  }

  /** An element strictly before y is not tied with anything y is tied with. */
  lemma NotBothTied<T(!new)>(h: T, y: T, le: (T, T) -> bool, x: T)
    requires TotalPreorder(le) && !le(y, h)
    ensures !(Tied(le, x, y) && Tied(le, x, h))
  {
  }

  /** Inserting y keeps, among the elements tied with x, the order "y first". */
  lemma {:induction false} InsertTiedWith<T(!new)>(y: T, s: seq<T>, le: (T, T) -> bool, x: T)
    requires TotalPreorder(le)
    ensures TiedWith(InsertBy(y, s, le), le, x) == TiedWith([y] + s, le, x)
  {
    if s == [] || le(y, s[0]) {
    } else {
      var h, t := s[0], s[1..];
      assert s == [h] + t;
      NotBothTied(h, y, le, x);
      InsertTiedWith(y, t, le, x);
      var hs := if Tied(le, x, h) then [h] else [];
      var ys := if Tied(le, x, y) then [y] else [];
      assert hs == [] || ys == [];
      assert InsertBy(y, s, le) == [h] + InsertBy(y, t, le);
      TiedWithCons(h, InsertBy(y, t, le), le, x);
      TiedWithCons(y, t, le, x);
      TiedWithCons(h, t, le, x);
      TiedWithCons(y, s, le, x);
      assert TiedWith(InsertBy(y, s, le), le, x) == hs + (ys + TiedWith(t, le, x));
      assert TiedWith([y] + s, le, x) == ys + (hs + TiedWith(t, le, x));
      SwapEmpty(hs, ys, TiedWith(t, le, x));
    }
  }

  /** Stability: for every x, the elements tied with x appear in the result in the
      same order as in the input. */
  lemma {:induction false} SortStable<T(!new)>(s: seq<T>, le: (T, T) -> bool, x: T)
    requires TotalPreorder(le)
    ensures TiedWith(SortBy(s, le), le, x) == TiedWith(s, le, x)
  {
    if s != [] {
      SortStable(s[1..], le, x);
      InsertTiedWith(s[0], SortBy(s[1..], le), le, x);
      TiedWithAppend([s[0]], SortBy(s[1..], le), le, x);
      TiedWithAppend([s[0]], s[1..], le, x);
      assert s == [s[0]] + s[1..];
    }
  }
}
