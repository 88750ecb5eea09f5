/**
 * `Array.prototype.sort` with a comparator, which JavaScript guarantees to be stable.
 * Every comparator of the source that is a consistent order compares a chain of
 * numbers (and, for `localeCompare`, character codes); `SortBy` sorts by such a
 * chain, given as a key of type `seq<int>` compared lexicographically.
 */
module Sorting {
  import opened Common

  /** Lexicographic order on integer chains; a proper prefix comes first. */
  predicate LexLe(a: seq<int>, b: seq<int>)
    decreases |a|
  {
    a == [] || (b != [] && (a[0] < b[0] || (a[0] == b[0] && LexLe(a[1..], b[1..]))))
  }

  lemma {:induction false} LexLeRefl(a: seq<int>)
    ensures LexLe(a, a)
    decreases |a|
  {
    if a != [] { LexLeRefl(a[1..]); }
  }

  lemma {:induction false} LexLeTotal(a: seq<int>, b: seq<int>)
    ensures LexLe(a, b) || LexLe(b, a)
    decreases |a|
  {
    if a != [] && b != [] && a[0] == b[0] { LexLeTotal(a[1..], b[1..]); }
  }

  lemma {:induction false} LexLeTrans(a: seq<int>, b: seq<int>, c: seq<int>)
    requires LexLe(a, b) && LexLe(b, c)
    ensures LexLe(a, c)
    decreases |a|
  {
    if a != [] && b != [] && c != [] && a[0] == b[0] == c[0] { LexLeTrans(a[1..], b[1..], c[1..]); }
  }

  lemma {:induction false} LexLeAntisym(a: seq<int>, b: seq<int>)
    requires LexLe(a, b) && LexLe(b, a)
    ensures a == b
    decreases |a|
  {
    if a != [] {
      LexLeAntisym(a[1..], b[1..]);
      assert a == [a[0]] + a[1..] && b == [b[0]] + b[1..];
    }
  }

  /** Two chains that agree on their first element compare as their tails do. */
  lemma LexLeCons(x: int, a: seq<int>, b: seq<int>)
    ensures LexLe([x] + a, [x] + b) <==> LexLe(a, b)
  {
    assert ([x] + a)[1..] == a && ([x] + b)[1..] == b;
  }

  /** A key made of a fixed-length part and a tail orders by the first part, then by the tail. */
  lemma {:induction false} LexLeConcat(a: seq<int>, b: seq<int>, c: seq<int>, d: seq<int>)
    requires |a| == |c|
    ensures LexLe(a + b, c + d) <==> (a != c && LexLe(a, c)) || (a == c && LexLe(b, d))
    decreases |a|
  {
    if a != [] {
      LexLeConcat(a[1..], b, c[1..], d);
      assert (a + b)[0] == a[0] && (a + b)[1..] == a[1..] + b;
      assert (c + d)[0] == c[0] && (c + d)[1..] == c[1..] + d;
      assert a == [a[0]] + a[1..] && c == [c[0]] + c[1..];
    } else {
      assert a + b == b && c + d == d;
    }
  }

  /** Put `x` in front of the first element of `s` whose key is not smaller than its own. */
  function Insert<T>(x: T, s: seq<T>, key: T -> seq<int>): (r: seq<T>)
    ensures |r| == |s| + 1
  {
    if s == [] then [x]
    else if LexLe(key(x), key(s[0])) then [x] + s
    else [s[0]] + Insert(x, s[1..], key)
  }

  /** Stable sort of `s` by ascending `key`. */
  function SortBy<T>(s: seq<T>, key: T -> seq<int>): (r: seq<T>)
    ensures |r| == |s|
  {
    if s == [] then [] else Insert(s[0], SortBy(s[1..], key), key)
  }

  ghost predicate SortedBy<T>(s: seq<T>, key: T -> seq<int>) {
    forall i, j :: 0 <= i < j < |s| ==> LexLe(key(s[i]), key(s[j]))
  }

  /** The elements of `s` whose key is `k`, in order. */
  function Tied<T>(s: seq<T>, key: T -> seq<int>, k: seq<int>): seq<T> {
    if s == [] then [] else (if key(s[0]) == k then [s[0]] else []) + Tied(s[1..], key, k)
  }

  lemma InsertMultiset<T>(x: T, s: seq<T>, key: T -> seq<int>)
    ensures multiset(Insert(x, s, key)) == multiset(s) + multiset{x}
  {
    if s != [] && !LexLe(key(x), key(s[0])) {
      InsertMultiset(x, s[1..], key);
      assert s == [s[0]] + s[1..];
    }
  }

  /** Sorting rearranges: the result holds exactly the input's elements, as often as the input does. */
  lemma {:induction false} SortByPermutation<T>(s: seq<T>, key: T -> seq<int>)
    ensures multiset(SortBy(s, key)) == multiset(s)
  {
    if s != [] {
      SortByPermutation(s[1..], key);
      InsertMultiset(s[0], SortBy(s[1..], key), key);
      assert s == [s[0]] + s[1..];
    }
  }

  lemma {:induction false} InsertSorted<T>(x: T, s: seq<T>, key: T -> seq<int>)
    requires SortedBy(s, key)
    ensures SortedBy(Insert(x, s, key), key)
  {
    if s == [] {
    } else if LexLe(key(x), key(s[0])) {
      forall j | 0 < j < |s| ensures LexLe(key(x), key(s[j])) {
        LexLeTrans(key(x), key(s[0]), key(s[j]));
      }
    } else {
      var t := Insert(x, s[1..], key);
      InsertSorted(x, s[1..], key);
      LexLeTotal(key(x), key(s[0]));
      InsertMultiset(x, s[1..], key);
      forall j | 0 <= j < |t| ensures LexLe(key(s[0]), key(t[j])) {
        assert t[j] in multiset(t);
        if t[j] != x {
          assert t[j] in s[1..];
        }
      }
      SortedByCons(s[0], t, key);
    }
  }

  /** A sorted sequence stays sorted behind an element whose key is at most all of its keys. */
  lemma SortedByCons<T>(y: T, t: seq<T>, key: T -> seq<int>)
    requires SortedBy(t, key)
    requires forall j :: 0 <= j < |t| ==> LexLe(key(y), key(t[j]))
    ensures SortedBy([y] + t, key)
  {
    var r := [y] + t;
    forall i, j | 0 <= i < j < |r| ensures LexLe(key(r[i]), key(r[j])) {
      assert r[j] == t[j - 1];
      if i > 0 {
        assert r[i] == t[i - 1];
      }
    }
  }

  /** The result is in ascending key order. */
  lemma {:induction false} SortBySorted<T>(s: seq<T>, key: T -> seq<int>)
    ensures SortedBy(SortBy(s, key), key)
  {
    if s != [] {
      SortBySorted(s[1..], key);
      InsertSorted(s[0], SortBy(s[1..], key), key);
    }
  }

  lemma TiedCons<T>(x: T, s: seq<T>, key: T -> seq<int>, k: seq<int>)
    ensures Tied([x] + s, key, k) == (if key(x) == k then [x] else []) + Tied(s, key, k)
  {
    assert ([x] + s)[0] == x && ([x] + s)[1..] == s;
  }

  lemma {:induction false} InsertTied<T>(x: T, s: seq<T>, key: T -> seq<int>, k: seq<int>)
    ensures Tied(Insert(x, s, key), key, k) == (if key(x) == k then [x] else []) + Tied(s, key, k)
  {
    if s == [] {
      TiedCons(x, s, key, k);
    } else if LexLe(key(x), key(s[0])) {
      TiedCons(x, s, key, k);
    } else {
      var t := Insert(x, s[1..], key);
      assert Insert(x, s, key) == [s[0]] + t;
      TiedCons(s[0], t, key, k);
      TiedCons(s[0], s[1..], key, k);
      assert [s[0]] + s[1..] == s;
      InsertTied(x, s[1..], key, k);
      var rest := Tied(s[1..], key, k);
      if key(x) == k {
        LexLeRefl(key(x));
        assert key(s[0]) != k;
        assert Tied(Insert(x, s, key), key, k) == [x] + rest;
      } else if key(s[0]) == k {
        assert Tied(Insert(x, s, key), key, k) == [s[0]] + rest;
      } else {
        assert Tied(Insert(x, s, key), key, k) == rest;
      }
    }
  }

  /** Stability: among elements with equal keys the input order is kept. */
  lemma {:induction false} SortByStable<T>(s: seq<T>, key: T -> seq<int>, k: seq<int>)
    ensures Tied(SortBy(s, key), key, k) == Tied(s, key, k)
  {
    if s != [] {
      SortByStable(s[1..], key, k);
      InsertTied(s[0], SortBy(s[1..], key), key, k);
    }
  }

  lemma {:induction false} InsertSum<T>(x: T, s: seq<T>, key: T -> seq<int>, f: T -> int)
    ensures SumOf(Insert(x, s, key), f) == f(x) + SumOf(s, f)
  {
    if s == [] {
      assert SumOf([x], f) == SumOf([x][..0], f) + f(x);
    } else if LexLe(key(x), key(s[0])) {
      SumOfAppend([x], s, f);
      assert SumOf([x], f) == SumOf([x][..0], f) + f(x);
    } else {
      InsertSum(x, s[1..], key, f);
      SumOfAppend([s[0]], Insert(x, s[1..], key), f);
      SumOfAppend([s[0]], s[1..], f);
      assert [s[0]] + s[1..] == s;
    }
  }

  /** Sorting does not change a sum over the elements. */
  lemma {:induction false} SortBySum<T>(s: seq<T>, key: T -> seq<int>, f: T -> int)
    ensures SumOf(SortBy(s, key), f) == SumOf(s, f)
  {
    if s != [] {
      SortBySum(s[1..], key, f);
      InsertSum(s[0], SortBy(s[1..], key), key, f);
      SumOfAppend([s[0]], s[1..], f);
      assert [s[0]] + s[1..] == s;
      assert SumOf([s[0]], f) == SumOf([s[0]][..0], f) + f(s[0]);
    }
  }

  /**
   * `s[i]` passes `p`, no element passing `p` has a smaller key, and every
   * element before it that passes `p` has a strictly larger key.
   */
  ghost predicate FirstMinimumAt<T>(s: seq<T>, p: T -> bool, key: T -> seq<int>, i: int) {
    0 <= i < |s| && p(s[i])
    && (forall j :: 0 <= j < |s| && p(s[j]) ==> LexLe(key(s[i]), key(s[j])))
    && (forall j :: 0 <= j < i && p(s[j]) ==> !LexLe(key(s[j]), key(s[i])))
  }

  /**
   * Taking the head of the stably sorted filtered list picks, among the elements
   * that pass the filter, one whose key is smallest, and of those the earliest.
   */
  lemma {:induction false} SortFilterHead<T>(s: seq<T>, p: T -> bool, key: T -> seq<int>)
    requires Filter(s, p) != []
    ensures SortBy(Filter(s, p), key) != []
    ensures exists i :: 0 <= i < |s| && s[i] == SortBy(Filter(s, p), key)[0] && FirstMinimumAt(s, p, key, i)
  {
    var x, t := s[0], s[1..];
    assert s == [x] + t;
    FilterFront(x, t, p);
    var ft := Filter(t, p);
    if !p(x) {
      SortFilterHead(t, p, key);
      var i' :| 0 <= i' < |t| && t[i'] == SortBy(ft, key)[0] && FirstMinimumAt(t, p, key, i');
      assert Filter(s, p) == ft;
      ShiftFirstMinimum(x, t, p, key, i');
      assert s[i' + 1] == t[i'];
    } else if ft == [] {
      assert Filter(s, p) == [x];
      assert SortBy([x], key) == [x];
      forall j | 0 <= j < |t| ensures !p(t[j]) {
        FilterMember(t, p, t[j]);
      }
      HeadFirstMinimum(x, t, p, key);
    } else {
      SortFilterHead(t, p, key);
      var st := SortBy(ft, key);
      var i' :| 0 <= i' < |t| && t[i'] == st[0] && FirstMinimumAt(t, p, key, i');
      assert SortBy(Filter(s, p), key) == Insert(x, st, key);
      if LexLe(key(x), key(st[0])) {
        assert SortBy(Filter(s, p), key)[0] == x;
        forall j | 0 <= j < |t| && p(t[j]) ensures LexLe(key(x), key(t[j])) {
          LexLeTrans(key(x), key(st[0]), key(t[j]));
        }
        HeadFirstMinimum(x, t, p, key);
      } else {
        assert SortBy(Filter(s, p), key)[0] == st[0];
        ShiftFirstMinimum(x, t, p, key, i');
        assert s[i' + 1] == t[i'];
      }
    }
  }

  lemma ShiftFirstMinimum<T>(x: T, t: seq<T>, p: T -> bool, key: T -> seq<int>, i: int)
    requires FirstMinimumAt(t, p, key, i)
    requires p(x) ==> !LexLe(key(x), key(t[i]))
    ensures FirstMinimumAt([x] + t, p, key, i + 1)
  {
    var s := [x] + t;
    if p(x) { LexLeTotal(key(x), key(t[i])); }
    forall j | 0 <= j < |s| && p(s[j]) ensures LexLe(key(s[i + 1]), key(s[j])) {
      if j > 0 { assert s[j] == t[j - 1]; }
    }
    forall j | 0 <= j < i + 1 && p(s[j]) ensures !LexLe(key(s[j]), key(s[i + 1])) {
      if j > 0 { assert s[j] == t[j - 1]; }
    }
  }

  lemma HeadFirstMinimum<T>(x: T, t: seq<T>, p: T -> bool, key: T -> seq<int>)
    requires p(x)
    requires forall j :: 0 <= j < |t| && p(t[j]) ==> LexLe(key(x), key(t[j]))
    ensures FirstMinimumAt([x] + t, p, key, 0)
  {
    var s := [x] + t;
    LexLeRefl(key(x));
    forall j | 0 <= j < |s| && p(s[j]) ensures LexLe(key(s[0]), key(s[j])) {
      if j > 0 { assert s[j] == t[j - 1]; }
    }
  }

  /** The key of the form `[a] + codes(text)` orders by `a`, then by the text's characters. */
  function Codes(s: string): (r: seq<int>)
    ensures |r| == |s|
    ensures forall i :: 0 <= i < |s| ==> r[i] == s[i] as int
  {
    if s == [] then [] else [s[0] as int] + Codes(s[1..])
  }

  // ---------------------------------------------------------------------------
  // Sorting with a comparator

  /** Put `x` in front of the first element `e` of `s` with `le(x, e)`. */
  function InsertWith<T>(x: T, s: seq<T>, le: (T, T) -> bool): (r: seq<T>)
    ensures |r| == |s| + 1
    ensures multiset(r) == multiset(s) + multiset{x}
  {
    if s == [] then [x]
    else if le(x, s[0]) then [x] + s
    else
      assert s == [s[0]] + s[1..];
      [s[0]] + InsertWith(x, s[1..], le)
  }

  /**
   * `Array.prototype.sort(compare)` as a stable insertion sort, with `le(a, b)`
   * meaning `compare(a, b) <= 0`.
   */
  function SortWith<T>(s: seq<T>, le: (T, T) -> bool): (r: seq<T>)
    ensures |r| == |s|
    ensures multiset(r) == multiset(s)
  {
    if s == [] then []
    else
      assert s == [s[0]] + s[1..];
      InsertWith(s[0], SortWith(s[1..], le), le)
  }

  ghost predicate SortedWith<T>(s: seq<T>, le: (T, T) -> bool) {
    forall i, j :: 0 <= i < j < |s| ==> le(s[i], s[j])
  }

  /** `le` is a total preorder on the elements of `s`. */
  ghost predicate PreorderOn<T>(s: seq<T>, le: (T, T) -> bool) {
    (forall a, b :: a in s && b in s ==> le(a, b) || le(b, a))
    && (forall a, b, c :: a in s && b in s && c in s && le(a, b) && le(b, c) ==> le(a, c))
  }

  /** A lower bound of `x` and of every element of `s` bounds every element of the insertion. */
  lemma {:induction false} InsertWithBound<T>(y: T, x: T, s: seq<T>, le: (T, T) -> bool)
    requires le(y, x) && forall j :: 0 <= j < |s| ==> le(y, s[j])
    ensures forall j :: 0 <= j < |s| + 1 ==> le(y, InsertWith(x, s, le)[j])
  {
    if s != [] && !le(x, s[0]) {
      InsertWithBound(y, x, s[1..], le);
      var r, t := InsertWith(x, s, le), InsertWith(x, s[1..], le);
      assert r == [s[0]] + t;
      forall j | 0 < j < |s| + 1 ensures le(y, r[j]) {
        assert r[j] == t[j - 1];
      }
    }
  }

  lemma SortedCons<T>(x: T, s: seq<T>, le: (T, T) -> bool)
    requires SortedWith(s, le) && forall j :: 0 <= j < |s| ==> le(x, s[j])
    ensures SortedWith([x] + s, le)
  {
    var r := [x] + s;
    forall i, j | 0 <= i < j < |r| ensures le(r[i], r[j]) {
      if i > 0 { assert r[i] == s[i - 1] && r[j] == s[j - 1]; }
    }
  }

  lemma {:induction false} InsertWithSorted<T>(x: T, s: seq<T>, le: (T, T) -> bool)
    requires SortedWith(s, le) && PreorderOn([x] + s, le)
    ensures SortedWith(InsertWith(x, s, le), le)
  {
    if s != [] {
      var all := [x] + s;
      assert all[0] == x && all[1] == s[0];
      if le(x, s[0]) {
        forall j | 0 < j < |s| ensures le(x, s[j]) {
          assert all[j + 1] == s[j];
        }
        SortedCons(x, s, le);
      } else {
        var t := s[1..];
        assert le(s[0], x);
        assert PreorderOn([x] + t, le) by {
          assert forall y :: y in [x] + t ==> y in all;
        }
        InsertWithSorted(x, t, le);
        InsertWithBound(s[0], x, t, le);
        SortedCons(s[0], InsertWith(x, t, le), le);
      }
    }
  }

  /** With a comparator that is a total preorder on the elements, the result is sorted. */
  lemma {:induction false} SortWithSorted<T>(s: seq<T>, le: (T, T) -> bool)
    requires PreorderOn(s, le)
    ensures SortedWith(SortWith(s, le), le)
  {
    if s != [] {
      var t := s[1..];
      assert s == [s[0]] + t;
      assert forall y :: y in t ==> y in s;
      assert PreorderOn(t, le);
      SortWithSorted(t, le);
      var sorted := SortWith(t, le);
      assert forall y :: y in [s[0]] + sorted ==> y in s by {
        forall y | y in [s[0]] + sorted ensures y in s {
          if y != s[0] { assert y in multiset(sorted); }
        }
      }
      InsertWithSorted(s[0], sorted, le);
    }
  }

  /** A comparator that compares an integer key sorts by that key. */
  lemma SortWithByKey<T>(s: seq<T>, le: (T, T) -> bool, key: T -> int)
    requires forall a, b :: a in s && b in s ==> le(a, b) == (key(a) <= key(b))
    ensures var r := SortWith(s, le);
      forall i, j :: 0 <= i < j < |r| ==> key(r[i]) <= key(r[j])
  {
    SortWithSorted(s, le);
    var r := SortWith(s, le);
    forall i, j | 0 <= i < j < |r| ensures key(r[i]) <= key(r[j]) {
      assert r[i] in multiset(r) && r[j] in multiset(r);
    }
  }
}
