/** Failure-carrying wrappers used across the model. */
module Common {

  /** A value that may be absent: `undefined` / `null` in the source. */
  datatype Option<+T> = None | Some(value: T) {
    function GetOr(default: T): T {
      match this
      case Some(v) => v
      case None => default
    }
  }

  /** The outcome of an operation that the source ends with `throw`. */
  datatype Result<+R, +E> = Success(value: R) | Failure(error: E)

  /** Number of elements of `s` that satisfy `p`. */
  function CountWhere<T>(s: seq<T>, p: T -> bool): (n: nat)
    ensures n <= |s|
  {
    if s == [] then 0 else CountWhere(s[..|s| - 1], p) + (if p(s[|s| - 1]) then 1 else 0)
  }

  lemma CountWhereSnoc<T>(s: seq<T>, x: T, p: T -> bool)
    ensures CountWhere(s + [x], p) == CountWhere(s, p) + (if p(x) then 1 else 0)
  {
    assert (s + [x])[..|s|] == s;
  }

  /** The elements of `s` that satisfy `p`, in order (`Array.prototype.filter`). */
  function Filter<T>(s: seq<T>, p: T -> bool): (r: seq<T>)
    ensures |r| == CountWhere(s, p)
    ensures forall x :: x in r ==> x in s && p(x)
  {
    if s == [] then [] else Filter(s[..|s| - 1], p) + (if p(s[|s| - 1]) then [s[|s| - 1]] else [])
  }

  lemma {:induction false} FilterAppend<T>(a: seq<T>, b: seq<T>, p: T -> bool)
    ensures Filter(a + b, p) == Filter(a, p) + Filter(b, p)
    decreases |b|
  {
    if b == [] {
      assert a + b == a;
    } else {
      var init, last := b[..|b| - 1], b[|b| - 1];
      var ab := a + b;
      assert ab[..|ab| - 1] == a + init && ab[|ab| - 1] == last;
      var tail := if p(last) then [last] else [];
      FilterAppend(a, init, p);
      assert Filter(ab, p) == (Filter(a, p) + Filter(init, p)) + tail;
      assert Filter(b, p) == Filter(init, p) + tail;
      AppendAssoc(Filter(a, p), Filter(init, p), tail);
    }
  }

  lemma AppendAssoc<T>(x: seq<T>, y: seq<T>, z: seq<T>)
    ensures (x + y) + z == x + (y + z)
  {
  }

  lemma {:induction false} FilterAll<T>(s: seq<T>, p: T -> bool)
    requires forall x :: x in s ==> p(x)
    ensures Filter(s, p) == s
  {
    if s != [] {
      var init, last := s[..|s| - 1], s[|s| - 1];
      assert s == init + [last];
      FilterAll(init, p);
      assert p(last);
    }
  }

  lemma {:induction false} FilterNone<T>(s: seq<T>, p: T -> bool)
    requires forall x :: x in s ==> !p(x)
    ensures Filter(s, p) == []
  {
    if s != [] {
      FilterNone(s[..|s| - 1], p);
    }
  }

  /** `x` survives the filter exactly when it is in `s` and satisfies `p`. */
  lemma {:induction false} FilterMember<T>(s: seq<T>, p: T -> bool, x: T)
    ensures x in Filter(s, p) <==> x in s && p(x)
  {
    if s != [] {
      FilterMember(s[..|s| - 1], p, x);
      assert s == s[..|s| - 1] + [s[|s| - 1]];
    }
  }

  /** Filtering a sequence that ends with `x`. */
  lemma FilterSnoc<T>(s: seq<T>, x: T, p: T -> bool)
    ensures Filter(s + [x], p) == Filter(s, p) + (if p(x) then [x] else [])
  {
    assert (s + [x])[..|s|] == s;
  }

  /** Filtering a sequence that starts with `x`. */
  lemma FilterFront<T>(x: T, s: seq<T>, p: T -> bool)
    ensures Filter([x] + s, p) == (if p(x) then [x] else []) + Filter(s, p)
  {
    FilterAppend([x], s, p);
    FilterSingle(x, p);
  }

  lemma FilterSingle<T>(x: T, p: T -> bool)
    ensures Filter([x], p) == if p(x) then [x] else []
  {
    assert [x][..0] == [];
  }

  /** `s.reduce((acc, x) => acc + f(x), 0)`. */
  function SumOf<T>(s: seq<T>, f: T -> int): int {
    if s == [] then 0 else SumOf(s[..|s| - 1], f) + f(s[|s| - 1])
  }

  lemma {:induction false} SumOfAppend<T>(a: seq<T>, b: seq<T>, f: T -> int)
    ensures SumOf(a + b, f) == SumOf(a, f) + SumOf(b, f)
    decreases |b|
  {
    if b == [] {
      assert a + b == a;
    } else {
      assert (a + b)[..|a + b| - 1] == a + b[..|b| - 1];
      SumOfAppend(a, b[..|b| - 1], f);
    }
  }

  /** The distinct elements of `s` in order of first occurrence (the key order of a JS `Map` or `Set`). */
  function Distinct<T(==,!new)>(s: seq<T>): (r: seq<T>)
    ensures forall x :: x in r <==> x in s
    ensures forall i, j :: 0 <= i < j < |r| ==> r[i] != r[j]
  {
    if s == [] then []
    else
      var prefix := Distinct(s[..|s| - 1]);
      assert forall x :: x in s <==> x in s[..|s| - 1] || x == s[|s| - 1] by {
        assert s == s[..|s| - 1] + [s[|s| - 1]];
      }
      if s[|s| - 1] in prefix then prefix else prefix + [s[|s| - 1]]
  }

  lemma {:induction false} DistinctAppendOne<T(!new)>(s: seq<T>, x: T)
    ensures Distinct(s + [x]) == if x in s then Distinct(s) else Distinct(s) + [x]
  {
    assert (s + [x])[..|s + [x]| - 1] == s;
  }

  /** Number of occurrences of `x` in `s`. */
  function Occurrences<T(==)>(s: seq<T>, x: T): (n: nat)
    ensures n <= |s|
    ensures n > 0 <==> x in s
  {
    if s == [] then 0
    else
      var n := Occurrences(s[..|s| - 1], x);
      assert s == s[..|s| - 1] + [s[|s| - 1]];
      n + (if s[|s| - 1] == x then 1 else 0)
  }

  lemma {:induction false} OccurrencesIsMultiplicity<T>(s: seq<T>, x: T)
    ensures Occurrences(s, x) == multiset(s)[x]
  {
    if s != [] {
      OccurrencesIsMultiplicity(s[..|s| - 1], x);
      assert s == s[..|s| - 1] + [s[|s| - 1]];
    }
  }

  lemma OccurrencesSnoc<T>(s: seq<T>, x: T)
    ensures forall y :: Occurrences(s + [x], y) == Occurrences(s, y) + (if x == y then 1 else 0)
  {
    assert (s + [x])[..|s|] == s;
  }

  /**
   * `s.forEach(x => m.set(x, (m.get(x) || 0) + 1))` on a fresh `Map`: the keys
   * in insertion order and the count of each.
   */
  method Tally<T(==,!new)>(s: seq<T>) returns (keys: seq<T>, counts: map<T, int>)
    ensures keys == Distinct(s)
    ensures forall x :: x in counts <==> x in keys
    ensures forall x :: x in counts ==> counts[x] == Occurrences(s, x)
  {
    keys, counts := [], map[];
    for k := 0 to |s|
      invariant Tallied(s[..k], keys, counts)
    {
      var x := s[k];
      assert s[..k + 1] == s[..k] + [x];
      TallyStep(s[..k], x, keys, counts);
      counts := counts[x := (if x in counts then counts[x] else 0) + 1];
      if x !in keys {
        keys := keys + [x];
      }
    }
    assert s[..|s|] == s;
  }

  /** What the counting loop keeps: the distinct keys read so far and the count of each. */
  ghost predicate Tallied<T(!new)>(s: seq<T>, keys: seq<T>, counts: map<T, int>) {
    keys == Distinct(s)
    && (forall x :: x in counts <==> x in keys)
    && forall x :: x in counts ==> counts[x] == Occurrences(s, x)
  }

  /** Counting one more element keeps the tally. */
  lemma TallyStep<T(!new)>(s: seq<T>, x: T, keys: seq<T>, counts: map<T, int>)
    requires Tallied(s, keys, counts)
    ensures Tallied(s + [x], if x in keys then keys else keys + [x], counts[x := (if x in counts then counts[x] else 0) + 1])
  {
    var nk := if x in keys then keys else keys + [x];
    var nc := counts[x := (if x in counts then counts[x] else 0) + 1];
    DistinctAppendOne(s, x);
    assert nk == Distinct(s + [x]);
    assert forall y :: y in nc <==> y in nk;
    CountStep(s, x, counts);
  }

  /** The counts of the tally after one more element. */
  lemma CountStep<T(!new)>(s: seq<T>, x: T, counts: map<T, int>)
    requires forall y :: y in counts ==> counts[y] == Occurrences(s, y)
    requires x !in counts ==> Occurrences(s, x) == 0
    ensures var nc := counts[x := (if x in counts then counts[x] else 0) + 1];
      forall y :: y in nc ==> nc[y] == Occurrences(s + [x], y)
  {
    var nc := counts[x := (if x in counts then counts[x] else 0) + 1];
    forall y | y in nc
      ensures nc[y] == Occurrences(s + [x], y)
    {
      OccurrencesSnoc(s, x);
      if y != x {
        assert nc[y] == counts[y];
      }
    }
  }

  /** A `Map`'s values in key-insertion order: the entry of each id that has one. */
  function MapValues<K, V>(ids: seq<K>, m: map<K, V>): (r: seq<V>)
    ensures (forall i :: 0 <= i < |ids| ==> ids[i] in m) ==> |r| == |ids| && forall i :: 0 <= i < |ids| ==> r[i] == m[ids[i]]
  {
    if ids == [] then []
    else MapValues(ids[..|ids| - 1], m) + (if ids[|ids| - 1] in m then [m[ids[|ids| - 1]]] else [])
  }

  /** The key of each element, in order. */
  function Image<T, K>(s: seq<T>, f: T -> K): (r: seq<K>)
    ensures |r| == |s| && forall i :: 0 <= i < |s| ==> r[i] == f(s[i])
  {
    seq(|s|, i requires 0 <= i < |s| => f(s[i]))
  }

  function KeyIs<T, K(==)>(f: T -> K, k: K): T -> bool {
    x => f(x) == k
  }

  /** The number of elements of `s` whose key is among `ks`, counted once per entry of `ks`. */
  function CountsOver<T, K(==)>(ks: seq<K>, s: seq<T>, f: T -> K): int {
    if ks == [] then 0 else CountsOver(ks[..|ks| - 1], s, f) + CountWhere(s, KeyIs(f, ks[|ks| - 1]))
  }

  /** The size of the group of one key. */
  function CountOfKey<T, K(==)>(s: seq<T>, f: T -> K): K -> int {
    k => CountWhere(s, KeyIs(f, k))
  }

  /** `CountsOver` is the sum of the group sizes of its keys. */
  lemma {:induction false} CountsOverSum<T, K>(ks: seq<K>, s: seq<T>, f: T -> K)
    ensures CountsOver(ks, s, f) == SumOf(ks, CountOfKey(s, f))
  {
    if ks != [] {
      CountsOverSum(ks[..|ks| - 1], s, f);
    }
  }

  lemma {:induction false} CountsOverSnoc<T, K>(ks: seq<K>, s: seq<T>, x: T, f: T -> K)
    ensures CountsOver(ks, s + [x], f) == CountsOver(ks, s, f) + Occurrences(ks, f(x))
  {
    if ks != [] {
      CountsOverSnoc(ks[..|ks| - 1], s, x, f);
      CountWhereSnoc(s, x, KeyIs(f, ks[|ks| - 1]));
    }
  }

  lemma {:induction false} OccurrencesDistinct<T>(s: seq<T>, x: T)
    requires forall i, j :: 0 <= i < j < |s| ==> s[i] != s[j]
    ensures Occurrences(s, x) == if x in s then 1 else 0
  {
    if s != [] {
      var init := s[..|s| - 1];
      OccurrencesDistinct(init, x);
      assert s == init + [s[|s| - 1]];
    }
  }

  /** No element has a key that does not occur among the keys. */
  lemma {:induction false} CountWhereNoKey<T, K>(s: seq<T>, f: T -> K, k: K)
    requires k !in Image(s, f)
    ensures CountWhere(s, KeyIs(f, k)) == 0
  {
    if s != [] {
      var init := s[..|s| - 1];
      assert Image(s, f)[..|init|] == Image(init, f);
      CountWhereNoKey(init, f, k);
      assert Image(s, f)[|init|] == f(s[|s| - 1]);
    }
  }

  /** Grouping by key: summed over the distinct keys, the group sizes add up to the whole. */
  lemma {:induction false} PartitionCount<T, K(!new)>(s: seq<T>, f: T -> K)
    ensures CountsOver(Distinct(Image(s, f)), s, f) == |s|
  {
    if s != [] {
      var init, x := s[..|s| - 1], s[|s| - 1];
      PartitionCount(init, f);
      assert s == init + [x];
      assert Image(s, f) == Image(init, f) + [f(x)];
      var d := Distinct(Image(init, f));
      DistinctAppendOne(Image(init, f), f(x));
      CountsOverSnoc(d, init, x, f);
      OccurrencesDistinct(d, f(x));
      if f(x) !in Image(init, f) {
        assert (d + [f(x)])[..|d|] == d;
        CountWhereSnoc(init, x, KeyIs(f, f(x)));
        CountWhereNoKey(init, f, f(x));
      }
    }
  }
}
