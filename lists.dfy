/** The array operations the application builds its lists from: `filter`, `flat` and `new Set(...)`. */
module Lists {

  /** `s.filter(f)`. */
  function Filter<T(==)>(s: seq<T>, f: T -> bool): (r: seq<T>)
    ensures |r| <= |s|
    ensures forall i | 0 <= i < |r| :: f(r[i])
    ensures forall i | 0 <= i < |r| :: r[i] in s
    ensures forall i | 0 <= i < |s| :: f(s[i]) ==> s[i] in r
  {
    if s == [] then []
    else (if f(s[0]) then [s[0]] else []) + Filter(s[1..], f)
  }

  /** Filtering works element by element, so it keeps the order of what it keeps. */
  lemma {:induction false} FilterAppend<T>(a: seq<T>, b: seq<T>, f: T -> bool)
    ensures Filter(a + b, f) == Filter(a, f) + Filter(b, f)
  {
    if a == [] {
      assert a + b == b;
    } else {
      assert (a + b)[0] == a[0] && (a + b)[1..] == a[1..] + b;
      FilterAppend(a[1..], b, f);
    }
  }

  /** A list whose every element passes comes back unchanged. */
  lemma {:induction false} FilterKeepsAll<T>(s: seq<T>, f: T -> bool)
    requires forall i | 0 <= i < |s| :: f(s[i])
    ensures Filter(s, f) == s
  {
    if s != [] {
      FilterKeepsAll(s[1..], f);
    }
  }

  /** Filtering out the one element that fails leaves the others around it, in order. */
  lemma FilterDropsOne<T>(a: seq<T>, x: T, b: seq<T>, f: T -> bool)
    requires !f(x)
    requires forall i | 0 <= i < |a| :: f(a[i])
    requires forall i | 0 <= i < |b| :: f(b[i])
    ensures Filter(a + [x] + b, f) == a + b
  {
    FilterKeepsAll(a, f);
    FilterKeepsAll(b, f);
    assert Filter([x], f) == [] by {
      assert [x][1..] == [];
    }
    FilterAppend(a, [x], f);
    assert Filter(a + [x], f) == a;
    FilterAppend(a + [x], b, f);
  }

  /** Filtering twice by the same test is filtering once. */
  lemma FilterIdempotent<T>(s: seq<T>, f: T -> bool)
    ensures Filter(Filter(s, f), f) == Filter(s, f)
  {
    FilterKeepsAll(Filter(s, f), f);
  }

  /** `r` lists its elements in the order they first appear in `s`. */
  ghost predicate OrderedIn<T>(r: seq<T>, s: seq<T>) {
    forall i, j | 0 <= i < j < |r| :: FirstIndex(s, r[i]) < FirstIndex(s, r[j])
  }

  lemma TailNoDuplicates<T>(s: seq<T>)
    requires s != [] && NoDuplicates(s)
    ensures NoDuplicates(s[1..]) && s[0] !in s[1..]
  {
    var t := s[1..];
    forall i, j | 0 <= i < j < |t| ensures t[i] != t[j] {
      assert t[i] == s[i + 1] && t[j] == s[j + 1];
    }
    forall i | 0 <= i < |t| ensures t[i] != s[0] {
      assert t[i] == s[i + 1];
    }
  }

  /** Order in the tail carries over to the whole list, and so does a new head. */
  lemma OrderedInCons<T>(x: T, t: seq<T>, rest: seq<T>, keepX: bool)
    requires x !in t && NoDuplicates(rest) && OrderedIn(rest, t)
    requires forall i | 0 <= i < |rest| :: rest[i] in t
    ensures var r := (if keepX then [x] else []) + rest;
      NoDuplicates(r) && OrderedIn(r, [x] + t)
  {
    var s := [x] + t;
    assert s[1..] == t;
    forall y | y in t ensures FirstIndex(s, y) == 1 + FirstIndex(t, y) {
    }
    var r := (if keepX then [x] else []) + rest;
    var d := if keepX then 1 else 0;
    forall i, j | 0 <= i < j < |r| ensures r[i] != r[j] && FirstIndex(s, r[i]) < FirstIndex(s, r[j]) {
      assert r[j] == rest[j - d];
      if i >= d {
        assert r[i] == rest[i - d];
      }
    }
  }

  /** In a list without repeats, filtering keeps the survivors in their original order. */
  lemma {:induction false} FilterKeepsOrder<T>(s: seq<T>, f: T -> bool)
    requires NoDuplicates(s)
    ensures NoDuplicates(Filter(s, f)) && OrderedIn(Filter(s, f), s)
  {
    if s != [] {
      TailNoDuplicates(s);
      FilterKeepsOrder(s[1..], f);
      OrderedInCons(s[0], s[1..], Filter(s[1..], f), f(s[0]));
      assert [s[0]] + s[1..] == s;
    }
  }

  /** `s.map(f)`. */
  function Map<A, B>(s: seq<A>, f: A -> B): seq<B> {
    seq(|s|, i requires 0 <= i < |s| => f(s[i]))
  }

  lemma MapOfTwo<A, B>(s: seq<A>, f: A -> B)
    requires |s| == 2
    ensures Map(s, f) == [f(s[0]), f(s[1])]
  {
  }

  /** `s.slice(0, n)` for `n >= 0`. */
  function Take<T>(s: seq<T>, n: nat): (r: seq<T>)
    ensures |r| == if n < |s| then n else |s|
    ensures r == s[..|r|]
  {
    if n < |s| then s[..n] else s
  }

  /** `s.filter(x => key(x) !== k)`: every element keyed `k` removed. */
  function Without<T(==), K(==)>(s: seq<T>, key: T -> K, k: K): (r: seq<T>)
    ensures |r| <= |s|
    ensures forall i | 0 <= i < |r| :: key(r[i]) != k
    ensures forall i | 0 <= i < |s| :: key(s[i]) != k ==> s[i] in r
    ensures forall i | 0 <= i < |r| :: r[i] in s
  {
    Filter(s, x => key(x) != k)
  }

  /** Removal works element by element, so what stays keeps its order. */
  lemma WithoutAppend<T, K>(a: seq<T>, b: seq<T>, key: T -> K, k: K)
    ensures Without(a + b, key, k) == Without(a, key, k) + Without(b, key, k)
  {
    FilterAppend(a, b, x => key(x) != k);
  }

  /** Nothing keyed `k`: nothing is removed. */
  lemma WithoutAbsent<T, K>(s: seq<T>, key: T -> K, k: K)
    requires forall i | 0 <= i < |s| :: key(s[i]) != k
    ensures Without(s, key, k) == s
  {
    FilterKeepsAll(s, x => key(x) != k);
  }

  /** Removing twice is removing once. */
  lemma WithoutIdempotent<T, K>(s: seq<T>, key: T -> K, k: K)
    ensures Without(Without(s, key, k), key, k) == Without(s, key, k)
  {
    WithoutAbsent(Without(s, key, k), key, k);
  }

  /** `ss.flat()`. */
  function Flatten<T>(ss: seq<seq<T>>): (r: seq<T>)
    ensures |ss| == 1 ==> r == ss[0]
  {
    if ss == [] then [] else ss[0] + Flatten(ss[1..])
  }

  lemma {:induction false} FlattenAppend<T>(a: seq<seq<T>>, b: seq<seq<T>>)
    ensures Flatten(a + b) == Flatten(a) + Flatten(b)
  {
    if a == [] {
      assert a + b == b;
    } else {
      assert (a + b)[0] == a[0] && (a + b)[1..] == a[1..] + b;
      FlattenAppend(a[1..], b);
    }
  }

  /** Every element of every list is in the flattened list. */
  lemma {:induction false} FlattenHas<T>(ss: seq<seq<T>>, i: nat, j: nat)
    requires i < |ss| && j < |ss[i]|
    ensures ss[i][j] in Flatten(ss)
  {
    if i > 0 {
      FlattenHas(ss[1..], i - 1, j);
      assert Flatten(ss) == ss[0] + Flatten(ss[1..]);
    }
  }

  ghost predicate NoDuplicates<T>(s: seq<T>) {
    forall i, j | 0 <= i < j < |s| :: s[i] != s[j]
  }

  /** The index of the first `x` in `s`, or `|s|` when there is none. */
  function FirstIndex<T(==)>(s: seq<T>, x: T): (k: nat)
    ensures k <= |s|
    ensures k < |s| <==> x in s
    ensures k < |s| ==> s[k] == x
    ensures forall i | 0 <= i < k :: s[i] != x
  {
    if s == [] then 0 else if s[0] == x then 0 else 1 + FirstIndex(s[1..], x)
  }

  lemma FirstIndexOfPrefix<T>(s: seq<T>, n: nat, x: T)
    requires n <= |s| && x in s[..n]
    ensures FirstIndex(s, x) == FirstIndex(s[..n], x)
  {
    var k := FirstIndex(s[..n], x);
    assert s[k] == x;
    assert forall i | 0 <= i < k :: s[i] == s[..n][i];
  }

  /** `Array.from(new Set(s))`: each value once, in the order of its first appearance. */
  function Distinct<T(==)>(s: seq<T>): (r: seq<T>)
    ensures forall i | 0 <= i < |r| :: r[i] in s
    ensures forall i | 0 <= i < |s| :: s[i] in r
    ensures NoDuplicates(r)
    ensures forall i, j | 0 <= i < j < |r| :: FirstIndex(s, r[i]) < FirstIndex(s, r[j])
  {
    if s == [] then []
    else
      var init := s[..|s| - 1];
      var x := s[|s| - 1];
      var d := Distinct(init);
      assert s == init + [x];
      forall y | y in d ensures FirstIndex(s, y) == FirstIndex(init, y) < |s| - 1 {
        FirstIndexOfPrefix(s, |s| - 1, y);
      }
      if x in d then d
      else
        assert FirstIndex(s, x) == |s| - 1;
        d + [x]
  }
}
