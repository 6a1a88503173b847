/** Sequence vocabulary shared by the page models: an optional value, duplicate
    freedom, order-preserving filtering, first-appearance de-duplication (what
    `[...new Set(xs)]` yields) and substring search (`String.prototype.includes`). */
module Seqs {

  datatype Option<T> = None | Some(value: T)

  /** No element occurs twice. */
  predicate NoDup<T(==)>(xs: seq<T>)
  {
    forall i, j :: 0 <= i < j < |xs| ==> xs[i] != xs[j]
  }

  lemma {:induction false} NoDupAppend<T>(xs: seq<T>, x: T)
    requires NoDup(xs) && x !in xs
    ensures NoDup(xs + [x])
  {
    var ys := xs + [x];
    forall i, j | 0 <= i < j < |ys| ensures ys[i] != ys[j] {
      if j == |xs| {
        assert ys[i] == xs[i];
      } else {
        assert ys[i] == xs[i] && ys[j] == xs[j];
      }
    }
  }

  /** `xs` occurs in `ys` in the same order, possibly with gaps. */
  predicate IsSubsequence<T(==)>(xs: seq<T>, ys: seq<T>)
    decreases |ys|
  {
    if xs == [] then true
    else if ys == [] then false
    else if xs[0] == ys[0] then IsSubsequence(xs[1..], ys[1..])
    else IsSubsequence(xs, ys[1..])
  }

  /** `Array.prototype.filter`: the elements satisfying `keep`, in their original order. */
  function Filter<T>(xs: seq<T>, keep: T -> bool): (r: seq<T>)
    ensures |r| <= |xs|
    ensures forall i :: 0 <= i < |r| ==> r[i] in xs && keep(r[i])
    ensures forall i :: 0 <= i < |xs| && keep(xs[i]) ==> xs[i] in r
    decreases xs
  {
    if xs == [] then []
    else if keep(xs[0]) then [xs[0]] + Filter(xs[1..], keep)
    else Filter(xs[1..], keep)
  }

  /** Each value occurs in the filtered sequence exactly as often as in the input
      when it is kept, and not at all otherwise. */
  lemma {:induction false} FilterMultiset<T>(xs: seq<T>, keep: T -> bool)
    ensures forall x :: multiset(Filter(xs, keep))[x] == if keep(x) then multiset(xs)[x] else 0
    decreases xs
  {
    if xs != [] {
      FilterMultiset(xs[1..], keep);
      assert xs == [xs[0]] + xs[1..];
      assert multiset(xs) == multiset([xs[0]]) + multiset(xs[1..]);
      if keep(xs[0]) {
        assert multiset(Filter(xs, keep)) == multiset([xs[0]]) + multiset(Filter(xs[1..], keep));
      }
    }
  }

  lemma {:induction false} FilterIsSubsequence<T>(xs: seq<T>, keep: T -> bool)
    ensures IsSubsequence(Filter(xs, keep), xs)
    decreases xs
  {
    if xs != [] {
      FilterIsSubsequence(xs[1..], keep);
      var r := Filter(xs, keep);
      if keep(xs[0]) {
        assert r[0] == xs[0] && r[1..] == Filter(xs[1..], keep);
      } else if r != [] {
        SubsequenceSkip(r, xs);
      }
    }
  }

  /** Skipping a head element that the subsequence does not start with. */
  lemma SubsequenceSkip<T>(xs: seq<T>, ys: seq<T>)
    requires ys != [] && IsSubsequence(xs, ys[1..])
    ensures IsSubsequence(xs, ys)
    decreases |ys|, 0
  {
    if xs != [] && xs[0] == ys[0] {
      SubsequenceTail(xs, ys[1..]);
    }
  }

  lemma SubsequenceTail<T>(xs: seq<T>, ys: seq<T>)
    requires xs != [] && IsSubsequence(xs, ys)
    ensures IsSubsequence(xs[1..], ys)
    decreases |ys|, 1
  {
    if xs[0] == ys[0] {
      if xs[1..] != [] {
        SubsequenceSkip(xs[1..], ys);
      }
    } else {
      SubsequenceTail(xs, ys[1..]);
      if xs[1..] != [] {
        SubsequenceSkip(xs[1..], ys);
      }
    }
  }

  /** A filter with a weaker predicate keeps everything a stronger one keeps, in order. */
  lemma {:induction false} FilterMonotone<T>(xs: seq<T>, p: T -> bool, q: T -> bool)
    requires forall x :: x in xs && p(x) ==> q(x)
    ensures IsSubsequence(Filter(xs, p), Filter(xs, q))
    decreases xs
  {
    if xs != [] {
      FilterMonotone(xs[1..], p, q);
      var fp, fq := Filter(xs, p), Filter(xs, q);
      if p(xs[0]) {
        assert fp[0] == xs[0] && fp[1..] == Filter(xs[1..], p);
        assert fq[0] == xs[0] && fq[1..] == Filter(xs[1..], q);
      } else if q(xs[0]) {
        assert fq[1..] == Filter(xs[1..], q);
        if fp != [] { SubsequenceSkip(fp, fq); }
      }
    }
  }

  /** Index of the first occurrence of `x` in `xs`. */
  function FirstIndex<T(==)>(xs: seq<T>, x: T): (i: nat)
    requires x in xs
    ensures i < |xs| && xs[i] == x
    ensures forall j :: 0 <= j < i ==> xs[j] != x
  {
    if xs[0] == x then 0 else 1 + FirstIndex(xs[1..], x)
  }

  /** The distinct elements of `xs` in order of first appearance: the
      iteration order of `new Set(xs)`. */
  function Distinct<T(==)>(xs: seq<T>): seq<T>
    decreases |xs|
  {
    if xs == [] then []
    else
      var d := Distinct(xs[..|xs| - 1]);
      if xs[|xs| - 1] in d then d else d + [xs[|xs| - 1]]
  }

  /** Appending one element: it is kept exactly when it is new. */
  lemma DistinctSnoc<T>(xs: seq<T>, x: T)
    ensures Distinct(xs + [x]) == if x in Distinct(xs) then Distinct(xs) else Distinct(xs) + [x]
  {
    assert (xs + [x])[..|xs|] == xs;
  }

  lemma {:induction false} DistinctElements<T>(xs: seq<T>)
    ensures forall x :: x in Distinct(xs) <==> x in xs
    ensures NoDup(Distinct(xs))
    decreases |xs|
  {
    if xs != [] {
      var init, last := xs[..|xs| - 1], xs[|xs| - 1];
      DistinctElements(init);
      assert xs == init + [last];
      if last !in Distinct(init) {
        NoDupAppend(Distinct(init), last);
      }
    }
  }

  lemma FirstIndexPrefix<T>(xs: seq<T>, x: T)
    requires xs != [] && x in xs[..|xs| - 1]
    ensures FirstIndex(xs, x) == FirstIndex(xs[..|xs| - 1], x)
  {
    if xs[0] != x {
      assert xs[1..][..|xs[1..]| - 1] == xs[..|xs| - 1][1..];
      FirstIndexPrefix(xs[1..], x);
    }
  }

  /** Elements of `Distinct(xs)` appear in the order of their first occurrence in `xs`. */
  lemma {:induction false} DistinctOrder<T>(xs: seq<T>)
    ensures forall x :: x in Distinct(xs) ==> x in xs
    ensures forall i, j :: 0 <= i < j < |Distinct(xs)| ==>
      FirstIndex(xs, Distinct(xs)[i]) < FirstIndex(xs, Distinct(xs)[j])
    decreases |xs|
  {
    DistinctElements(xs);
    if xs != [] {
      var init, last := xs[..|xs| - 1], xs[|xs| - 1];
      DistinctOrder(init);
      DistinctElements(init);
      var d, r := Distinct(init), Distinct(xs);
      forall x | x in d ensures FirstIndex(xs, x) == FirstIndex(init, x) {
        FirstIndexPrefix(xs, x);
      }
      if last !in d {
        assert last !in init;
        assert FirstIndex(xs, last) == |xs| - 1;
        forall i, j | 0 <= i < j < |r|
          ensures FirstIndex(xs, r[i]) < FirstIndex(xs, r[j])
        {
          assert r[i] == d[i] && r[i] in d;
          if j < |d| {
            assert r[j] == d[j] && r[j] in d;
          }
        }
      }
    }
  }

  /** `s.includes(t)`: `t` is a prefix of some suffix of `s`. */
  predicate Contains<T(==)>(s: seq<T>, t: seq<T>)
  {
    exists i :: 0 <= i <= |s| && t <= s[i..]
  }

  lemma ContainsFrom<T>(s: seq<T>, k: nat, t: seq<T>)
    requires k <= |s| && t <= s[k..]
    ensures Contains(s, t)
  {
  }

  /** Whatever contains `a + t` also contains `t`. */
  lemma ContainsSuffix<T>(s: seq<T>, a: seq<T>, t: seq<T>)
    requires Contains(s, a + t)
    ensures Contains(s, t)
  {
    var i :| 0 <= i <= |s| && a + t <= s[i..];
    assert s[i..][|a|..] == s[i + |a|..];
    assert t <= s[i + |a|..];
  }

  /** `Array.prototype.find`: the first element satisfying `p`, if any. */
  function FirstWhere<T>(xs: seq<T>, p: T -> bool): (r: Option<T>)
    ensures r.None? <==> forall i :: 0 <= i < |xs| ==> !p(xs[i])
    ensures r.Some? ==> exists k :: 0 <= k < |xs| && xs[k] == r.value && p(r.value) &&
                                    forall j :: 0 <= j < k ==> !p(xs[j])
    decreases |xs|
  {
    if xs == [] then None
    else if p(xs[0]) then Some(xs[0])
    else
      var r := FirstWhere(xs[1..], p);
      assert r.Some? ==> exists k :: 0 <= k < |xs| && xs[k] == r.value && p(r.value) &&
                                     forall j :: 0 <= j < k ==> !p(xs[j]) by {
        if r.Some? {
          var k :| 0 <= k < |xs[1..]| && xs[1..][k] == r.value && p(r.value) &&
                   forall j :: 0 <= j < k ==> !p(xs[1..][j]);
          assert forall j :: 0 <= j < k + 1 ==> !p(xs[j]) by {
            forall j | 0 <= j < k + 1 ensures !p(xs[j]) {
              if j > 0 { assert xs[j] == xs[1..][j - 1]; }
            }
          }
        }
      }
      r
  }

  /** A filter's first element is the first element it keeps. */
  lemma {:induction false} FilterHead<T>(xs: seq<T>, p: T -> bool)
    ensures Filter(xs, p) == [] <==> FirstWhere(xs, p).None?
    ensures Filter(xs, p) != [] ==> Filter(xs, p)[0] == FirstWhere(xs, p).value
    decreases |xs|
  {
    if xs != [] && !p(xs[0]) {
      FilterHead(xs[1..], p);
    }
  }

  /** The first element that satisfies `p` is the one `FirstWhere` finds. */
  lemma FirstWhereAt<T>(xs: seq<T>, p: T -> bool, k: nat)
    requires k < |xs| && p(xs[k])
    requires forall j :: 0 <= j < k ==> !p(xs[j])
    ensures FirstWhere(xs, p) == Some(xs[k])
  {
    var r := FirstWhere(xs, p);
    var k' :| 0 <= k' < |xs| && xs[k'] == r.value && p(r.value) && forall j :: 0 <= j < k' ==> !p(xs[j]);
  }

  /** Filters by predicates that agree on the elements are equal. */
  lemma {:induction false} FilterAgree<T>(xs: seq<T>, p: T -> bool, q: T -> bool)
    requires forall i :: 0 <= i < |xs| ==> p(xs[i]) == q(xs[i])
    ensures Filter(xs, p) == Filter(xs, q)
    decreases |xs|
  {
    if xs != [] {
      FilterAgree(xs[1..], p, q);
    }
  }

  /** Filtering a list ascending by `key` keeps a minimal element at the front. */
  lemma {:induction false} FilterHeadMinimal<T>(xs: seq<T>, p: T -> bool, key: T -> int)
    requires forall i, j :: 0 <= i < j < |xs| ==> key(xs[i]) <= key(xs[j])
    ensures var r := Filter(xs, p); forall j :: 0 <= j < |r| ==> key(r[0]) <= key(r[j])
    decreases |xs|
  {
    if xs != [] {
      var r := Filter(xs, p);
      if p(xs[0]) {
        forall j | 0 <= j < |r| ensures key(r[0]) <= key(r[j]) {
          var x := r[j];
          assert x in xs;
          var k :| 0 <= k < |xs| && xs[k] == x;
        }
      } else {
        assert r == Filter(xs[1..], p);
        assert forall i, j :: 0 <= i < j < |xs[1..]| ==> key(xs[1..][i]) <= key(xs[1..][j]) by {
          forall i, j | 0 <= i < j < |xs[1..]| ensures key(xs[1..][i]) <= key(xs[1..][j]) {
            assert xs[1..][i] == xs[i + 1] && xs[1..][j] == xs[j + 1];
          }
        }
        FilterHeadMinimal(xs[1..], p, key);
      }
    }
  }

  /** The first element of `s` whose `key` is smallest. */
  function LeftmostMin<T>(s: seq<T>, key: T -> int): (m: T)
    requires s != []
    ensures m in s
    decreases |s|
  {
    if |s| == 1 then s[0]
    else
      var m := LeftmostMin(s[1..], key);
      if key(s[0]) <= key(m) then s[0] else m
  }

  /** `LeftmostMin` has the smallest key, and every element before it has a larger one. */
  lemma {:induction false} LeftmostMinSpec<T>(s: seq<T>, key: T -> int)
    requires s != []
    ensures forall i :: 0 <= i < |s| ==> key(LeftmostMin(s, key)) <= key(s[i])
    ensures exists k :: 0 <= k < |s| && s[k] == LeftmostMin(s, key) &&
                        forall j :: 0 <= j < k ==> key(s[j]) > key(s[k])
    decreases |s|
  {
    var m := LeftmostMin(s, key);
    if |s| == 1 {
      assert s[0] == m;
    } else {
      var t := s[1..];
      LeftmostMinSpec(t, key);
      var mt := LeftmostMin(t, key);
      forall i | 0 <= i < |s| ensures key(m) <= key(s[i]) {
        if i > 0 { assert s[i] == t[i - 1]; }
      }
      if key(s[0]) <= key(mt) {
        assert s[0] == m;
      } else {
        var k :| 0 <= k < |t| && t[k] == mt && forall j :: 0 <= j < k ==> key(t[j]) > key(t[k]);
        assert s[k + 1] == m;
        forall j | 0 <= j < k + 1 ensures key(s[j]) > key(s[k + 1]) {
          if j > 0 { assert s[j] == t[j - 1]; }
        }
      }
    }
  }

  /** A list whose head is minimal has its head as `LeftmostMin`. */
  lemma LeftmostMinOfMinimalHead<T>(s: seq<T>, key: T -> int)
    requires s != [] && forall j :: 0 <= j < |s| ==> key(s[0]) <= key(s[j])
    ensures LeftmostMin(s, key) == s[0]
  {
    if |s| > 1 {
      var m := LeftmostMin(s[1..], key);
      assert m in s;
    }
  }

  /** `Array.prototype.reduce(f)` with no initial value, on the list `[acc] + rest`:
      `acc` is the first accumulator and the elements of `rest` are visited left to right. */
  function Reduce<T>(acc: T, rest: seq<T>, f: (T, T) -> T): T
    decreases |rest|
  {
    if rest == [] then acc else Reduce(f(acc, rest[0]), rest[1..], f)
  }

  /** A reduce whose step keeps the accumulator unless the element has a strictly
      smaller key picks the first element with the smallest key. */
  lemma {:induction false} ReduceIsLeftmostMin<T>(acc: T, rest: seq<T>, f: (T, T) -> T, key: T -> int)
    requires forall a, b :: a in [acc] + rest && b in rest ==>
               f(a, b) == if key(b) < key(a) then b else a
    ensures Reduce(acc, rest, f) == LeftmostMin([acc] + rest, key)
    decreases |rest|
  {
    if rest != [] {
      var b, t := rest[0], rest[1..];
      var next := f(acc, b);
      assert next == if key(b) < key(acc) then b else acc;
      assert forall x :: x in [next] + t ==> x in [acc] + rest;
      assert forall x :: x in t ==> x in rest;
      ReduceIsLeftmostMin(next, t, f, key);
      assert ([acc] + rest)[1..] == rest;
      assert rest[1..] == t;
      if t == [] {
        assert [acc] + rest == [acc, b];
      } else {
        var mt := LeftmostMin(t, key);
        assert ([next] + t)[1..] == t;
        assert LeftmostMin(rest, key) == if key(b) <= key(mt) then b else mt;
        assert LeftmostMin([next] + t, key) == if key(next) <= key(mt) then next else mt;
      }
    }
  }
}
