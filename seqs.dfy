/** Sequence operations shared by the dashboard code: the TypeScript
    `filter`, `map`, `reduce`, `slice` and stable `sort` of arrays, and the
    "first value stored under each key" behaviour of an insertion-ordered
    `Map` that is only written when the key is new. */
module Seqs {

  function Last<T>(s: seq<T>): T
    requires |s| > 0
  {
    s[|s| - 1]
  }

  function DropLast<T>(s: seq<T>): seq<T>
    requires |s| > 0
  {
    s[..|s| - 1]
  }

  lemma DropLastSnoc<T>(s: seq<T>, x: T)
    ensures DropLast(s + [x]) == s && Last(s + [x]) == x
  {
    assert (s + [x])[..|s|] == s;
  }

  /** A nonempty sequence is its front followed by its last element. */
  lemma Snoc<T>(s: seq<T>)
    requires |s| > 0
    ensures s == DropLast(s) + [Last(s)]
  {
  }

  /** `r` is `s` with some elements left out and the rest in their order. */
  predicate Subseq<T(==)>(r: seq<T>, s: seq<T>)
    decreases |s|
  {
    if r == [] then true
    else if s == [] then false
    else (Last(r) == Last(s) && Subseq(DropLast(r), DropLast(s))) || Subseq(r, DropLast(s))
  }

  lemma {:induction false} SubseqRefl<T>(s: seq<T>)
    ensures Subseq(s, s)
    decreases |s|
  {
    if s != [] {
      SubseqRefl(DropLast(s));
    }
  }

  /** `Array.prototype.filter`. */
  function Filter<T(==)>(s: seq<T>, p: T -> bool): (r: seq<T>)
    ensures |r| <= |s|
    ensures forall i :: 0 <= i < |r| ==> r[i] in s && p(r[i])
    ensures forall i :: 0 <= i < |s| && p(s[i]) ==> s[i] in r
    ensures Subseq(r, s)
    decreases |s|
  {
    if s == [] then []
    else
      var front := Filter(DropLast(s), p);
      assert s == DropLast(s) + [Last(s)];
      assert forall i :: 0 <= i < |s| - 1 ==> s[i] == DropLast(s)[i];
      if p(Last(s)) then
        assert DropLast(front + [Last(s)]) == front;
        front + [Last(s)]
      else front
  }

  /** Filter keeps the order of the input: entries i < j come from
      positions a < b. */
  lemma {:induction false} FilterOrdered<T>(s: seq<T>, p: T -> bool, i: nat, j: nat)
    requires i < j < |Filter(s, p)|
    ensures var r := Filter(s, p);
      exists a, b :: 0 <= a < b < |s| && s[a] == r[i] && s[b] == r[j]
    decreases |s|
  {
    var r := Filter(s, p);
    var d := DropLast(s);
    var front := Filter(d, p);
    Snoc(s);
    if j < |front| {
      FilterOrdered(d, p, i, j);
      var a, b :| 0 <= a < b < |d| && d[a] == front[i] && d[b] == front[j];
      assert r[i] == front[i] && r[j] == front[j];
      assert s[a] == d[a] && s[b] == d[b];
    } else {
      assert r == front + [Last(s)] && r[j] == Last(s) && r[i] == front[i];
      assert front[i] in d;
      var a :| 0 <= a < |d| && d[a] == front[i];
      assert s[a] == d[a] && s[|s| - 1] == r[j];
    }
  }

  /** Every element the filter keeps comes from a position before which
      each kept element is already among the earlier results. */
  lemma {:induction false} FilterPrefix<T>(s: seq<T>, p: T -> bool, k: nat)
    requires k < |Filter(s, p)|
    ensures var r := Filter(s, p);
      exists i :: (0 <= i < |s| && s[i] == r[k]
        && forall j :: 0 <= j < i && p(s[j]) ==> exists j' :: 0 <= j' < k && r[j'] == s[j])
    decreases |s|
  {
    var r := Filter(s, p);
    var d := DropLast(s);
    var front := Filter(d, p);
    Snoc(s);
    if k < |front| {
      FilterPrefix(d, p, k);
      var i :| (0 <= i < |d| && d[i] == front[k]
        && forall j :: 0 <= j < i && p(d[j]) ==> exists j' :: 0 <= j' < k && front[j'] == d[j]);
      assert r[k] == front[k] && s[i] == d[i];
      forall j | 0 <= j < i && p(s[j]) ensures exists j' :: 0 <= j' < k && r[j'] == s[j] {
        assert s[j] == d[j];
        var j' :| 0 <= j' < k && front[j'] == d[j];
        assert r[j'] == front[j'];
      }
    } else {
      assert r == front + [Last(s)] && r[k] == Last(s);
      var i := |s| - 1;
      forall j | 0 <= j < i && p(s[j]) ensures exists j' :: 0 <= j' < k && r[j'] == s[j] {
        assert s[j] == d[j];
        assert d[j] in front;
        var j' :| 0 <= j' < |front| && front[j'] == d[j];
        assert r[j'] == front[j'];
      }
    }
  }

  lemma {:induction false} FilterSnoc<T>(s: seq<T>, x: T, p: T -> bool)
    ensures Filter(s + [x], p) == Filter(s, p) + (if p(x) then [x] else [])
  {
    DropLastSnoc(s, x);
  }

  /** Filtering with a predicate every element meets changes nothing. */
  lemma {:induction false} FilterAll<T>(s: seq<T>, p: T -> bool)
    requires forall x :: x in s ==> p(x)
    ensures Filter(s, p) == s
    decreases |s|
  {
    if s != [] {
      assert s == DropLast(s) + [Last(s)];
      FilterAll(DropLast(s), p);
    }
  }

  /** Two filters in a row are one filter with the conjunction. */
  lemma {:induction false} FilterFilter<T>(s: seq<T>, p: T -> bool, q: T -> bool, pq: T -> bool)
    requires forall x :: pq(x) == (p(x) && q(x))
    ensures Filter(Filter(s, p), q) == Filter(s, pq)
    decreases |s|
  {
    if s != [] {
      var d, x := DropLast(s), Last(s);
      assert s == d + [x];
      FilterFilter(d, p, q, pq);
      if p(x) {
        FilterSnoc(Filter(d, p), x, q);
      }
    }
  }

  /** Filtering keeps every copy of a kept value and no copy of the others. */
  lemma {:induction false} FilterCount<T>(s: seq<T>, p: T -> bool, x: T)
    ensures multiset(Filter(s, p))[x] == if p(x) then multiset(s)[x] else 0
    decreases |s|
  {
    if s != [] {
      var d := DropLast(s);
      Snoc(s);
      FilterCount(d, p, x);
    }
  }

  /** An element survives the filter iff it is in the input and passes. */
  lemma FilterMember<T>(s: seq<T>, p: T -> bool, x: T)
    ensures x in Filter(s, p) <==> x in s && p(x)
  {
    var r := Filter(s, p);
    if x in r {
      var i :| 0 <= i < |r| && r[i] == x;
    }
    if x in s && p(x) {
      var i :| 0 <= i < |s| && s[i] == x;
    }
  }

  /** Pointwise-equal predicates filter alike. */
  lemma {:induction false} FilterExt<T>(s: seq<T>, p: T -> bool, q: T -> bool)
    requires forall x :: p(x) == q(x)
    ensures Filter(s, p) == Filter(s, q)
    decreases |s|
  {
    if s != [] {
      FilterExt(DropLast(s), p, q);
    }
  }

  /** `if (active) filtered = filtered.filter(p)`. */
  function FilterIf<T(==)>(s: seq<T>, active: bool, p: T -> bool): seq<T>
  {
    if active then Filter(s, p) else s
  }

  /** One more conditional stage of a filter chain is one filter with a
      stronger predicate. */
  lemma FilterIfFilter<T>(s: seq<T>, p: T -> bool, active: bool, q: T -> bool, pq: T -> bool)
    requires forall x :: pq(x) == (p(x) && (!active || q(x)))
    ensures FilterIf(Filter(s, p), active, q) == Filter(s, pq)
  {
    if active {
      FilterFilter(s, p, q, pq);
    } else {
      FilterExt(s, p, pq);
    }
  }

  /** `Array.prototype.map`. */
  function Map<T, U>(s: seq<T>, f: T -> U): (r: seq<U>)
    ensures |r| == |s|
    ensures forall i :: 0 <= i < |s| ==> r[i] == f(s[i])
  {
    seq(|s|, i requires 0 <= i < |s| => f(s[i]))
  }

  /** A value is in the image of a filtered sequence iff some element
      passing the filter maps to it. */
  lemma MapFilterMember<T, U>(s: seq<T>, p: T -> bool, f: T -> U, x: U)
    ensures x in Map(Filter(s, p), f) <==> exists i :: 0 <= i < |s| && p(s[i]) && f(s[i]) == x
  {
    var r := Filter(s, p);
    if x in Map(r, f) {
      var k :| 0 <= k < |r| && Map(r, f)[k] == x;
      assert r[k] in s;
      var i :| 0 <= i < |s| && s[i] == r[k];
      assert p(s[i]) && f(s[i]) == x;
    }
    if exists i :: 0 <= i < |s| && p(s[i]) && f(s[i]) == x {
      var i :| 0 <= i < |s| && p(s[i]) && f(s[i]) == x;
      assert s[i] in r;
      var k :| 0 <= k < |r| && r[k] == s[i];
      assert Map(r, f)[k] == x;
    }
  }

  /** JavaScript `slice(0, end)`: a negative end counts from the back. */
  function SliceTo<T>(s: seq<T>, end: int): (r: seq<T>)
    ensures end >= 0 ==> |r| == if end < |s| then end else |s|
    ensures end < 0 ==> |r| == if |s| + end > 0 then |s| + end else 0
    ensures r == s[..|r|]
  {
    if end >= 0 then (if end < |s| then s[..end] else s)
    else (if |s| + end > 0 then s[..|s| + end] else [])
  }

  /** The set of keys of the elements of `s`. */
  function KeySet<T, K>(s: seq<T>, key: T -> K): set<K>
  {
    set i | 0 <= i < |s| :: key(s[i])
  }

  lemma KeySetSnoc<T, K>(s: seq<T>, x: T, key: T -> K)
    ensures KeySet(s + [x], key) == KeySet(s, key) + {key(x)}
  {
    var t := s + [x];
    forall k | k in KeySet(t, key) ensures k in KeySet(s, key) + {key(x)} {
      var i :| 0 <= i < |t| && key(t[i]) == k;
      if i < |s| { assert t[i] == s[i]; }
    }
    forall k | k in KeySet(s, key) + {key(x)} ensures k in KeySet(t, key) {
      if k == key(x) {
        assert key(t[|s|]) == k;
      } else {
        var i :| 0 <= i < |s| && key(s[i]) == k;
        assert key(t[i]) == k;
      }
    }
  }

  /** The elements of `s` whose key was not seen before them, in order: the
      values of a `Map` filled by `if (!map.has(key)) map.set(key, ...)`. */
  function FirstOccurrences<T(==), K(==)>(s: seq<T>, key: T -> K): (r: seq<T>)
    ensures KeySet(r, key) == KeySet(s, key)
    ensures forall i, j :: 0 <= i < j < |r| ==> key(r[i]) != key(r[j])
    ensures Subseq(r, s)
    decreases |s|
  {
    if s == [] then []
    else
      var d, x := DropLast(s), Last(s);
      var p := FirstOccurrences(d, key);
      assert s == d + [x];
      KeySetSnoc(d, x, key);
      if key(x) in KeySet(d, key) then
        p
      else
        KeySetSnoc(p, x, key);
        DropLastSnoc(p, x);
        assert forall i :: 0 <= i < |p| ==> key(p[i]) in KeySet(p, key);
        p + [x]
  }

  lemma FirstOccurrencesSnoc<T, K>(s: seq<T>, x: T, key: T -> K)
    ensures FirstOccurrences(s + [x], key) ==
      if key(x) in KeySet(s, key) then FirstOccurrences(s, key) else FirstOccurrences(s, key) + [x]
  {
    DropLastSnoc(s, x);
  }

  /** Each element kept by FirstOccurrences is the first element of `s` with
      its key. */
  lemma {:induction false} FirstOccurrencesAreFirst<T, K>(s: seq<T>, key: T -> K, j: nat)
    requires j < |FirstOccurrences(s, key)|
    ensures var r := FirstOccurrences(s, key);
      exists i :: 0 <= i < |s| && s[i] == r[j] && forall i' :: 0 <= i' < i ==> key(s[i']) != key(r[j])
    decreases |s|
  {
    var r := FirstOccurrences(s, key);
    var d, x := DropLast(s), Last(s);
    Snoc(s);
    var p := FirstOccurrences(d, key);
    if j < |p| {
      FirstOccurrencesAreFirst(d, key, j);
      var i :| 0 <= i < |d| && d[i] == p[j] && forall i' :: 0 <= i' < i ==> key(d[i']) != key(p[j]);
      assert s[i] == r[j];
      assert forall i' :: 0 <= i' < i ==> s[i'] == d[i'];
    } else {
      assert r == p + [x] && r[j] == x;
      forall i' | 0 <= i' < |d| ensures key(s[i']) != key(x) {
        assert s[i'] == d[i'];
        assert key(d[i']) in KeySet(d, key);
      }
      assert s[|s| - 1] == r[j];
    }
  }

  /** FirstOccurrences keeps the order in which keys first occur: for entries
      i < j, the key of entry i occurs in `s` before the first element with
      the key of entry j. */
  lemma {:induction false} FirstOccurrencesOrdered<T, K>(s: seq<T>, key: T -> K, i: nat, j: nat)
    requires i < j < |FirstOccurrences(s, key)|
    ensures var r := FirstOccurrences(s, key);
      exists p, q :: 0 <= q < p < |s| && s[p] == r[j] && key(s[q]) == key(r[i])
        && forall p' :: 0 <= p' < p ==> key(s[p']) != key(r[j])
    decreases |s|
  {
    var r := FirstOccurrences(s, key);
    var d, x := DropLast(s), Last(s);
    Snoc(s);
    var pr := FirstOccurrences(d, key);
    assert r[..|pr|] == pr;
    if j < |pr| {
      FirstOccurrencesOrdered(d, key, i, j);
      var p, q :| 0 <= q < p < |d| && d[p] == pr[j] && key(d[q]) == key(pr[i])
        && forall p' :: 0 <= p' < p ==> key(d[p']) != key(pr[j]);
      assert r[i] == pr[i] && r[j] == pr[j];
      assert s[p] == d[p] && s[q] == d[q];
      assert forall p' :: 0 <= p' < p ==> s[p'] == d[p'];
    } else {
      assert r == pr + [x] && r[j] == x && r[i] == pr[i];
      FirstOccurrencesAreFirst(d, key, i);
      var q :| 0 <= q < |d| && d[q] == pr[i] && forall i' :: 0 <= i' < q ==> key(d[i']) != key(pr[i]);
      forall p' | 0 <= p' < |d| ensures key(s[p']) != key(x) {
        assert s[p'] == d[p'];
        assert key(d[p']) in KeySet(d, key);
      }
      assert s[|s| - 1] == r[j] && s[q] == d[q];
    }
  }

  /** A subsequence of a sequence with distinct keys has distinct keys, all
      among the keys of the sequence. */
  lemma {:induction false} SubseqKeysDistinct<T, K>(r: seq<T>, s: seq<T>, key: T -> K)
    requires Subseq(r, s)
    requires forall i, j :: 0 <= i < j < |s| ==> key(s[i]) != key(s[j])
    ensures forall i, j :: 0 <= i < j < |r| ==> key(r[i]) != key(r[j])
    ensures forall i :: 0 <= i < |r| ==> r[i] in s
    decreases |s|
  {
    if r != [] {
      var ds := DropLast(s);
      assert s == ds + [Last(s)];
      if Last(r) == Last(s) && Subseq(DropLast(r), ds) {
        var dr := DropLast(r);
        SubseqKeysDistinct(dr, ds, key);
        assert r == dr + [Last(s)];
        forall i | 0 <= i < |dr| ensures key(dr[i]) != key(Last(s)) {
          var m :| 0 <= m < |ds| && ds[m] == dr[i];
          assert s[m] == ds[m];
          assert key(s[m]) != key(s[|s| - 1]);
        }
      } else {
        SubseqKeysDistinct(r, ds, key);
      }
    }
  }

  /** The values of a `Map` filled by `if (!key) continue; if (!map.has(key))
      map.set(key, ...)`: the first element of each key, skipping the
      elements whose key is `blank`. */
  function KeepFirst<T(==), K(==)>(s: seq<T>, key: T -> K, blank: K): seq<T>
  {
    Filter(FirstOccurrences(s, key), (y: T) => key(y) != blank)
  }

  /** One more element: appended exactly when its key is new and not blank. */
  lemma KeepFirstSnoc<T, K>(s: seq<T>, x: T, key: T -> K, blank: K)
    ensures KeepFirst(s + [x], key, blank) ==
      KeepFirst(s, key, blank) + (if key(x) != blank && key(x) !in KeySet(s, key) then [x] else [])
  {
    FirstOccurrencesSnoc(s, x, key);
    FilterSnoc(FirstOccurrences(s, key), x, (y: T) => key(y) != blank);
  }

  lemma MapKeepFirstSnoc<T, K, U>(s: seq<T>, x: T, key: T -> K, blank: K, f: T -> U)
    ensures Map(KeepFirst(s + [x], key, blank), f) ==
      Map(KeepFirst(s, key, blank), f) + (if key(x) != blank && key(x) !in KeySet(s, key) then [f(x)] else [])
  {
    KeepFirstSnoc(s, x, key, blank);
  }

  /** KeepFirst has distinct keys, none of them blank. */
  lemma KeepFirstDistinct<T, K>(s: seq<T>, key: T -> K, blank: K)
    ensures var r := KeepFirst(s, key, blank);
      && (forall i, j :: 0 <= i < j < |r| ==> key(r[i]) != key(r[j]))
      && (forall i :: 0 <= i < |r| ==> key(r[i]) != blank)
  {
    SubseqKeysDistinct(KeepFirst(s, key, blank), FirstOccurrences(s, key), key);
  }

  /** Every non-blank key of the input has an element in KeepFirst. */
  lemma KeepFirstCovers<T, K>(s: seq<T>, key: T -> K, blank: K, k: nat)
    requires k < |s| && key(s[k]) != blank
    ensures exists i :: 0 <= i < |KeepFirst(s, key, blank)| && key(KeepFirst(s, key, blank)[i]) == key(s[k])
  {
    var fo := FirstOccurrences(s, key);
    var r := KeepFirst(s, key, blank);
    assert key(s[k]) in KeySet(s, key);
    var m :| 0 <= m < |fo| && key(fo[m]) == key(s[k]);
    assert fo[m] in r;
    var i :| 0 <= i < |r| && r[i] == fo[m];
  }

  /** KeepFirst keeps the order in which keys first occur (see
      FirstOccurrencesOrdered). */
  lemma KeepFirstOrdered<T, K>(s: seq<T>, key: T -> K, blank: K, i: nat, j: nat)
    requires i < j < |KeepFirst(s, key, blank)|
    ensures var r := KeepFirst(s, key, blank);
      exists p, q :: 0 <= q < p < |s| && s[p] == r[j] && key(s[q]) == key(r[i])
        && forall p' :: 0 <= p' < p ==> key(s[p']) != key(r[j])
  {
    var fo := FirstOccurrences(s, key);
    var r := KeepFirst(s, key, blank);
    FilterOrdered(fo, (y: T) => key(y) != blank, i, j);
    var a, b :| 0 <= a < b < |fo| && fo[a] == r[i] && fo[b] == r[j];
    FirstOccurrencesOrdered(s, key, a, b);
  }

  /** Each element of KeepFirst is the first of the input with its key. */
  lemma KeepFirstIsFirst<T, K>(s: seq<T>, key: T -> K, blank: K, j: nat)
    requires j < |KeepFirst(s, key, blank)|
    ensures var r := KeepFirst(s, key, blank);
      exists i :: 0 <= i < |s| && s[i] == r[j] && forall i' :: 0 <= i' < i ==> key(s[i']) != key(r[j])
  {
    var fo := FirstOccurrences(s, key);
    var r := KeepFirst(s, key, blank);
    assert r[j] in fo;
    var m :| 0 <= m < |fo| && fo[m] == r[j];
    FirstOccurrencesAreFirst(s, key, m);
  }

  /** Sum of a natural-number field (`reduce((sum, x) => sum + f(x), 0)`). */
  function SumNat<T>(s: seq<T>, f: T -> nat): nat
  {
    if s == [] then 0 else SumNat(DropLast(s), f) + f(Last(s))
  }

  /** Sum of a real-valued field. */
  function SumReal<T>(s: seq<T>, f: T -> real): real
  {
    if s == [] then 0.0 else SumReal(DropLast(s), f) + f(Last(s))
  }

  lemma {:induction false} SumNatConcat<T>(a: seq<T>, b: seq<T>, f: T -> nat)
    ensures SumNat(a + b, f) == SumNat(a, f) + SumNat(b, f)
    decreases |b|
  {
    if b != [] {
      assert a + b == (a + DropLast(b)) + [Last(b)];
      DropLastSnoc(a + DropLast(b), Last(b));
      SumNatConcat(a, DropLast(b), f);
    } else {
      assert a + b == a;
    }
  }

  lemma {:induction false} SumRealConcat<T>(a: seq<T>, b: seq<T>, f: T -> real)
    ensures SumReal(a + b, f) == SumReal(a, f) + SumReal(b, f)
    decreases |b|
  {
    if b != [] {
      assert a + b == (a + DropLast(b)) + [Last(b)];
      DropLastSnoc(a + DropLast(b), Last(b));
      SumRealConcat(a, DropLast(b), f);
    } else {
      assert a + b == a;
    }
  }

  lemma SumNatSnoc<T>(s: seq<T>, x: T, f: T -> nat)
    ensures SumNat(s + [x], f) == SumNat(s, f) + f(x)
  {
    DropLastSnoc(s, x);
  }

  lemma SumRealSnoc<T>(s: seq<T>, x: T, f: T -> real)
    ensures SumReal(s + [x], f) == SumReal(s, f) + f(x)
  {
    DropLastSnoc(s, x);
  }

  /** Sums do not depend on the order of the elements. */
  lemma {:induction false} SumRealPerm<T>(a: seq<T>, b: seq<T>, f: T -> real)
    requires multiset(a) == multiset(b)
    ensures SumReal(a, f) == SumReal(b, f)
    decreases |a|
  {
    if a == [] {
      assert |b| == |multiset(b)| == 0;
    } else {
      var d, x := DropLast(a), Last(a);
      assert a == d + [x];
      assert x in multiset(b);
      var k :| 0 <= k < |b| && b[k] == x;
      var b' := b[..k] + b[k + 1..];
      assert b == b[..k] + [x] + b[k + 1..];
      assert multiset(b) == multiset(b[..k]) + multiset{x} + multiset(b[k + 1..]);
      assert multiset(a) == multiset(d) + multiset{x};
      assert multiset(b') == multiset(b[..k]) + multiset(b[k + 1..]);
      assert multiset(b') == multiset(b) - multiset{x};
      assert multiset(d) == multiset(a) - multiset{x};
      SumRealPerm(d, b', f);
      SumRealConcat(b[..k] + [x], b[k + 1..], f);
      SumRealConcat(b[..k], [x], f);
      SumRealConcat(b[..k], b[k + 1..], f);
      SumRealSnoc([], x, f);
    }
  }

  lemma {:induction false} SumNatPerm<T>(a: seq<T>, b: seq<T>, f: T -> nat)
    requires multiset(a) == multiset(b)
    ensures SumNat(a, f) == SumNat(b, f)
    decreases |a|
  {
    if a == [] {
      assert |b| == |multiset(b)| == 0;
    } else {
      var d, x := DropLast(a), Last(a);
      assert a == d + [x];
      assert x in multiset(b);
      var k :| 0 <= k < |b| && b[k] == x;
      var b' := b[..k] + b[k + 1..];
      assert b == b[..k] + [x] + b[k + 1..];
      assert multiset(b) == multiset(b[..k]) + multiset{x} + multiset(b[k + 1..]);
      assert multiset(a) == multiset(d) + multiset{x};
      assert multiset(b') == multiset(b[..k]) + multiset(b[k + 1..]);
      assert multiset(b') == multiset(b) - multiset{x};
      assert multiset(d) == multiset(a) - multiset{x};
      SumNatPerm(d, b', f);
      SumNatConcat(b[..k] + [x], b[k + 1..], f);
      SumNatConcat(b[..k], [x], f);
      SumNatConcat(b[..k], b[k + 1..], f);
      SumNatSnoc([], x, f);
    }
  }

  /** Summing a pointwise-smaller field gives a smaller sum. */
  lemma {:induction false} SumNatMono<T>(s: seq<T>, f: T -> nat, g: T -> nat)
    requires forall x :: x in s ==> f(x) <= g(x)
    ensures SumNat(s, f) <= SumNat(s, g)
    decreases |s|
  {
    if s != [] {
      assert s == DropLast(s) + [Last(s)];
      SumNatMono(DropLast(s), f, g);
    }
  }

  lemma {:induction false} SumRealMono<T>(s: seq<T>, f: T -> real, g: T -> real)
    requires forall x :: x in s ==> f(x) <= g(x)
    ensures SumReal(s, f) <= SumReal(s, g)
    decreases |s|
  {
    if s != [] {
      assert s == DropLast(s) + [Last(s)];
      SumRealMono(DropLast(s), f, g);
    }
  }

  /** A constant factor comes out of a sum. */
  lemma {:induction false} SumRealScale<T>(s: seq<T>, f: T -> real, g: T -> real, c: real)
    requires forall x :: g(x) == c * f(x)
    ensures SumReal(s, g) == c * SumReal(s, f)
    decreases |s|
  {
    if s != [] {
      SumRealScale(DropLast(s), f, g, c);
    }
  }

  // ----- Stable sorting -----

  /** `le(a, b)` holds when the comparator of a JavaScript `sort` call does
      not put `a` after `b` (the comparator returns a value `<= 0`). */
  ghost predicate TotalPreorder<T(!new)>(le: (T, T) -> bool)
  {
    && (forall a, b :: le(a, b) || le(b, a))
    && (forall a, b, c :: le(a, b) && le(b, c) ==> le(a, c))
  }

  ghost predicate SortedBy<T>(s: seq<T>, le: (T, T) -> bool)
  {
    forall i, j :: 0 <= i < j < |s| ==> le(s[i], s[j])
  }

  /** Comparing a numeric sort key ascending is a total preorder. */
  lemma AscendingByKey<T(!new)>(le: (T, T) -> bool, key: T -> real)
    requires forall a, b :: le(a, b) == (key(a) <= key(b))
    ensures TotalPreorder(le)
  {
  }

  /** Comparing a numeric sort key descending is a total preorder. */
  lemma DescendingByKey<T(!new)>(le: (T, T) -> bool, key: T -> real)
    requires forall a, b :: le(a, b) == (key(a) >= key(b))
    ensures TotalPreorder(le)
  {
  }

  /** Puts `h` in front of the first element it may precede. */
  function InsertFront<T(==)>(h: T, r: seq<T>, le: (T, T) -> bool): (o: seq<T>)
    ensures |o| == |r| + 1
    ensures multiset(o) == multiset(r) + multiset{h}
  {
    if r == [] || le(h, r[0]) then [h] + r
    else
      assert r == [r[0]] + r[1..];
      [r[0]] + InsertFront(h, r[1..], le)
  }

  /** A stable sort: elements the comparator calls equal keep their order,
      as `Array.prototype.sort` guarantees. */
  function SortBy<T(==)>(s: seq<T>, le: (T, T) -> bool): (r: seq<T>)
    ensures |r| == |s|
    ensures multiset(r) == multiset(s)
  {
    if s == [] then []
    else
      assert s == [s[0]] + s[1..];
      InsertFront(s[0], SortBy(s[1..], le), le)
  }

  lemma {:induction false} InsertFrontSorted<T(!new)>(h: T, r: seq<T>, le: (T, T) -> bool)
    requires TotalPreorder(le)
    requires SortedBy(r, le)
    ensures SortedBy(InsertFront(h, r, le), le)
    decreases |r|
  {
    if r == [] || le(h, r[0]) {
    } else {
      var rest := InsertFront(h, r[1..], le);
      InsertFrontSorted(h, r[1..], le);
      assert le(r[0], h);
      forall k | 0 <= k < |rest| ensures le(r[0], rest[k]) {
        assert rest[k] in multiset(rest);
        assert rest[k] in multiset(r[1..]) + multiset{h};
        if rest[k] != h {
          assert rest[k] in r[1..];
          var m :| 0 <= m < |r[1..]| && r[1..][m] == rest[k];
          assert r[m + 1] == rest[k];
        }
      }
      var o := [r[0]] + rest;
      forall i, j | 0 <= i < j < |o| ensures le(o[i], o[j]) {
        if i > 0 {
          assert o[i] == rest[i - 1] && o[j] == rest[j - 1];
        } else {
          assert o[j] == rest[j - 1];
        }
      }
    }
  }

  /** The result of SortBy is sorted for every total preorder. */
  lemma {:induction false} SortBySorted<T(!new)>(s: seq<T>, le: (T, T) -> bool)
    requires TotalPreorder(le)
    ensures SortedBy(SortBy(s, le), le)
    decreases |s|
  {
    if s != [] {
      SortBySorted(s[1..], le);
      InsertFrontSorted(s[0], SortBy(s[1..], le), le);
    }
  }

  /** A comparator that calls every pair equal leaves the order unchanged. */
  lemma {:induction false} SortByAllEqual<T>(s: seq<T>, le: (T, T) -> bool)
    requires forall i, j :: 0 <= i < |s| && 0 <= j < |s| ==> le(s[i], s[j])
    ensures SortBy(s, le) == s
    decreases |s|
  {
    if s != [] {
      var t := s[1..];
      forall i, j | 0 <= i < |t| && 0 <= j < |t| ensures le(t[i], t[j]) {
        assert t[i] == s[i + 1] && t[j] == s[j + 1];
      }
      SortByAllEqual(t, le);
      if t != [] {
        assert le(s[0], t[0]) by { assert t[0] == s[1]; }
      }
      assert s == [s[0]] + t;
    }
  }

  /** The first element of `s` that may precede every later element. */
  function FirstLeast<T>(s: seq<T>, le: (T, T) -> bool): T
    requires |s| > 0
  {
    if |s| == 1 then s[0]
    else
      var m := FirstLeast(s[1..], le);
      if le(s[0], m) then s[0] else m
  }

  /** Stability at the head: the first element of the sorted sequence is
      FirstLeast. */
  lemma {:induction false} SortByHead<T>(s: seq<T>, le: (T, T) -> bool)
    requires |s| > 0
    ensures SortBy(s, le)[0] == FirstLeast(s, le)
    decreases |s|
  {
    if |s| > 1 {
      SortByHead(s[1..], le);
    } else {
      assert s[1..] == [];
    }
  }

  /** FirstLeast is an element of `s` that may precede all of `s`, and every
      element before its position may not precede it. */
  lemma {:induction false} FirstLeastIsLeast<T(!new)>(s: seq<T>, le: (T, T) -> bool)
    requires |s| > 0
    requires TotalPreorder(le)
    ensures var m := FirstLeast(s, le);
      && m in s
      && (forall x :: x in s ==> le(m, x))
      && exists i :: 0 <= i < |s| && s[i] == m && forall j :: 0 <= j < i ==> !le(s[j], m)
    decreases |s|
  {
    var m := FirstLeast(s, le);
    if |s| == 1 {
      assert s[0] == m;
    } else {
      var t := s[1..];
      var mt := FirstLeast(t, le);
      FirstLeastIsLeast(t, le);
      assert s == [s[0]] + t;
      if le(s[0], mt) {
        assert m == s[0];
      } else {
        assert m == mt;
        var i :| 0 <= i < |t| && t[i] == mt && forall j :: 0 <= j < i ==> !le(t[j], mt);
        assert s[i + 1] == m;
        forall j | 0 <= j < i + 1 ensures !le(s[j], m) {
          if j > 0 { assert s[j] == t[j - 1]; }
        }
      }
    }
  }
}
