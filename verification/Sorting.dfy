/** Sequences sorted by a strict order: unique for their elements, and computed by insertion. */
module Sorting {

  ghost predicate Sorted<T(!new)>(less: (T, T) -> bool, s: seq<T>) {
    forall i, j :: 0 <= i < j < |s| ==> less(s[i], s[j])
  }

  ghost predicate Asymmetric<T(!new)>(less: (T, T) -> bool) {
    forall a, b :: less(a, b) ==> !less(b, a)
  }

  ghost predicate Transitive<T(!new)>(less: (T, T) -> bool) {
    forall a, b, c :: less(a, b) && less(b, c) ==> less(a, c)
  }

  ghost predicate SameElements<T(!new)>(a: seq<T>, b: seq<T>) {
    forall x :: x in a <==> x in b
  }

  /** Whatever order the elements came in, sorting them leaves one possible result. */
  lemma {:induction false} SortedIsUnique<T(!new)>(less: (T, T) -> bool, a: seq<T>, b: seq<T>)
    requires Asymmetric(less) && Sorted(less, a) && Sorted(less, b) && SameElements(a, b)
    ensures a == b
    decreases |a|
  {
    if a == [] || b == [] {
      EmptyHasNone(a);
      EmptyHasNone(b);
    } else {
      assert a[0] in b;
      var x, y := a[0], b[0];
      assert y in a;
      var j :| 0 <= j < |b| && b[j] == x;
      var i :| 0 <= i < |a| && a[i] == y;
      assert i == 0 || j == 0;
      forall z ensures z in a[1..] <==> z in b[1..] {
        assert z in a[1..] ==> z in b && z != x by { TailExcludesHead(less, a, z); }
        assert z in b[1..] ==> z in a && z != x by { TailExcludesHead(less, b, z); }
      }
      SortedIsUnique(less, a[1..], b[1..]);
    }
  }

  lemma EmptyHasNone<T(!new)>(s: seq<T>)
    ensures s == [] <==> forall x :: x !in s
  {
    if s != [] { assert s[0] in s; }
  }

  lemma TailExcludesHead<T(!new)>(less: (T, T) -> bool, s: seq<T>, z: T)
    requires Asymmetric(less) && Sorted(less, s) && s != []
    ensures z in s[1..] ==> z in s && z != s[0]
  {
    if z in s[1..] {
      var k :| 0 <= k < |s[1..]| && s[1..][k] == z;
      assert less(s[0], s[k + 1]);
    }
  }

  ghost predicate Total<T(!new)>(less: (T, T) -> bool) {
    forall a, b :: less(a, b) || less(b, a) || a == b
  }

  /** Dictionary order: the first difference decides, and a proper prefix comes first. */
  predicate LexLess<T(==)>(less: (T, T) -> bool, a: seq<T>, b: seq<T>) {
    b != [] && (a == [] || less(a[0], b[0]) || (a[0] == b[0] && LexLess(less, a[1..], b[1..])))
  }

  ghost predicate DiffersAt<T(!new)>(less: (T, T) -> bool, a: seq<T>, b: seq<T>, k: nat) {
    k < |a| && k < |b| && a[..k] == b[..k] && less(a[k], b[k])
  }

  lemma {:induction false} LexMeans<T(!new)>(less: (T, T) -> bool, a: seq<T>, b: seq<T>)
    requires forall x :: !less(x, x)
    ensures LexLess(less, a, b) <==> (|a| < |b| && a == b[..|a|]) || exists k: nat :: DiffersAt(less, a, b, k)
  {
    if a != [] && b != [] {
      if DiffersAt(less, a, b, 0) {
        assert LexLess(less, a, b);
      } else if a[0] == b[0] {
        LexMeans(less, a[1..], b[1..]);
        assert a == [a[0]] + a[1..] && b == [b[0]] + b[1..];
        if k: nat :| DiffersAt(less, a, b, k) {
          assert a[1..][..k - 1] == a[..k][1..] && b[1..][..k - 1] == b[..k][1..];
          assert DiffersAt(less, a[1..], b[1..], k - 1);
        }
        if k: nat :| DiffersAt(less, a[1..], b[1..], k) {
          assert a[..k + 1] == [a[0]] + a[1..][..k] && b[..k + 1] == [b[0]] + b[1..][..k];
          assert DiffersAt(less, a, b, k + 1);
        }
      } else {
        forall k: nat | 0 < k < |a| && k < |b| ensures a[..k] != b[..k] {
          assert a[..k][0] == a[0] && b[..k][0] == b[0];
        }
      }
    }
  }

  lemma {:induction false} LexIsTotal<T(!new)>(less: (T, T) -> bool, a: seq<T>, b: seq<T>)
    requires Total(less)
    ensures LexLess(less, a, b) || LexLess(less, b, a) || a == b
  {
    if a != [] && b != [] && a[0] == b[0] {
      LexIsTotal(less, a[1..], b[1..]);
      assert a == [a[0]] + a[1..] && b == [b[0]] + b[1..];
    }
  }

  lemma {:induction false} LexIsAsymmetric<T(!new)>(less: (T, T) -> bool, a: seq<T>, b: seq<T>)
    requires Asymmetric(less)
    ensures !(LexLess(less, a, b) && LexLess(less, b, a))
  {
    if a != [] && b != [] && a[0] == b[0] { LexIsAsymmetric(less, a[1..], b[1..]); }
  }

  lemma {:induction false} LexIsTransitive<T(!new)>(less: (T, T) -> bool, a: seq<T>, b: seq<T>, c: seq<T>)
    requires Asymmetric(less) && Transitive(less) && LexLess(less, a, b) && LexLess(less, b, c)
    ensures LexLess(less, a, c)
  {
    if a != [] && a[0] == b[0] && b[0] == c[0] { LexIsTransitive(less, a[1..], b[1..], c[1..]); }
  }

  method Insert<T(==, !new)>(less: (T, T) -> bool, s: seq<T>, x: T) returns (r: seq<T>)
    requires Sorted(less, s) && Transitive(less)
    requires forall i :: 0 <= i < |s| ==> less(s[i], x) || less(x, s[i])
    ensures Sorted(less, r) && SameElements(r, [x] + s)
  {
    var k := 0;
    while k < |s| && less(s[k], x)
      invariant k <= |s|
      invariant forall i :: 0 <= i < k ==> less(s[i], x)
    {
      k := k + 1;
    }
    r := s[..k] + [x] + s[k..];
    forall i | k <= i < |s| ensures less(x, s[i]) {
      if i > k { assert less(x, s[k]) && less(s[k], s[i]); }
    }
    assert s == s[..k] + s[k..];
  }

  /** Sort distinct elements that the order can always tell apart. */
  method Sort<T(==, !new)>(less: (T, T) -> bool, items: seq<T>) returns (r: seq<T>)
    requires Transitive(less)
    requires forall i, j :: 0 <= i < j < |items| ==> less(items[i], items[j]) || less(items[j], items[i])
    ensures Sorted(less, r) && SameElements(r, items)
  {
    r := [];
    for n := 0 to |items|
      invariant Sorted(less, r) && SameElements(r, items[..n])
    {
      forall i | 0 <= i < |r| ensures less(r[i], items[n]) || less(items[n], r[i]) {
        assert r[i] in items[..n];
      }
      r := Insert(less, r, items[n]);
      assert items[..n + 1] == items[..n] + [items[n]];
    }
    assert items[..|items|] == items;
  }
}
