// Iteration order of std::set and std::map: ascending by a strict total order.
module Ordering {
  import opened Types

  ghost predicate StrictOrder<T(!new)>(less: (T, T) -> bool) {
    && (forall x :: !less(x, x))
    && (forall x, y :: x != y ==> less(x, y) || less(y, x))
    && (forall x, y, z :: less(x, y) && less(y, z) ==> less(x, z))
  }

  ghost predicate IsLeast<T(!new)>(m: T, s: set<T>, less: (T, T) -> bool) {
    m in s && forall x :: x in s && x != m ==> less(m, x)
  }

  lemma {:induction false} LeastExists<T(!new)>(s: set<T>, less: (T, T) -> bool)
    requires StrictOrder(less) && s != {}
    ensures exists m :: IsLeast(m, s, less)
    decreases |s|
  {
    var x :| x in s;
    if s == {x} {
      assert IsLeast(x, s, less);
    } else {
      LeastExists(s - {x}, less);
      var m :| IsLeast(m, s - {x}, less);
      var k := if less(x, m) then x else m;
      forall y | y in s && y != k ensures less(k, y) {
        assert y == x || y in s - {x};
      }
      assert IsLeast(k, s, less);
    }
  }

  lemma Least<T(!new)>(s: set<T>, less: (T, T) -> bool) returns (m: T)
    requires StrictOrder(less) && s != {}
    ensures IsLeast(m, s, less)
  {
    LeastExists(s, less);
    m :| IsLeast(m, s, less);
  }

  /** The elements of `s` in ascending order. */
  ghost function Listing<T(!new)>(s: set<T>, less: (T, T) -> bool): seq<T>
    requires StrictOrder(less)
    decreases |s|
  {
    if s == {} then []
    else
      LeastExists(s, less);
      var m :| IsLeast(m, s, less);
      [m] + Listing(s - {m}, less)
  }

  /** Taking the least element first is one step of the iteration. */
  lemma ListingStep<T(!new)>(s: set<T>, less: (T, T) -> bool, m: T)
    requires StrictOrder(less) && IsLeast(m, s, less)
    ensures Listing(s, less) == [m] + Listing(s - {m}, less)
  {
    LeastExists(s, less);
    var k :| IsLeast(k, s, less) && Listing(s, less) == [k] + Listing(s - {k}, less);
    assert k == m;
  }

  ghost predicate Ascending<T(!new)>(xs: seq<T>, less: (T, T) -> bool) {
    forall i, j :: 0 <= i < j < |xs| ==> less(xs[i], xs[j])
  }

  /** A listing holds exactly the set's elements, each once, strictly ascending. */
  lemma {:induction false} ListingSpec<T(!new)>(s: set<T>, less: (T, T) -> bool)
    requires StrictOrder(less)
    ensures |Listing(s, less)| == |s|
    ensures forall x :: x in Listing(s, less) <==> x in s
    ensures Ascending(Listing(s, less), less)
    decreases |s|
  {
    if s != {} {
      LeastExists(s, less);
      var m :| IsLeast(m, s, less);
      ListingStep(s, less, m);
      ListingSpec(s - {m}, less);
      var rest := Listing(s - {m}, less);
      forall x ensures x in Listing(s, less) <==> x in s {
        assert x in [m] + rest <==> x == m || x in rest;
      }
      forall i, j | 0 <= i < j < 1 + |rest|
        ensures less(([m] + rest)[i], ([m] + rest)[j])
      {
        assert rest[j - 1] in rest;
      }
    }
  }

  /** There is only one way to list a set in ascending order. */
  lemma {:induction false} ListingUnique<T(!new)>(s: set<T>, less: (T, T) -> bool, xs: seq<T>)
    requires StrictOrder(less) && Ascending(xs, less)
    requires forall x :: x in xs <==> x in s
    ensures Listing(s, less) == xs
    decreases |xs|
  {
    if xs == [] {
      assert s == {};
    } else {
      var m, rest := xs[0], xs[1..];
      assert xs == [m] + rest;
      forall x | x in s && x != m ensures less(m, x) {
        var i :| 0 <= i < |xs| && xs[i] == x;
      }
      ListingStep(s, less, m);
      forall x ensures x in rest <==> x in s - {m} {
        assert x in [m] + rest <==> x == m || x in rest;
        if x in rest {
          var i :| 0 <= i < |rest| && rest[i] == x;
          assert xs[i + 1] == x;
        }
      }
      ListingUnique(s - {m}, less, rest);
    }
  }

  predicate FdLess(a: Fd, b: Fd) { a < b }

  lemma FdOrder()
    ensures StrictOrder(FdLess)
  {}

  /** Comparison of std::string: by byte, a proper prefix first. */
  predicate BytesLess(a: Bytes, b: Bytes) {
    b != [] && (a == [] || a[0] < b[0] || (a[0] == b[0] && BytesLess(a[1..], b[1..])))
  }

  predicate NameLess(a: Name, b: Name) { BytesLess(a, b) }

  lemma {:induction false} BytesConnected(a: Bytes, b: Bytes)
    requires a != b
    ensures BytesLess(a, b) || BytesLess(b, a)
  {
    if a != [] && b != [] && a[0] == b[0] {
      assert a == [a[0]] + a[1..] && b == [b[0]] + b[1..];
      BytesConnected(a[1..], b[1..]);
    }
  }

  lemma {:induction false} BytesIrreflexive(a: Bytes)
    ensures !BytesLess(a, a)
  {
    if a != [] {
      BytesIrreflexive(a[1..]);
    }
  }

  lemma {:induction false} BytesTransitive(a: Bytes, b: Bytes, c: Bytes)
    requires BytesLess(a, b) && BytesLess(b, c)
    ensures BytesLess(a, c)
  {
    if a != [] && a[0] == b[0] == c[0] {
      BytesTransitive(a[1..], b[1..], c[1..]);
    }
  }

  /** At the first place where they differ, the lesser has the lesser byte, or has ended. */
  predicate LessAt(a: Bytes, b: Bytes, k: nat) {
    && k <= |a| && k < |b| && a[..k] == b[..k]
    && (k == |a| || a[k] < b[k])
  }

  lemma {:induction false} BytesLessIff(a: Bytes, b: Bytes)
    ensures BytesLess(a, b) <==> exists k: nat :: LessAt(a, b, k)
  {
    if a == [] {
      assert b != [] ==> LessAt(a, b, 0);
    } else if b != [] {
      BytesLessIff(a[1..], b[1..]);
      if BytesLess(a, b) {
        if a[0] < b[0] {
          assert LessAt(a, b, 0);
        } else {
          var k: nat :| LessAt(a[1..], b[1..], k);
          assert a[..k + 1] == [a[0]] + a[1..][..k] && b[..k + 1] == [b[0]] + b[1..][..k];
          assert LessAt(a, b, k + 1);
        }
      }
      if k: nat :| LessAt(a, b, k) {
        if k > 0 {
          assert a[0] == a[..k][0] == b[..k][0] == b[0];
          assert a[1..][..k - 1] == a[..k][1..] && b[1..][..k - 1] == b[..k][1..];
          assert LessAt(a[1..], b[1..], k - 1);
        }
      }
    }
  }

  lemma NameOrder()
    ensures StrictOrder(NameLess)
  {
    forall a: Name ensures !NameLess(a, a) { BytesIrreflexive(a); }
    forall a: Name, b: Name | a != b ensures NameLess(a, b) || NameLess(b, a) { BytesConnected(a, b); }
    forall a: Name, b: Name, c: Name | NameLess(a, b) && NameLess(b, c) ensures NameLess(a, c) {
      BytesTransitive(a, b, c);
    }
  }
}
