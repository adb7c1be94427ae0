// Strict total orders and sorted enumeration: what sort.Strings, sort.Slice and
// slices.Sorted(maps.Keys(...)) provide to the scheduler and the planner.
module Order {

  ghost predicate StrictTotal<T(!new)>(lt: (T, T) -> bool) {
    && (forall x, y :: lt(x, y) ==> !lt(y, x))
    && (forall x, y, z :: lt(x, y) && lt(y, z) ==> lt(x, z))
    && (forall x, y :: x == y || lt(x, y) || lt(y, x))
  }

  predicate IsLeast<T(==)>(m: T, s: set<T>, lt: (T, T) -> bool) {
    m in s && forall x | x in s :: x == m || lt(m, x)
  }

  ghost predicate Increasing<T>(q: seq<T>, lt: (T, T) -> bool) {
    forall i, j | 0 <= i < j < |q| :: lt(q[i], q[j])
  }

  lemma {:induction false} LeastExists<T(!new)>(s: set<T>, lt: (T, T) -> bool)
    requires StrictTotal(lt) && s != {}
    ensures exists m :: IsLeast(m, s, lt)
    decreases |s|
  {
    var x :| x in s;
    if s == {x} {
      assert IsLeast(x, s, lt);
    } else {
      LeastExists(s - {x}, lt);
      var m :| IsLeast(m, s - {x}, lt);
      assert s == (s - {x}) + {x};
      if lt(x, m) {
        assert IsLeast(x, s, lt);
      } else {
        assert IsLeast(m, s, lt);
      }
    }
  }

  ghost function Least<T(!new)>(s: set<T>, lt: (T, T) -> bool): (m: T)
    requires StrictTotal(lt) && s != {}
    ensures IsLeast(m, s, lt)
  {
    LeastExists(s, lt);
    var m :| IsLeast(m, s, lt);
    m
  }

  // The elements of a set, least first.
  ghost function Sorted<T(!new)>(s: set<T>, lt: (T, T) -> bool): (q: seq<T>)
    requires StrictTotal(lt)
    ensures forall x :: x in q <==> x in s
    ensures Increasing(q, lt)
    decreases |s|
  {
    if s == {} then
      []
    else
      var m := Least(s, lt);
      var rest := Sorted(s - {m}, lt);
      assert forall x :: x in [m] + rest <==> x == m || x in rest;
      [m] + rest
  }

  // A set has one increasing enumeration, however it was produced.
  lemma {:induction false} SortedUnique<T(!new)>(q: seq<T>, s: set<T>, lt: (T, T) -> bool)
    requires StrictTotal(lt) && Increasing(q, lt)
    requires forall x :: x in q <==> x in s
    ensures q == Sorted(s, lt)
  {
    if q == [] {
      assert s == {};
    } else {
      assert q[0] in s;
      var m := Least(s, lt);
      assert m == q[0];
      forall x ensures x in q[1..] <==> x in s - {m} {
        if x in q[1..] {
          var i :| 0 <= i < |q[1..]| && q[1..][i] == x;
          assert q[i + 1] == x && lt(q[0], q[i + 1]);
        }
      }
      SortedUnique(q[1..], s - {m}, lt);
      assert q == [q[0]] + q[1..];
    }
  }

  lemma IncreasingNoDup<T(!new)>(q: seq<T>, lt: (T, T) -> bool)
    requires StrictTotal(lt) && Increasing(q, lt)
    ensures forall i, j | 0 <= i < j < |q| :: q[i] != q[j]
  {
    forall i, j | 0 <= i < j < |q| ensures q[i] != q[j] {
      assert lt(q[i], q[j]);
    }
  }

  lemma Assoc<T>(a: seq<T>, b: seq<T>, c: seq<T>)
    ensures a + (b + c) == a + b + c
  {
  }

  // Stands in for the library sorts.
  method Sort<T(==, !new)>(s: set<T>, lt: (T, T) -> bool) returns (q: seq<T>)
    requires StrictTotal(lt)
    ensures q == Sorted(s, lt)
  {
    q := [];
    var rest := s;
    while rest != {}
      invariant rest <= s
      invariant Sorted(s, lt) == q + Sorted(rest, lt)
      decreases |rest|
    {
      LeastExists(rest, lt);
      var m :| m in rest && IsLeast(m, rest, lt);
      assert Least(rest, lt) == m;
      Assoc(q, [m], Sorted(rest - {m}, lt));
      q := q + [m];
      rest := rest - {m};
    }
  }

  // Byte order on names, as Go compares strings.
  predicate StringLess(a: string, b: string) {
    b != [] && (a == [] || a[0] < b[0] || (a[0] == b[0] && StringLess(a[1..], b[1..])))
  }

  // They agree on k characters, after which a is at its end or has the lesser one.
  ghost predicate LessAt(a: string, b: string, k: int) {
    0 <= k <= |a| && k < |b| && a[..k] == b[..k] && (k == |a| || a[k] < b[k])
  }

  lemma SameHead(a: string, b: string, k: int)
    requires 0 < k <= |a| && k <= |b| && a[..k] == b[..k]
    ensures a[0] == b[0]
  {
    assert a[0] == a[..k][0];
  }

  lemma {:induction false} StringLessExact(a: string, b: string)
    ensures StringLess(a, b) <==> exists k :: LessAt(a, b, k)
  {
    if b == [] {
    } else if a == [] {
      assert LessAt(a, b, 0);
    } else if a[0] != b[0] {
      assert LessAt(a, b, 0) <==> a[0] < b[0];
      forall k | LessAt(a, b, k) ensures k == 0 {
        if k > 0 {
          SameHead(a, b, k);
        }
      }
    } else {
      StringLessExact(a[1..], b[1..]);
      assert !LessAt(a, b, 0);
      forall k | LessAt(a, b, k) ensures LessAt(a[1..], b[1..], k - 1) {
        assert a[1..][..k - 1] == a[..k][1..] && b[1..][..k - 1] == b[..k][1..];
      }
      forall k | LessAt(a[1..], b[1..], k) ensures LessAt(a, b, k + 1) {
        assert a[..k + 1] == [a[0]] + a[1..][..k] && b[..k + 1] == [b[0]] + b[1..][..k];
      }
    }
  }

  lemma {:induction false} StringLessAsymmetric(a: string, b: string)
    requires StringLess(a, b)
    ensures !StringLess(b, a)
  {
    if a != [] && a[0] == b[0] {
      StringLessAsymmetric(a[1..], b[1..]);
    }
  }

  lemma {:induction false} StringLessTransitive(a: string, b: string, c: string)
    requires StringLess(a, b) && StringLess(b, c)
    ensures StringLess(a, c)
  {
    if a != [] && a[0] == b[0] == c[0] {
      StringLessTransitive(a[1..], b[1..], c[1..]);
    }
  }

  lemma {:induction false} StringLessConnected(a: string, b: string)
    ensures a == b || StringLess(a, b) || StringLess(b, a)
  {
    if a != [] && b != [] && a[0] == b[0] {
      StringLessConnected(a[1..], b[1..]);
      assert a == [a[0]] + a[1..] && b == [b[0]] + b[1..];
    }
  }

  lemma StringLessStrictTotal()
    ensures StrictTotal(StringLess)
  {
    forall x, y | StringLess(x, y) ensures !StringLess(y, x) {
      StringLessAsymmetric(x, y);
    }
    forall x, y, z | StringLess(x, y) && StringLess(y, z) ensures StringLess(x, z) {
      StringLessTransitive(x, y, z);
    }
    forall x, y ensures x == y || StringLess(x, y) || StringLess(y, x) {
      StringLessConnected(x, y);
    }
  }
}
