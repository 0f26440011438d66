/** Sorting by a strict total order.

    Go's maps iterate in an unspecified order, so every place where the client walks
    a map and then calls sort.Slice is modelled as "sort the set of keys".  Because
    each comparator is a strict total order, the sorted sequence is unique, and the
    result does not depend on the iteration order. */
module Orders {
  import opened Prelude

  ghost predicate StrictTotal<T(!new)>(less: (T, T) -> bool) {
    && (forall a :: !less(a, a))
    && (forall a, b, c :: less(a, b) && less(b, c) ==> less(a, c))
    && (forall a, b :: a != b ==> less(a, b) || less(b, a))
  }

  ghost predicate Sorted<T(!new)>(xs: seq<T>, less: (T, T) -> bool) {
    forall i, j :: 0 <= i < j < |xs| ==> less(xs[i], xs[j])
  }

  /** xs lists the set s in increasing order. */
  ghost predicate SortOf<T(!new)>(xs: seq<T>, s: set<T>, less: (T, T) -> bool) {
    Sorted(xs, less) && Elements(xs) == s
  }

  ghost predicate IsLeast<T(!new)>(m: T, s: set<T>, less: (T, T) -> bool) {
    m in s && forall y :: y in s && y != m ==> less(m, y)
  }

  lemma {:induction false} LeastExists<T(!new)>(s: set<T>, less: (T, T) -> bool) returns (m: T)
    requires StrictTotal(less) && s != {}
    ensures IsLeast(m, s, less)
    decreases |s|
  {
    m :| m in s;
    var rest := s - {m};
    assert s == rest + {m};
    if rest != {} {
      var x := m;
      var r := LeastExists(rest, less);
      m := if less(x, r) then x else r;
      forall y | y in s && y != m ensures less(m, y) {
        assert y == x || y in rest;
      }
    }
  }

  ghost function Least<T(!new)>(s: set<T>, less: (T, T) -> bool): (m: T)
    requires StrictTotal(less) && s != {}
    ensures IsLeast(m, s, less)
  {
    assert exists m :: IsLeast(m, s, less) by {
      var m := LeastExists(s, less);
    }
    var m :| IsLeast(m, s, less);
    m
  }

  ghost function SortSet<T(!new)>(s: set<T>, less: (T, T) -> bool): (xs: seq<T>)
    requires StrictTotal(less)
    ensures SortOf(xs, s, less) && |xs| == |s|
    decreases |s|
  {
    if s == {} then []
    else
      var m := Least(s, less);
      var rest := SortSet(s - {m}, less);
      assert forall x :: x in rest <==> x in Elements(rest);
      assert Elements([m] + rest) == s;
      [m] + rest
  }

  lemma NoElements<T>(xs: seq<T>)
    ensures Elements(xs) == {} <==> xs == []
  {
    if xs != [] {
      assert xs[0] in Elements(xs);
    }
  }

  /** Whatever order the elements were collected in, sorting them gives one sequence. */
  lemma {:induction false} SortUnique<T(!new)>(xs: seq<T>, ys: seq<T>, s: set<T>, less: (T, T) -> bool)
    requires StrictTotal(less) && SortOf(xs, s, less) && SortOf(ys, s, less)
    ensures xs == ys
  {
    if s == {} {
      NoElements(xs);
      NoElements(ys);
    } else {
      HeadIsLeast(xs, s, less);
      HeadIsLeast(ys, s, less);
      assert xs[0] == ys[0];
      TailSorts(xs, s, less);
      TailSorts(ys, s, less);
      SortUnique(xs[1..], ys[1..], s - {xs[0]}, less);
      assert xs == [xs[0]] + xs[1..] && ys == [ys[0]] + ys[1..];
    }
  }

  lemma HeadIsLeast<T(!new)>(xs: seq<T>, s: set<T>, less: (T, T) -> bool)
    requires StrictTotal(less) && SortOf(xs, s, less) && s != {}
    ensures xs != [] && xs[0] in s && forall y :: y in s && y != xs[0] ==> less(xs[0], y)
  {
    var x :| x in s;
    assert x in Elements(xs);
    assert xs[0] in Elements(xs);
    forall y | y in s && y != xs[0] ensures less(xs[0], y) {
      assert y in Elements(xs);
      var i :| 0 <= i < |xs| && xs[i] == y;
    }
  }

  lemma TailSorts<T(!new)>(xs: seq<T>, s: set<T>, less: (T, T) -> bool)
    requires StrictTotal(less) && SortOf(xs, s, less) && xs != []
    ensures SortOf(xs[1..], s - {xs[0]}, less)
  {
    forall y ensures y in Elements(xs[1..]) <==> y in s - {xs[0]} {
      if y in s - {xs[0]} {
        assert y in Elements(xs);
        var i :| 0 <= i < |xs| && xs[i] == y;
        assert xs[1..][i - 1] == y;
      }
      if y in xs[1..] {
        var i :| 0 <= i < |xs[1..]| && xs[1..][i] == y;
        assert less(xs[0], xs[i + 1]);
        assert y in Elements(xs);
      }
    }
  }

  /** Adding an element above all others appends it to the sorted sequence. */
  lemma SortSnoc<T(!new)>(s: set<T>, top: T, less: (T, T) -> bool)
    requires StrictTotal(less)
    requires forall y :: y in s ==> less(y, top)
    ensures SortSet(s + {top}, less) == SortSet(s, less) + [top]
  {
    hide StrictTotal, SortOf;
    AppendTop(SortSet(s, less), s, top, less);
    SortUnique(SortSet(s + {top}, less), SortSet(s, less) + [top], s + {top}, less);
  }

  lemma AppendTop<T(!new)>(xs: seq<T>, s: set<T>, top: T, less: (T, T) -> bool)
    requires SortOf(xs, s, less) && forall y :: y in s ==> less(y, top)
    ensures SortOf(xs + [top], s + {top}, less)
  {
    assert forall i :: 0 <= i < |xs| ==> xs[i] in Elements(xs);
    assert Elements(xs + [top]) == Elements(xs) + {top};
  }

  /** sort.Slice on a slice without repeats. */
  method SortSlice<T(!new)>(xs: seq<T>, less: (T, T) -> bool) returns (ys: seq<T>)
    requires StrictTotal(less) && Distinct(xs)
    ensures ys == SortSet(Elements(xs), less)
  {
    ys := [];
    for n := 0 to |xs|
      invariant SortOf(ys, Elements(xs[..n]), less)
    {
      ghost var before := ys;
      var k := 0;
      while k < |ys| && less(ys[k], xs[n])
        invariant 0 <= k <= |ys|
        invariant forall i :: 0 <= i < k ==> less(ys[i], xs[n])
      {
        k := k + 1;
      }
      InsertSorted(ys, k, xs[n], Elements(xs[..n]), less) by {
        assert xs[n] !in xs[..n];
      }
      ys := ys[..k] + [xs[n]] + ys[k..];
      assert xs[..n + 1] == xs[..n] + [xs[n]];
      assert Elements(xs[..n + 1]) == Elements(xs[..n]) + {xs[n]};
    }
    assert xs[..|xs|] == xs;
    SortUnique(ys, SortSet(Elements(xs), less), Elements(xs), less);
  }

  /** Collecting a map's keys: Go visits each once, in an order of its choosing. */
  method Range<T(==, !new)>(keys: set<T>) returns (xs: seq<T>)
    ensures Distinct(xs) && Elements(xs) == keys
  {
    xs := [];
    var rest := keys;
    while rest != {}
      invariant rest <= keys && Distinct(xs)
      invariant forall x :: x in xs <==> x in keys && x !in rest
      decreases rest
    {
      var x :| x in rest;
      assert x !in xs;
      rest := rest - {x};
      xs := xs + [x];
    }
  }

  lemma InsertSorted<T(!new)>(ys: seq<T>, k: nat, x: T, s: set<T>, less: (T, T) -> bool)
    requires StrictTotal(less) && SortOf(ys, s, less) && x !in s && k <= |ys|
    requires forall i :: 0 <= i < k ==> less(ys[i], x)
    requires k < |ys| ==> !less(ys[k], x)
    ensures SortOf(ys[..k] + [x] + ys[k..], s + {x}, less)
  {
    var zs := ys[..k] + [x] + ys[k..];
    forall i | k <= i < |ys| ensures less(x, ys[i]) {
      assert ys[k] in Elements(ys);
    }
    forall i, j | 0 <= i < j < |zs| ensures less(zs[i], zs[j]) {
    }
    assert ys == ys[..k] + ys[k..];
    forall y ensures y in zs <==> y in s + {x} {
      assert y in ys <==> y in Elements(ys);
      assert y in ys <==> y in ys[..k] || y in ys[k..];
    }
  }

  // ---- the comparators the client sorts by ----

  predicate NatLess(a: nat, b: nat) { a < b }

  lemma NatLessTotal()
    ensures StrictTotal(NatLess)
  {
  }

  /** A finite set of numbers in increasing order. */
  ghost function Ascending(s: set<nat>): (xs: seq<nat>)
    ensures SortOf(xs, s, NatLess) && |xs| == |s|
    ensures forall x :: x in xs <==> x in s
    ensures forall i, j :: 0 <= i < j < |xs| ==> xs[i] < xs[j]
  {
    NatLessTotal();
    var xs := SortSet(s, NatLess);
    assert forall x :: x in xs <==> x in Elements(xs);
    assert forall i, j :: 0 <= i < j < |xs| ==> NatLess(xs[i], xs[j]);
    xs
  }

  lemma AscendingSnoc(s: set<nat>, top: nat)
    requires forall y :: y in s ==> y < top
    ensures Ascending(s + {top}) == Ascending(s) + [top]
  {
    NatLessTotal();
    SortSnoc(s, top, NatLess);
  }

  method SortIds(xs: seq<nat>) returns (ys: seq<nat>)
    requires Distinct(xs)
    ensures ys == Ascending(Elements(xs))
  {
    NatLessTotal();
    ys := SortSlice(xs, NatLess);
  }
}
