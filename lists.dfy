/** List operations shared by several screens: removal by index, the
    splice-out/splice-in reorder of drag and drop, `Array.prototype.filter`,
    and the left-to-right sum of a `reduce`. */
module Lists {

  /** `s.filter((_, j) => j !== i)`: drops position `i` when it exists. */
  function RemoveAt<T>(s: seq<T>, i: int): (r: seq<T>)
    ensures 0 <= i < |s| ==> |r| == |s| - 1
    ensures 0 <= i < |s| ==> forall j :: 0 <= j < |r| ==> r[j] == if j < i then s[j] else s[j + 1]
    ensures !(0 <= i < |s|) ==> r == s
  {
    if 0 <= i < |s| then s[..i] + s[i + 1..] else s
  }

  /** `s.splice(from, 1)` followed by `splice(to, 0, removed)`. */
  function Moved<T>(s: seq<T>, from: nat, to: nat): seq<T>
    requires from < |s| && to < |s|
  {
    var rest := s[..from] + s[from + 1..];
    rest[..to] + [s[from]] + rest[to..]
  }

  /** Where each element of a reorder comes from. */
  lemma MovedAt<T>(s: seq<T>, from: nat, to: nat, j: nat)
    requires from < |s| && to < |s| && j < |s|
    ensures |Moved(s, from, to)| == |s|
    ensures Moved(s, from, to)[j] ==
      if j == to then s[from]
      else if from < to && from <= j < to then s[j + 1]
      else if to < from && to < j <= from then s[j - 1]
      else s[j]
  {
  }

  /** A reorder is a permutation that puts the dragged element at `to`. */
  lemma MovedPermutes<T>(s: seq<T>, from: nat, to: nat)
    requires from < |s| && to < |s|
    ensures |Moved(s, from, to)| == |s|
    ensures Moved(s, from, to)[to] == s[from]
    ensures multiset(Moved(s, from, to)) == multiset(s)
  {
    var rest := s[..from] + s[from + 1..];
    assert s == s[..from] + [s[from]] + s[from + 1..];
    assert rest == rest[..to] + rest[to..];
    calc {
      multiset(Moved(s, from, to));
      multiset(rest[..to]) + multiset([s[from]]) + multiset(rest[to..]);
      multiset(rest) + multiset([s[from]]);
      multiset(s);
    }
  }

  /** Dropping an element where it was picked up changes nothing. */
  lemma MovedSame<T>(s: seq<T>, i: nat)
    requires i < |s|
    ensures Moved(s, i, i) == s
  {
    forall j | 0 <= j < |s| ensures Moved(s, i, i)[j] == s[j] {
      MovedAt(s, i, i, j);
    }
  }

  /** Dragging back undoes a drag. */
  lemma MovedBack<T>(s: seq<T>, from: nat, to: nat)
    requires from < |s| && to < |s|
    ensures Moved(Moved(s, from, to), to, from) == s
  {
    var m := Moved(s, from, to);
    MovedAt(s, from, to, 0);
    forall j | 0 <= j < |s| ensures Moved(m, to, from)[j] == s[j] {
      MovedAt(m, to, from, j);
      if j == from {
        MovedAt(s, from, to, to);
      } else if to < from && to <= j < from {
        MovedAt(s, from, to, j + 1);
      } else if from < to && from < j <= to {
        MovedAt(s, from, to, j - 1);
      } else {
        MovedAt(s, from, to, j);
      }
    }
  }

  /** The two splices done in place on an array: the elements between the
      two positions shift by one and the dragged element lands at `to`. */
  method MoveInPlace<T>(a: array<T>, from: nat, to: nat)
    requires from < a.Length && to < a.Length
    modifies a
    ensures a[..] == Moved(old(a[..]), from, to)
  {
    ghost var s := a[..];
    var x := a[from];
    if from < to {
      var k := from;
      while k < to
        invariant from <= k <= to
        invariant forall j :: 0 <= j < from ==> a[j] == s[j]
        invariant forall j :: from <= j < k ==> a[j] == s[j + 1]
        invariant forall j :: k <= j < a.Length ==> a[j] == s[j]
      {
        a[k] := a[k + 1];
        k := k + 1;
      }
    } else if to < from {
      var k := from;
      while k > to
        invariant to <= k <= from
        invariant forall j :: 0 <= j <= k ==> a[j] == s[j]
        invariant forall j :: k < j <= from ==> a[j] == s[j - 1]
        invariant forall j :: from < j < a.Length ==> a[j] == s[j]
      {
        a[k] := a[k - 1];
        k := k - 1;
      }
    }
    a[to] := x;
    forall j | 0 <= j < a.Length ensures a[..][j] == Moved(s, from, to)[j] {
      MovedAt(s, from, to, j);
    }
  }

  /** `s.filter(p)`. */
  function Filter<T>(s: seq<T>, p: T -> bool): seq<T>
  {
    if s == [] then [] else (if p(s[0]) then [s[0]] else []) + Filter(s[1..], p)
  }

  /** `a` is `b` with some elements left out, the rest in the same order. */
  predicate IsSublist<T(==)>(a: seq<T>, b: seq<T>)
  {
    if a == [] then true
    else if b == [] then false
    else (a[0] == b[0] && IsSublist(a[1..], b[1..])) || IsSublist(a, b[1..])
  }

  lemma {:induction false} FilterMembers<T>(s: seq<T>, p: T -> bool, x: T)
    ensures x in Filter(s, p) <==> x in s && p(x)
  {
    if s != [] {
      FilterMembers(s[1..], p, x);
      assert s == [s[0]] + s[1..];
    }
  }

  lemma {:induction false} FilterIsSublist<T>(s: seq<T>, p: T -> bool)
    ensures IsSublist(Filter(s, p), s)
  {
    if s != [] {
      FilterIsSublist(s[1..], p);
      var r := Filter(s[1..], p);
      if p(s[0]) {
        assert Filter(s, p) == [s[0]] + r;
        assert ([s[0]] + r)[1..] == r;
      } else {
        assert Filter(s, p) == r;
        if r != [] {
          assert IsSublist(r, s[1..]);
        }
      }
    }
  }

  lemma {:induction false} FilterKeepsAll<T>(s: seq<T>, p: T -> bool)
    requires forall i :: 0 <= i < |s| ==> p(s[i])
    ensures Filter(s, p) == s
  {
    if s != [] {
      FilterKeepsAll(s[1..], p);
      assert s == [s[0]] + s[1..];
    }
  }

  lemma {:induction false} FilterKeepsNone<T>(s: seq<T>, p: T -> bool)
    requires forall i :: 0 <= i < |s| ==> !p(s[i])
    ensures Filter(s, p) == []
  {
    if s != [] {
      FilterKeepsNone(s[1..], p);
    }
  }

  /** `filter` keeps every copy of an element that passes and no copy of
      one that does not. */
  lemma {:induction false} FilterCount<T>(s: seq<T>, p: T -> bool, x: T)
    ensures multiset(Filter(s, p))[x] == if p(x) then multiset(s)[x] else 0
  {
    if s != [] {
      FilterCount(s[1..], p, x);
      assert s == [s[0]] + s[1..];
      assert multiset(s) == multiset([s[0]]) + multiset(s[1..]);
    }
  }

  /** Two predicates that agree on every element filter alike. */
  lemma {:induction false} FilterSamePredicate<T>(s: seq<T>, p: T -> bool, q: T -> bool)
    requires forall i :: 0 <= i < |s| ==> p(s[i]) == q(s[i])
    ensures Filter(s, p) == Filter(s, q)
  {
    if s != [] {
      FilterSamePredicate(s[1..], p, q);
    }
  }

  /** The head of a filtered list is the first element that passes. */
  lemma {:induction false} FilterHead<T>(s: seq<T>, p: T -> bool) returns (i: nat)
    requires Filter(s, p) != []
    ensures i < |s| && s[i] == Filter(s, p)[0] && p(s[i])
    ensures forall j :: 0 <= j < i ==> !p(s[j])
  {
    if p(s[0]) {
      i := 0;
    } else {
      var k := FilterHead(s[1..], p);
      i := k + 1;
    }
  }

  /** `xs.reduce((sum, x) => sum + x, 0)`, summed from the left. */
  function SumReal(xs: seq<real>): real
  {
    if xs == [] then 0.0 else SumReal(xs[..|xs| - 1]) + xs[|xs| - 1]
  }

  lemma {:induction false} SumConcat(xs: seq<real>, ys: seq<real>)
    ensures SumReal(xs + ys) == SumReal(xs) + SumReal(ys)
  {
    if ys == [] {
      assert xs + ys == xs;
    } else {
      var zs := xs + ys;
      var init := ys[..|ys| - 1];
      SumConcat(xs, init);
      assert zs[..|zs| - 1] == xs + init;
      assert zs[|zs| - 1] == ys[|ys| - 1];
      assert SumReal(ys) == SumReal(init) + ys[|ys| - 1];
    }
  }

  lemma SumSingleton(x: real)
    ensures SumReal([x]) == x
  {
    assert [x][..0] == [];
  }

  /** Removing a position before the last commutes with taking the last
      element off. */
  lemma RemoveBeforeLast<T>(xs: seq<T>, i: nat)
    requires i < |xs| - 1
    ensures RemoveAt(xs, i) == RemoveAt(xs[..|xs| - 1], i) + [xs[|xs| - 1]]
  {
  }

  /** Removing one position removes exactly its term from the sum. */
  lemma {:induction false} SumRemoveAt(xs: seq<real>, i: nat)
    requires i < |xs|
    ensures SumReal(RemoveAt(xs, i)) == SumReal(xs) - xs[i]
  {
    var init, last := xs[..|xs| - 1], xs[|xs| - 1];
    assert SumReal(xs) == SumReal(init) + last;
    if i < |xs| - 1 {
      SumRemoveAt(init, i);
      assert init[i] == xs[i];
      RemoveBeforeLast(xs, i);
      SumAppend(RemoveAt(init, i), last);
    } else {
      assert RemoveAt(xs, i) == init;
    }
  }

  /** Replacing one term changes the sum by the difference. */
  lemma SumUpdate(xs: seq<real>, i: nat, v: real)
    requires i < |xs|
    ensures SumReal(xs[i := v]) == SumReal(xs) - xs[i] + v
  {
    var ys := xs[i := v];
    SumRemoveAt(xs, i);
    SumRemoveAt(ys, i);
    assert RemoveAt(xs, i) == RemoveAt(ys, i);
  }

  /** Inserting a term adds it to the sum. */
  lemma SumInsertAt(ys: seq<real>, k: nat, x: real)
    requires k <= |ys|
    ensures SumReal(ys[..k] + [x] + ys[k..]) == SumReal(ys) + x
  {
    var a, b := ys[..k], ys[k..];
    assert ys == a + b;
    SumConcat(a + [x], b);
    SumConcat(a, [x]);
    SumSingleton(x);
    SumConcat(a, b);
  }

  /** A reorder leaves the sum unchanged. */
  lemma SumMoved(xs: seq<real>, from: nat, to: nat)
    requires from < |xs| && to < |xs|
    ensures SumReal(Moved(xs, from, to)) == SumReal(xs)
  {
    var rest := RemoveAt(xs, from);
    assert Moved(xs, from, to) == rest[..to] + [xs[from]] + rest[to..];
    SumInsertAt(rest, to, xs[from]);
    SumRemoveAt(xs, from);
  }

  lemma SumAppend(xs: seq<real>, x: real)
    ensures SumReal(xs + [x]) == SumReal(xs) + x
  {
    assert (xs + [x])[..|xs|] == xs;
  }
}
