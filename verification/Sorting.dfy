/** A stable sort, standing in for JavaScript's `Array.prototype.sort`, and why the
 * choice of algorithm does not matter. */
module Sorting {
  import opened Seqs

  /** A consistent comparison: what `sort` asks of `(a, b) => compare(a, b) < 0`. */
  ghost predicate StrictWeak<T(!new)>(lt: (T, T) -> bool) {
    && (forall x :: !lt(x, x))
    && (forall x, y, z :: lt(x, y) && lt(y, z) ==> lt(x, z))
    && (forall x, y, z :: lt(x, z) ==> lt(x, y) || lt(y, z))
  }

  ghost predicate Sorted<T>(s: seq<T>, lt: (T, T) -> bool) {
    forall i, j | 0 <= i < j < |s| :: !lt(s[j], s[i])
  }

  /** Puts `x` in front of the first element it comes before. */
  function Insert<T>(x: T, s: seq<T>, lt: (T, T) -> bool): seq<T> {
    if s == [] || lt(x, s[0]) then [x] + s else [s[0]] + Insert(x, s[1..], lt)
  }

  function Sort<T>(s: seq<T>, lt: (T, T) -> bool): seq<T> {
    if s == [] then [] else Insert(s[|s| - 1], Sort(s[..|s| - 1], lt), lt)
  }

  lemma {:induction false} InsertPermutes<T>(x: T, s: seq<T>, lt: (T, T) -> bool)
    ensures multiset(Insert(x, s, lt)) == multiset(s) + multiset{x}
  {
    if s != [] && !lt(x, s[0]) {
      InsertPermutes(x, s[1..], lt);
      assert s == [s[0]] + s[1..];
    }
  }

  lemma {:induction false} SortPermutes<T>(s: seq<T>, lt: (T, T) -> bool)
    ensures multiset(Sort(s, lt)) == multiset(s)
  {
    if s != [] {
      var init, last := s[..|s| - 1], s[|s| - 1];
      SortPermutes(init, lt);
      InsertPermutes(last, Sort(init, lt), lt);
      assert s == init + [last];
    }
  }

  lemma {:induction false} InsertSorts<T(!new)>(x: T, s: seq<T>, lt: (T, T) -> bool)
    requires StrictWeak(lt) && Sorted(s, lt)
    ensures Sorted(Insert(x, s, lt), lt)
  {
    var r := Insert(x, s, lt);
    if s != [] && !lt(x, s[0]) {
      var rest := Insert(x, s[1..], lt);
      InsertSorts(x, s[1..], lt);
      InsertPermutes(x, s[1..], lt);
      forall j | 0 < j < |r| ensures !lt(r[j], s[0]) {
        assert r[j] == rest[j - 1] && r[j] in multiset(rest);
        assert r[j] == x || r[j] in s[1..];
      }
    }
  }

  lemma {:induction false} SortSorts<T(!new)>(s: seq<T>, lt: (T, T) -> bool)
    requires StrictWeak(lt)
    ensures Sorted(Sort(s, lt), lt)
  {
    if s != [] {
      SortSorts(s[..|s| - 1], lt);
      InsertSorts(s[|s| - 1], Sort(s[..|s| - 1], lt), lt);
    }
  }

  /** No two elements that satisfy `p` are told apart by the comparison. */
  ghost predicate Ties<T(!new)>(p: T -> bool, lt: (T, T) -> bool) {
    forall x, y | p(x) && p(y) :: !lt(x, y)
  }

  /** What `x` comes before holds nothing that ties with `x`. */
  lemma NoTieBehind<T(!new)>(x: T, s: seq<T>, lt: (T, T) -> bool, p: T -> bool)
    requires StrictWeak(lt) && Sorted(s, lt) && Ties(p, lt) && p(x)
    requires s != [] && lt(x, s[0])
    ensures forall y | y in s :: !p(y)
  {
    forall y | y in s ensures !p(y) {
      var i :| 0 <= i < |s| && s[i] == y;
      assert i > 0 ==> !lt(s[i], s[0]);
      assert !lt(y, s[0]);
      assert lt(x, y);
    }
  }

  lemma {:induction false} InsertIsStable<T(!new)>(x: T, s: seq<T>, lt: (T, T) -> bool, p: T -> bool)
    requires StrictWeak(lt) && Sorted(s, lt) && Ties(p, lt)
    ensures Filter(Insert(x, s, lt), p) == Filter(s, p) + if p(x) then [x] else []
  {
    if s == [] {
      assert Insert(x, s, lt) == [x] && [x][1..] == [];
    } else if lt(x, s[0]) {
      FilterAppend([x], s, p);
      assert [x][1..] == [];
      if p(x) {
        NoTieBehind(x, s, lt, p);
        FilterNone(s, p);
      }
    } else {
      InsertIsStable(x, s[1..], lt, p);
      assert Insert(x, s, lt)[1..] == Insert(x, s[1..], lt);
    }
  }

  /** Elements that tie keep the order they came in. */
  lemma {:induction false} SortIsStable<T(!new)>(s: seq<T>, lt: (T, T) -> bool, p: T -> bool)
    requires StrictWeak(lt) && Ties(p, lt)
    ensures Filter(Sort(s, lt), p) == Filter(s, p)
  {
    if s != [] {
      var init, last := s[..|s| - 1], s[|s| - 1];
      SortSorts(init, lt);
      SortIsStable(init, lt, p);
      InsertIsStable(last, Sort(init, lt), lt, p);
      assert s == init + [last];
      FilterAppend(init, [last], p);
      assert [last][1..] == [];
    }
  }

  lemma HeadsAgree<T>(a: seq<T>, b: seq<T>, lt: (T, T) -> bool)
    requires Sorted(a, lt) && Sorted(b, lt) && multiset(a) == multiset(b) && a != [] && b != []
    requires forall x, y | x in a && y in a && x != y :: lt(x, y) || lt(y, x)
    ensures a[0] == b[0]
  {
    assert a[0] in multiset(a) && b[0] in multiset(b);
    assert a[0] in b && b[0] in a;
    var i :| 0 <= i < |b| && b[i] == a[0];
    var j :| 0 <= j < |a| && a[j] == b[0];
    assert i > 0 ==> !lt(b[i], b[0]);
    assert j > 0 ==> !lt(a[j], a[0]);
  }

  lemma TailMultiset<T>(s: seq<T>)
    requires s != []
    ensures multiset(s[1..]) == multiset(s) - multiset{s[0]}
  {
    assert s == [s[0]] + s[1..];
  }

  /** When the comparison tells any two elements apart, there is only one sorted
   * permutation, so every sorting algorithm returns it. */
  lemma {:induction false} SortedPermutationIsUnique<T>(a: seq<T>, b: seq<T>, lt: (T, T) -> bool)
    requires Sorted(a, lt) && Sorted(b, lt) && multiset(a) == multiset(b)
    requires forall x, y | x in a && y in a && x != y :: lt(x, y) || lt(y, x)
    ensures a == b
  {
    assert |a| == |multiset(a)| == |multiset(b)| == |b|;
    if a != [] {
      HeadsAgree(a, b, lt);
      TailMultiset(a);
      TailMultiset(b);
      SortedPermutationIsUnique(a[1..], b[1..], lt);
    }
  }
}
