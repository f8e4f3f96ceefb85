/** Small facts about sequences that the other modules share. */
module Seqs {

  datatype Option<+T> = None | Some(value: T)

  ghost predicate NoDup<T>(s: seq<T>) {
    forall i, j | 0 <= i < j < |s| :: s[i] != s[j]
  }

  /** The elements that satisfy `p`, in order. */
  function Filter<T>(s: seq<T>, p: T -> bool): seq<T> {
    if s == [] then [] else (if p(s[0]) then [s[0]] else []) + Filter(s[1..], p)
  }

  function Not<T>(p: T -> bool): T -> bool {
    x => !p(x)
  }

  function Both<T>(p: T -> bool, q: T -> bool): T -> bool {
    x => p(x) && q(x)
  }

  /** The first element that satisfies `p`. */
  function Find<T>(s: seq<T>, p: T -> bool): Option<T> {
    if s == [] then None else if p(s[0]) then Some(s[0]) else Find(s[1..], p)
  }

  /** Array.prototype.map. */
  function Map<T, U>(s: seq<T>, f: T -> U): (r: seq<U>)
    ensures |r| == |s|
    ensures forall i | 0 <= i < |s| :: r[i] == f(s[i])
  {
    seq(|s|, i requires 0 <= i < |s| => f(s[i]))
  }

  lemma {:induction false} FilterAppend<T>(a: seq<T>, b: seq<T>, p: T -> bool)
    ensures Filter(a + b, p) == Filter(a, p) + Filter(b, p)
  {
    if a == [] {
      assert a + b == b;
    } else {
      var head, more := if p(a[0]) then [a[0]] else [], Filter(a[1..], p);
      assert (a + b)[1..] == a[1..] + b && (a + b)[0] == a[0];
      FilterAppend(a[1..], b, p);
      AppendAssociates(head, more, Filter(b, p));
    }
  }

  lemma {:induction false} FilterIn<T>(s: seq<T>, p: T -> bool, x: T)
    ensures x in Filter(s, p) <==> x in s && p(x)
  {
    if s != [] {
      FilterIn(s[1..], p, x);
    }
  }

  lemma {:induction false} FilterAll<T>(s: seq<T>, p: T -> bool)
    requires forall x | x in s :: p(x)
    ensures Filter(s, p) == s
  {
    if s != [] {
      FilterAll(s[1..], p);
    }
  }

  lemma {:induction false} FilterNone<T>(s: seq<T>, p: T -> bool)
    requires forall x | x in s :: !p(x)
    ensures Filter(s, p) == []
  {
    if s != [] {
      FilterNone(s[1..], p);
    }
  }

  lemma {:induction false} FilterNoDup<T>(s: seq<T>, p: T -> bool)
    requires NoDup(s)
    ensures NoDup(Filter(s, p))
  {
    if s != [] {
      FilterNoDup(s[1..], p);
      FilterIn(s[1..], p, s[0]);
    }
  }

  /** Two predicates that agree on the elements filter alike. */
  lemma {:induction false} FilterSame<T>(s: seq<T>, p: T -> bool, q: T -> bool)
    requires forall x | x in s :: p(x) == q(x)
    ensures Filter(s, p) == Filter(s, q)
  {
    if s != [] {
      FilterSame(s[1..], p, q);
    }
  }

  lemma {:induction false} FilterTwice<T>(s: seq<T>, p: T -> bool, q: T -> bool)
    ensures Filter(Filter(s, p), q) == Filter(s, Both(p, q))
  {
    if s != [] {
      FilterTwice(s[1..], p, q);
      FilterAppend(if p(s[0]) then [s[0]] else [], Filter(s[1..], p), q);
    }
  }

  /** A filter picks exactly the positions that satisfy `p`, in order. */
  lemma {:induction false} FilterPositions<T>(s: seq<T>, p: T -> bool) returns (at: seq<nat>)
    ensures |at| == |Filter(s, p)|
    ensures forall k | 0 <= k < |at| :: at[k] < |s| && s[at[k]] == Filter(s, p)[k]
    ensures forall k, l | 0 <= k < l < |at| :: at[k] < at[l]
    ensures forall i: nat | i < |s| :: i in at <==> p(s[i])
  {
    if s == [] {
      at := [];
    } else {
      var init, last := s[..|s| - 1], s[|s| - 1];
      at := FilterPositions(init, p);
      assert s == init + [last];
      FilterAppend(init, [last], p);
      assert Filter([last], p) == if p(last) then [last] else [];
      if p(last) { at := at + [|s| - 1]; }
    }
  }

  /** A filter and its complement split a sequence, counting repeats. */
  lemma {:induction false} FilterSplits<T>(s: seq<T>, p: T -> bool)
    ensures multiset(Filter(s, p)) + multiset(Filter(s, Not(p))) == multiset(s)
  {
    if s != [] {
      FilterSplits(s[1..], p);
      assert s == [s[0]] + s[1..];
    }
  }

  /** `Find` returns an element; it finds none exactly when there is none. */
  lemma {:induction false} FindSound<T>(s: seq<T>, p: T -> bool)
    ensures Find(s, p).Some? ==> Find(s, p).value in s && p(Find(s, p).value)
    ensures Find(s, p).None? <==> forall x | x in s :: !p(x)
  {
    if s != [] {
      FindSound(s[1..], p);
    }
  }

  /** What is found first stays found when more is put behind it. */
  lemma {:induction false} FindAppend<T>(a: seq<T>, b: seq<T>, p: T -> bool)
    ensures Find(a + b, p) == if Find(a, p).Some? then Find(a, p) else Find(b, p)
  {
    if a == [] {
      assert a + b == b;
    } else {
      assert (a + b)[1..] == a[1..] + b;
      FindAppend(a[1..], b, p);
    }
  }

  /** An element that is the only one to satisfy `p` is the one found. */
  lemma FindUnique<T>(s: seq<T>, p: T -> bool, x: T)
    requires x in s && p(x)
    requires forall y | y in s && p(y) :: y == x
    ensures Find(s, p) == Some(x)
  {
    FindSound(s, p);
  }

  lemma NoDupAppend<T>(a: seq<T>, b: seq<T>)
    requires NoDup(a) && NoDup(b)
    requires forall x | x in a :: x !in b
    ensures NoDup(a + b)
  {
    forall i, j | 0 <= i < j < |a + b|
      ensures (a + b)[i] != (a + b)[j]
    {
      assert i < |a| <= j ==> a[i] in a && b[j - |a|] in b;
    }
  }

  lemma NoDupParts<T>(a: seq<T>, b: seq<T>)
    requires NoDup(a + b)
    ensures NoDup(a) && NoDup(b)
    ensures forall x | x in a :: x !in b
  {
    forall i, j | 0 <= i < j < |a| ensures a[i] != a[j] {
      assert (a + b)[i] == a[i] && (a + b)[j] == a[j];
    }
    forall i, j | 0 <= i < j < |b| ensures b[i] != b[j] {
      assert (a + b)[|a| + i] == b[i] && (a + b)[|a| + j] == b[j];
    }
    forall i, j | 0 <= i < |a| && 0 <= j < |b| ensures a[i] != b[j] {
      assert (a + b)[i] == a[i] && (a + b)[|a| + j] == b[j];
    }
  }

  lemma AppendAssociates<T>(a: seq<T>, b: seq<T>, c: seq<T>)
    ensures a + (b + c) == a + b + c
  {
  }

  lemma {:induction false} FindSame<T>(s: seq<T>, p: T -> bool, q: T -> bool)
    requires forall x | x in s :: p(x) == q(x)
    ensures Find(s, p) == Find(s, q)
  {
    if s != [] { FindSame(s[1..], p, q); }
  }

  /** `Find` returns the first that satisfies `p`. */
  lemma {:induction false} FindFirst<T>(s: seq<T>, p: T -> bool) returns (n: nat)
    requires Find(s, p).Some?
    ensures n < |s| && s[n] == Find(s, p).value && p(s[n]) && forall m | 0 <= m < n :: !p(s[m])
  {
    n := 0;
    if !p(s[0]) {
      var k := FindFirst(s[1..], p);
      n := k + 1;
    }
  }
}
