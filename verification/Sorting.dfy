/** Rust's stable `sort_by`, as insertion sort by a total preorder. */
module Sorting {

  ghost predicate TotalPreorder<T(!new)>(leq: (T, T) -> bool) {
    && (forall a, b :: leq(a, b) || leq(b, a))
    && (forall a, b, c :: leq(a, b) && leq(b, c) ==> leq(a, c))
  }

  ghost predicate SortedBy<T>(s: seq<T>, leq: (T, T) -> bool) {
    forall i, j :: 0 <= i < j < |s| ==> leq(s[i], s[j])
  }

  /** `x` goes after every element that is not greater. */
  function Insert<T>(s: seq<T>, x: T, leq: (T, T) -> bool): (r: seq<T>)
    ensures |r| == |s| + 1
  {
    if s == [] then [x]
    else if leq(s[0], x) then [s[0]] + Insert(s[1..], x, leq)
    else [x] + s
  }

  function Sort<T>(s: seq<T>, leq: (T, T) -> bool): (r: seq<T>)
    ensures |r| == |s|
  {
    if s == [] then [] else Insert(Sort(s[..|s| - 1], leq), s[|s| - 1], leq)
  }

  lemma {:induction false} InsertPermutes<T>(s: seq<T>, x: T, leq: (T, T) -> bool)
    ensures multiset(Insert(s, x, leq)) == multiset(s) + multiset{x}
  {
    if s != [] {
      assert s == [s[0]] + s[1..];
      if leq(s[0], x) { InsertPermutes(s[1..], x, leq); }
    }
  }

  lemma {:induction false} SortPermutes<T>(s: seq<T>, leq: (T, T) -> bool)
    ensures multiset(Sort(s, leq)) == multiset(s)
  {
    if s != [] {
      var n := |s| - 1;
      assert s == s[..n] + [s[n]];
      SortPermutes(s[..n], leq);
      InsertPermutes(Sort(s[..n], leq), s[n], leq);
    }
  }

  lemma SameMembers<T>(a: seq<T>, b: seq<T>)
    requires multiset(a) == multiset(b)
    ensures forall x :: x in a <==> x in b
  {
    forall x ensures x in a <==> x in b {
      assert x in multiset(a) <==> x in multiset(b);
    }
  }

  lemma PrependSorted<T(!new)>(y: T, rest: seq<T>, leq: (T, T) -> bool)
    requires SortedBy(rest, leq) && forall r :: r in rest ==> leq(y, r)
    ensures SortedBy([y] + rest, leq)
  {}

  lemma {:induction false} InsertSorted<T(!new)>(s: seq<T>, x: T, leq: (T, T) -> bool)
    requires TotalPreorder(leq) && SortedBy(s, leq)
    ensures SortedBy(Insert(s, x, leq), leq)
  {
    if s != [] {
      if leq(s[0], x) {
        var rest := Insert(s[1..], x, leq);
        InsertSorted(s[1..], x, leq);
        InsertPermutes(s[1..], x, leq);
        SameMembers(rest, s[1..] + [x]);
        PrependSorted(s[0], rest, leq);
      } else {
        assert leq(x, s[0]);
        PrependSorted(x, s, leq);
      }
    }
  }

  lemma {:induction false} SortSorts<T(!new)>(s: seq<T>, leq: (T, T) -> bool)
    requires TotalPreorder(leq)
    ensures SortedBy(Sort(s, leq), leq)
  {
    if s != [] {
      SortSorts(s[..|s| - 1], leq);
      InsertSorted(Sort(s[..|s| - 1], leq), s[|s| - 1], leq);
    }
  }

  lemma SortAppend<T>(s: seq<T>, x: T, leq: (T, T) -> bool)
    ensures Sort(s + [x], leq) == Insert(Sort(s, leq), x, leq)
  {
    assert (s + [x])[..|s|] == s;
  }

  /** Stability at the head: a later element only overtakes a greater one. */
  lemma InsertHead<T>(s: seq<T>, x: T, leq: (T, T) -> bool)
    ensures Insert(s, x, leq)[0] == if s != [] && leq(s[0], x) then s[0] else x
  {}

  // ----- sequences without repetitions -----

  ghost predicate NoRepeats<T(!new)>(s: seq<T>) {
    forall i, j :: 0 <= i < j < |s| ==> s[i] != s[j]
  }

  lemma LastIsNew<T(!new)>(s: seq<T>)
    requires NoRepeats(s) && s != []
    ensures s[|s| - 1] !in s[..|s| - 1] && NoRepeats(s[..|s| - 1])
  {
    var front := s[..|s| - 1];
    assert forall j :: 0 <= j < |front| ==> front[j] == s[j] != s[|front|];
  }

  lemma RepeatsAreCounted<T(!new)>(s: seq<T>, i: nat)
    requires i < |s| && multiset(s)[s[i]] <= 1
    ensures s[i] !in s[..i] && s[i] !in s[i + 1..]
  {
    assert s == s[..i] + ([s[i]] + s[i + 1..]);
    assert multiset(s) == multiset(s[..i]) + (multiset{s[i]} + multiset(s[i + 1..]));
  }

  lemma {:induction false} NoRepeatsCount<T(!new)>(s: seq<T>, x: T)
    requires NoRepeats(s)
    ensures multiset(s)[x] <= 1
  {
    if s != [] {
      var n := |s| - 1;
      NoRepeatsCount(s[..n], x);
      assert s == s[..n] + [s[n]];
      LastIsNew(s);
    }
  }

  lemma SortKeepsNoRepeats<T(!new)>(s: seq<T>, leq: (T, T) -> bool)
    requires NoRepeats(s)
    ensures NoRepeats(Sort(s, leq))
  {
    SortPermutes(s, leq);
    forall x ensures multiset(Sort(s, leq))[x] <= 1 { NoRepeatsCount(s, x); }
    CountedOnce(Sort(s, leq));
  }

  lemma CountedOnce<T(!new)>(s: seq<T>)
    requires forall x :: multiset(s)[x] <= 1
    ensures NoRepeats(s)
  {
    forall i, j | 0 <= i < j < |s| ensures s[i] != s[j] {
      RepeatsAreCounted(s, i);
      assert s[i + 1..][j - i - 1] == s[j];
    }
  }

  lemma NoRepeatsPush<T(!new)>(s: seq<T>, x: T)
    requires NoRepeats(s) && x !in s
    ensures NoRepeats(s + [x])
  {}

  lemma NoRepeatsConcat<T(!new)>(a: seq<T>, b: seq<T>)
    requires NoRepeats(a) && NoRepeats(b) && forall x :: x in a ==> x !in b
    ensures NoRepeats(a + b)
  {
    var all := a + b;
    forall i, j | 0 <= i < j < |all| ensures all[i] != all[j] {
      if i < |a| <= j { assert all[i] in a && all[j] in b; }
    }
  }
}
