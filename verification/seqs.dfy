/**
 * Sequence helpers shared by the fixups: duplicate-free lists and the
 * "append if not yet in" idiom that the genre cleanup and the collection
 * preservation both use on Python lists.
 */
module Seqs {

  /** No element occurs twice. */
  predicate NoDup<T(==,!new)>(s: seq<T>) {
    forall i, j :: 0 <= i < j < |s| ==> s[i] != s[j]
  }

  /**
   * The list `acc` after appending, in order, every element of `xs` that is
   * not already in the list at the time it is met (Python:
   * `for x in xs: if x not in acc: acc.append(x)`).
   * Defined on the last element of `xs`, so that a loop over `xs` keeps
   * `acc == AppendNew(acc0, xs[..i])`.
   */
  function AppendNew<T(==,!new)>(acc: seq<T>, xs: seq<T>): (r: seq<T>)
    ensures |acc| <= |r| && r[..|acc|] == acc
    ensures forall i :: |acc| <= i < |r| ==> r[i] !in acc
    ensures NoDup(acc) ==> NoDup(r)
    decreases |xs|
  {
    if xs == [] then acc
    else
      var r0 := AppendNew(acc, xs[..|xs| - 1]);
      var x := xs[|xs| - 1];
      assert xs == xs[..|xs| - 1] + [x];
      if x in r0 then r0 else r0 + [x]
  }

  /** One step of AppendNew: what a loop body does with the next element. */
  lemma AppendNewStep<T(!new)>(acc: seq<T>, xs: seq<T>, i: nat)
    requires i < |xs|
    ensures AppendNew(acc, xs[..i + 1])
         == (var r := AppendNew(acc, xs[..i]);
             if xs[i] in r then r else r + [xs[i]])
  {
    assert xs[..i + 1][..i] == xs[..i];
  }

  /** The elements of the result are those of `acc` and those of `xs`. */
  lemma {:induction false} AppendNewMembers<T(!new)>(acc: seq<T>, xs: seq<T>)
    ensures forall x :: x in AppendNew(acc, xs) <==> x in acc || x in xs
    decreases |xs|
  {
    if xs != [] {
      AppendNewMembers(acc, xs[..|xs| - 1]);
      assert xs == xs[..|xs| - 1] + [xs[|xs| - 1]];
    }
  }

  /**
   * When no element of `xs` is in `acc` and `xs` has no duplicates, every
   * element is appended: the result is `acc + xs`.
   */
  lemma {:induction false} AppendNewFresh<T(!new)>(acc: seq<T>, xs: seq<T>)
    requires NoDup(xs)
    requires forall x :: x in xs ==> x !in acc
    ensures AppendNew(acc, xs) == acc + xs
    decreases |xs|
  {
    if xs != [] {
      var init := xs[..|xs| - 1];
      assert NoDup(init);
      AppendNewFresh(acc, init);
      assert xs[|xs| - 1] !in init;
      assert xs == init + [xs[|xs| - 1]];
    }
  }

  /** Appending only elements already present changes nothing. */
  lemma {:induction false} AppendNewPresent<T(!new)>(acc: seq<T>, xs: seq<T>)
    requires forall x :: x in xs ==> x in acc
    ensures AppendNew(acc, xs) == acc
    decreases |xs|
  {
    if xs != [] {
      AppendNewPresent(acc, xs[..|xs| - 1]);
    }
  }

  /** The index of the first occurrence of `x` in `xs`. */
  function IndexOf<T(==)>(xs: seq<T>, x: T): (k: nat)
    requires x in xs
    ensures k < |xs| && xs[k] == x
    ensures forall i :: 0 <= i < k ==> xs[i] != x
  {
    if xs[0] == x then 0 else 1 + IndexOf(xs[1..], x)
  }

  /** Appending to `xs` leaves the first occurrence of an element of `xs` where it was. */
  lemma IndexOfSnoc<T>(xs: seq<T>, y: T, x: T)
    requires x in xs
    ensures IndexOf(xs + [y], x) == IndexOf(xs, x)
  {
    var k, k' := IndexOf(xs + [y], x), IndexOf(xs, x);
    assert (xs + [y])[k'] == x;
    assert xs[..] == (xs + [y])[..|xs|];
  }

  /**
   * The elements AppendNew appends are the elements of `xs` not in `acc`,
   * each once, in the order of their first occurrence in `xs`.
   */
  lemma {:induction false} AppendNewOrder<T(!new)>(acc: seq<T>, xs: seq<T>)
    ensures var r := AppendNew(acc, xs);
      && (forall i :: |acc| <= i < |r| ==> r[i] in xs && r[i] !in acc)
      && (forall x :: x in xs && x !in acc ==> x in r[|acc|..])
      && (forall i, j :: |acc| <= i < j < |r| ==> IndexOf(xs, r[i]) < IndexOf(xs, r[j]))
    decreases |xs|
  {
    var r := AppendNew(acc, xs);
    if xs != [] {
      var init, x := xs[..|xs| - 1], xs[|xs| - 1];
      assert xs == init + [x];
      AppendNewOrder(acc, init);
      AppendNewMembers(acc, xs);
      var r0 := AppendNew(acc, init);
      forall i | |acc| <= i < |r0|
        ensures IndexOf(xs, r0[i]) == IndexOf(init, r0[i])
      {
        IndexOfSnoc(init, x, r0[i]);
      }
      if x !in r0 {
        assert x !in init;
        assert IndexOf(xs, x) == |init|;
      }
      forall y | y in xs && y !in acc
        ensures y in r[|acc|..]
      {
        var k :| 0 <= k < |r| && r[k] == y;
        assert r[|acc|..][k - |acc|] == y;
      }
    }
  }
}
