/** Sequences used as the linked lists of the server: membership, removal and
    the successor of an element, under the invariant that no element occurs twice. */
module Lists {

  datatype Option<+T> = None | Some(value: T)

  ghost predicate Distinct<T>(xs: seq<T>) {
    forall i, j :: 0 <= i < j < |xs| ==> xs[i] != xs[j]
  }

  /** The list with `x` unlinked. */
  function Without<T(==)>(xs: seq<T>, x: T): (ys: seq<T>)
    ensures forall y :: y in ys ==> y in xs
    ensures x !in xs ==> ys == xs
    ensures x in xs ==> |ys| == |xs| - 1
    ensures forall y :: y in xs && y != x ==> y in ys
    ensures Distinct(xs) ==> Distinct(ys) && x !in ys
  {
    if xs == [] then []
    else if xs[0] == x then xs[1..]
    else
      var rest := Without(xs[1..], x);
      assert Distinct(xs) ==> Distinct(xs[1..]) && xs[0] !in rest;
      [xs[0]] + rest
  }

  /** First element, as LIST_FIRST returns it. */
  function First<T>(xs: seq<T>): Option<T> {
    if xs == [] then None else Some(xs[0])
  }

  /** Element that follows the first occurrence of `x`, as LIST_NEXT returns it. */
  function After<T(==)>(xs: seq<T>, x: T): Option<T> {
    if xs == [] then None
    else if xs[0] == x then First(xs[1..])
    else After(xs[1..], x)
  }

  /** In a list without repetitions, unlinking position `k` cuts exactly that position. */
  lemma {:induction false} WithoutAt<T>(xs: seq<T>, k: nat)
    requires Distinct(xs) && k < |xs|
    ensures Without(xs, xs[k]) == xs[..k] + xs[k + 1..]
  {
    if k == 0 {
    } else {
      assert xs[0] != xs[k];
      WithoutAt(xs[1..], k - 1);
      assert xs[1..][..k - 1] == xs[1..k] && xs[1..][k..] == xs[k + 1..];
      assert [xs[0]] + xs[1..k] == xs[..k];
    }
  }

  /** Unlinking the head of a list leaves what the saved successor points at. */
  lemma HeadGone<T>(xs: seq<T>)
    requires xs != []
    ensures Without(xs, xs[0]) == xs[1..] && After(xs, xs[0]) == First(xs[1..])
  {
  }

  lemma {:induction false} AfterAt<T>(xs: seq<T>, k: nat)
    requires Distinct(xs) && k < |xs|
    ensures After(xs, xs[k]) == First(xs[k + 1..])
  {
    if k == 0 {
    } else {
      assert xs[0] != xs[k];
      AfterAt(xs[1..], k - 1);
      assert xs[1..][k..] == xs[k + 1..];
    }
  }

  /** The list with `x` linked right after the first occurrence of `p`. */
  function InsertAfter<T(==)>(xs: seq<T>, p: T, x: T): (ys: seq<T>)
    requires p in xs
  {
    if xs[0] == p then [p, x] + xs[1..] else [xs[0]] + InsertAfter(xs[1..], p, x)
  }

  lemma {:induction false} InsertAfterAt<T>(xs: seq<T>, k: nat, x: T)
    requires Distinct(xs) && k < |xs|
    ensures InsertAfter(xs, xs[k], x) == xs[..k + 1] + [x] + xs[k + 1..]
  {
    if k == 0 {
      assert xs == [xs[0]] + xs[1..];
    } else {
      assert xs[0] != xs[k] && xs[1..][k - 1] == xs[k];
      InsertAfterAt(xs[1..], k - 1, x);
      assert [xs[0]] + xs[1..][..k] == xs[..k + 1];
    }
  }

  /** Elements of a list as a set. */
  ghost function Elements<T>(xs: seq<T>): set<T> {
    set x | x in xs
  }

  /** Cardinality under a name of its own, so that proofs can step it without unfolding it. */
  ghost function Size<T>(s: set<T>): nat {
    |s|
  }

  lemma SizeSteps<T>(s: set<T>, x: T)
    ensures x !in s ==> Size(s + {x}) == Size(s) + 1
    ensures x in s ==> Size(s - {x}) == Size(s) - 1
  {
  }

  lemma SizeEmpty<T>(s: set<T>)
    ensures s == {} ==> Size(s) == 0
  {
  }
}
