/** Sequences of keys in which equal keys stand next to each other. */
module Runs {
  import opened Lists

  ghost predicate Contiguous<K>(ks: seq<K>) {
    forall i, j, k :: 0 <= i < j < k < |ks| && ks[i] == ks[k] ==> ks[i] == ks[j]
  }

  /** A further occurrence next to an old one keeps the runs whole. */
  lemma InsertBeside<K>(ks: seq<K>, at: nat)
    requires Contiguous(ks) && at < |ks|
    ensures Contiguous(ks[..at + 1] + [ks[at]] + ks[at + 1..])
  {
    var ls := ks[..at + 1] + [ks[at]] + ks[at + 1..];
    forall i, j, k | 0 <= i < j < k < |ls| && ls[i] == ls[k] ensures ls[i] == ls[j] {
      var i', j', k' := Back(i, at), Back(j, at), Back(k, at);
      assert ls[i] == ks[i'] && ls[j] == ks[j'] && ls[k] == ks[k'];
    }
  }

  /** Where the element at a position stood before the insertion. */
  function Back(i: int, at: int): int {
    if i <= at then i else i - 1
  }

  lemma InsertNew<K>(ks: seq<K>, x: K)
    requires Contiguous(ks) && x !in ks
    ensures Contiguous([x] + ks)
  {
  }

  lemma CutOne<K>(ks: seq<K>, at: nat)
    requires Contiguous(ks) && at < |ks|
    ensures Contiguous(ks[..at] + ks[at + 1..])
  {
  }

  /** A key that gave way to another one does not come back. */
  lemma NotAgain<K>(ks: seq<K>, at: nat)
    requires Contiguous(ks) && 0 < at < |ks| && ks[at] != ks[at - 1]
    ensures ks[at - 1] !in ks[at..]
  {
    forall k | 0 <= k < |ks[at..]| ensures ks[at..][k] != ks[at - 1] {
      assert ks[at..][k] == ks[at + k];
    }
  }

  lemma TailContiguous<K>(ks: seq<K>)
    requires Contiguous(ks) && ks != []
    ensures Contiguous(ks[1..])
  {
    forall i, j, k | 0 <= i < j < k < |ks[1..]| && ks[1..][i] == ks[1..][k] ensures ks[1..][i] == ks[1..][j] {
      assert ks[i + 1] == ks[k + 1] ==> ks[i + 1] == ks[j + 1];
    }
  }

  /** The keys at which a run ends: each run gives its key once. */
  function Ends<K(==)>(ks: seq<K>): seq<K> {
    if ks == [] then []
    else if |ks| == 1 || ks[1] != ks[0] then [ks[0]] + Ends(ks[1..])
    else Ends(ks[1..])
  }

  lemma {:induction false} EndsAreKeys<K>(ks: seq<K>)
    ensures forall x <- Ends(ks) :: x in ks
    ensures forall x <- ks :: x in Ends(ks)
  {
    if ks != [] {
      EndsAreKeys(ks[1..]);
      assert ks == [ks[0]] + ks[1..];
      if |ks| > 1 && ks[1] == ks[0] { assert ks[1..][0] == ks[0]; }
    }
  }

  /** When equal keys stand together, every key ends exactly one run. */
  lemma {:induction false} EndsAreDistinct<K>(ks: seq<K>)
    requires Contiguous(ks)
    ensures Distinct(Ends(ks))
  {
    if ks != [] {
      hide Contiguous;
      TailContiguous(ks);
      EndsAreDistinct(ks[1..]);
      if |ks| == 1 || ks[1] != ks[0] {
        EndsAreKeys(ks[1..]);
        if |ks| > 1 { NotAgain(ks, 1); }
      }
    }
  }

  lemma EndsOfNone<K>(ks: seq<K>)
    ensures ks[0..] == ks && Ends<K>([]) == []
  {
  }

  lemma EndsStep<K>(ks: seq<K>, k: nat)
    requires k < |ks|
    ensures Ends(ks[k..]) == (if k + 1 == |ks| || ks[k + 1] != ks[k] then [ks[k]] else []) + Ends(ks[k + 1..])
  {
    assert ks[k..][1..] == ks[k + 1..];
  }

  /** Each key where its run starts: the reading of a list that skips repetitions of the key
      that was taken last. */
  function Starts<K(==)>(ks: seq<K>, last: Option<K>): seq<K> {
    if ks == [] then []
    else if last == Some(ks[0]) then Starts(ks[1..], last)
    else [ks[0]] + Starts(ks[1..], Some(ks[0]))
  }

  lemma StartsStep<K>(ks: seq<K>, i: nat, last: Option<K>)
    requires i < |ks|
    ensures Starts(ks[i..], last) ==
      if last == Some(ks[i]) then Starts(ks[i + 1..], last) else [ks[i]] + Starts(ks[i + 1..], Some(ks[i]))
  {
    assert ks[i..][1..] == ks[i + 1..];
  }

  lemma StartsOfNone<K>(ks: seq<K>, last: Option<K>)
    ensures Starts(ks[|ks|..], last) == [] && ks[0..] == ks
  {
  }

  lemma {:induction false} StartsAreKeys<K>(ks: seq<K>, last: Option<K>)
    ensures forall x <- Starts(ks, last) :: x in ks
    ensures forall x <- ks :: x in Starts(ks, last) || last == Some(x)
  {
    if ks != [] {
      StartsAreKeys(ks[1..], if last == Some(ks[0]) then last else Some(ks[0]));
      assert ks == [ks[0]] + ks[1..];
    }
  }

  lemma {:induction false} StartsAreDistinct<K>(ks: seq<K>, last: Option<K>)
    requires Contiguous(if last.Some? then [last.value] + ks else ks)
    ensures Distinct(Starts(ks, last))
    ensures last.Some? ==> last.value !in Starts(ks, last)
    decreases |ks|
  {
    hide Contiguous;
    if ks != [] {
      var all := if last.Some? then [last.value] + ks else ks;
      assert last.Some? ==> all[1..] == ks;
      if last == Some(ks[0]) {
        TailContiguous(all);
        assert [last.value] + ks[1..] == ks;
        StartsAreDistinct(ks[1..], last);
      } else {
        if last.Some? {
          TailContiguous(all);
          NotAgain(all, 1);
        }
        assert [ks[0]] + ks[1..] == ks;
        StartsAreDistinct(ks[1..], Some(ks[0]));
        StartsAreKeys(ks[1..], Some(ks[0]));
        assert forall x <- ks[1..] :: x in ks;
      }
    }
  }
}
