/** Index bookkeeping between an input list and the successes drawn from it:
    how many positions before a given one succeeded, and what survives when
    the failed positions are dropped. */
module Positions {
  import opened BulkTypes

  /** Number of successful (empty) entries in an error list. */
  function CountKept(errs: seq<ErrorDetail>): (n: nat)
    ensures n <= |errs|
  {
    if |errs| == 0 then 0
    else CountKept(errs[..|errs| - 1]) + (if errs[|errs| - 1] == map[] then 1 else 0)
  }

  /** How many successes come before position j. */
  function Rank(errs: seq<ErrorDetail>, j: nat): nat
    requires j <= |errs|
  {
    CountKept(errs[..j])
  }

  lemma {:induction false} RankStep(errs: seq<ErrorDetail>, j: nat)
    requires j < |errs|
    ensures Rank(errs, j + 1) == Rank(errs, j) + (if errs[j] == map[] then 1 else 0)
  {
    assert errs[..j + 1][..j] == errs[..j];
  }

  lemma {:induction false} RankWhole(errs: seq<ErrorDetail>)
    ensures Rank(errs, |errs|) == CountKept(errs)
  {
    assert errs[..|errs|] == errs;
  }

  lemma {:induction false} RankMonotone(errs: seq<ErrorDetail>, i: nat, j: nat)
    requires i <= j <= |errs|
    ensures Rank(errs, i) <= Rank(errs, j)
    decreases j - i
  {
    if i < j {
      RankStep(errs, i);
      RankMonotone(errs, i + 1, j);
    }
  }

  /** Two successful positions never share a rank: later successes rank higher. */
  lemma {:induction false} SuccessRanksIncrease(errs: seq<ErrorDetail>, i: nat, j: nat)
    requires i < j < |errs| && errs[i] == map[]
    ensures Rank(errs, i) < Rank(errs, j)
  {
    RankStep(errs, i);
    RankMonotone(errs, i + 1, j);
  }

  /** Every rank below the number of successes belongs to some successful position. */
  lemma {:induction false} EveryRankTaken(errs: seq<ErrorDetail>, k: nat)
    requires k < CountKept(errs)
    ensures exists j :: 0 <= j < |errs| && errs[j] == map[] && Rank(errs, j) == k
  {
    var n := |errs| - 1;
    assert errs[..n + 1] == errs;
    RankStep(errs, n);
    RankWhole(errs);
    if errs[n] == map[] && Rank(errs, n) == k {
    } else {
      var prefix := errs[..n];
      assert CountKept(prefix) == Rank(errs, n);
      EveryRankTaken(prefix, k);
      var j :| 0 <= j < |prefix| && prefix[j] == map[] && Rank(prefix, j) == k;
      assert prefix[..j] == errs[..j];
    }
  }

  /** Whether `_errors`, read as Python's `enumerate` sees it, marks position i.
      A per-item list marks its non-empty entries; a flat message list marks its
      non-empty messages; a field dict is enumerated over its keys, all of them
      non-empty field names, so it marks its first |detail| positions. */
  predicate ErrorAt(e: Errors, i: nat) {
    match e
    case PerItem(entries) => i < |entries| && entries[i] != map[]
    case Fields(detail) => i < |detail|
    case Messages(msgs) => i < |msgs| && msgs[i].message != ""
  }

  /** How many positions below n are not marked. */
  function KeptBefore(e: Errors, n: nat): (k: nat)
    ensures k <= n
  {
    if n == 0 then 0 else KeptBefore(e, n - 1) + (if ErrorAt(e, n - 1) then 0 else 1)
  }

  /** The elements of xs at the positions e does not mark, in their order. */
  function Drop<T>(xs: seq<T>, e: Errors): seq<T> {
    if |xs| == 0 then []
    else Drop(xs[..|xs| - 1], e) + (if ErrorAt(e, |xs| - 1) then [] else [xs[|xs| - 1]])
  }

  lemma {:induction false} DropLength<T>(xs: seq<T>, e: Errors)
    ensures |Drop(xs, e)| == KeptBefore(e, |xs|)
  {
    if |xs| > 0 {
      DropLength(xs[..|xs| - 1], e);
    }
  }

  /** Position i survives the drop exactly at index KeptBefore(e, i). */
  lemma {:induction false} DropAt<T>(xs: seq<T>, e: Errors, i: nat)
    requires i < |xs| && !ErrorAt(e, i)
    ensures KeptBefore(e, i) < |Drop(xs, e)|
    ensures Drop(xs, e)[KeptBefore(e, i)] == xs[i]
  {
    var n := |xs| - 1;
    var init := xs[..n];
    DropLength(init, e);
    if i < n {
      DropAt(init, e, i);
      assert init[i] == xs[i];
    }
  }

  /** Nothing marked below |xs|: the drop is the identity. */
  lemma {:induction false} DropNothing<T>(xs: seq<T>, e: Errors)
    requires forall i :: 0 <= i < |xs| ==> !ErrorAt(e, i)
    ensures Drop(xs, e) == xs
  {
    if |xs| > 0 {
      var init := xs[..|xs| - 1];
      forall i | 0 <= i < |init| ensures !ErrorAt(e, i) {
        assert !ErrorAt(e, i);
      }
      DropNothing(init, e);
      assert init + [xs[|xs| - 1]] == xs;
    }
  }

  /** On a per-item list, the unmarked positions below n are its successes before n. */
  lemma {:induction false} KeptBeforePerItem(entries: seq<ErrorDetail>, n: nat)
    requires n <= |entries|
    ensures KeptBefore(PerItem(entries), n) == Rank(entries, n)
  {
    if n > 0 {
      KeptBeforePerItem(entries, n - 1);
      RankStep(entries, n - 1);
    }
  }
}
