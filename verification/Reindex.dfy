/** The re-embedding queue: claim a batch, embed row by row, compensate what failed.
    Models `_run_reindex` in gubbi/tools/admin.py with `get_unindexed`, `mark_indexed_batch` and
    `reset_indexed_at_for_ids` in gubbi/storage/repositories/entries.py. */
module Reindex {
  const REINDEX_BATCH_SIZE: nat := 100

  /** `indexed` says whether `indexed_at` is set; `embeddings` counts the vectors saved for the row. */
  datatype Entry = Entry(id: int, deleted: bool, indexed: bool, embeddings: nat)

  predicate Ordered(rows: seq<Entry>) {
    && (forall i :: 0 <= i < |rows| ==> rows[i].id > 0)
    && (forall i, j :: 0 <= i < j < |rows| ==> rows[i].id < rows[j].id)
  }

  /** What the query selects: `deleted_at IS NULL AND indexed_at IS NULL`. */
  predicate Pending(r: Entry) { !r.deleted && !r.indexed }

  /** How many live rows have no stamp. */
  function Unstamped(rows: seq<Entry>): nat {
    if rows == [] then 0 else (if rows[0].deleted || rows[0].indexed then 0 else 1) + Unstamped(rows[1..])
  }

  // ------------------------------------------------------------------
  // The three statements
  // ------------------------------------------------------------------

  /** `AND id > last ORDER BY id LIMIT limit` */
  function GetUnindexed(rows: seq<Entry>, last: int, limit: nat): seq<int> {
    if rows == [] || limit == 0 then []
    else if Pending(rows[0]) && rows[0].id > last then [rows[0].id] + GetUnindexed(rows[1..], last, limit - 1)
    else GetUnindexed(rows[1..], last, limit)
  }

  function MarkIndexed(rows: seq<Entry>, ids: seq<int>): seq<Entry> {
    seq(|rows|, i requires 0 <= i < |rows| => if rows[i].id in ids then rows[i].(indexed := true) else rows[i])
  }

  function ResetIndexed(rows: seq<Entry>, ids: seq<int>): seq<Entry> {
    seq(|rows|, i requires 0 <= i < |rows| =>
      if rows[i].id in ids && !rows[i].deleted then rows[i].(indexed := false) else rows[i])
  }

  function SaveVector(rows: seq<Entry>, id: int): seq<Entry> {
    seq(|rows|, i requires 0 <= i < |rows| => if rows[i].id == id then rows[i].(embeddings := rows[i].embeddings + 1) else rows[i])
  }

  // ------------------------------------------------------------------
  // What a run may do to a row
  // ------------------------------------------------------------------

  /** A row is untouched, or it was live without a stamp and is now stamped with exactly one more embedding. */
  predicate Settled(o: Entry, n: Entry) {
    n == o || (!o.deleted && !o.indexed && n == o.(indexed := true, embeddings := o.embeddings + 1))
  }

  predicate AllSettled(before: seq<Entry>, now: seq<Entry>) {
    |now| == |before| && forall i :: 0 <= i < |before| ==> Settled(before[i], now[i])
  }

  lemma SettledCompose(before: seq<Entry>, mid: seq<Entry>, now: seq<Entry>)
    requires AllSettled(before, mid) && AllSettled(mid, now)
    ensures AllSettled(before, now)
  {
    forall i | 0 <= i < |before| ensures Settled(before[i], now[i]) {
      assert Settled(before[i], mid[i]) && Settled(mid[i], now[i]);
    }
  }

  /** The row `id` leaves the queue with its embedding. */
  function Embedded(rows: seq<Entry>, id: int): seq<Entry> {
    seq(|rows|, i requires 0 <= i < |rows| =>
      if rows[i].id == id then rows[i].(indexed := true, embeddings := rows[i].embeddings + 1) else rows[i])
  }

  predicate InQueue(rows: seq<Entry>, id: int) {
    exists i :: 0 <= i < |rows| && rows[i].id == id && Pending(rows[i])
  }

  lemma {:induction false} EmbeddingLeavesQueue(rows: seq<Entry>, id: int)
    requires Ordered(rows) && InQueue(rows, id)
    ensures Unstamped(Embedded(rows, id)) == Unstamped(rows) - 1
  {
    var rest, done := rows[1..], Embedded(rows, id);
    assert done[1..] == Embedded(rest, id);
    assert Ordered(rest);
    var i :| 0 <= i < |rows| && rows[i].id == id && Pending(rows[i]);
    if i == 0 {
      assert Embedded(rest, id) == rest;
    } else {
      assert rest[i - 1] == rows[i];
      EmbeddingLeavesQueue(rest, id);
    }
  }

  predicate Increasing(ids: seq<int>) {
    forall k, m :: 0 <= k < m < |ids| ==> ids[k] < ids[m]
  }

  lemma {:induction false} ClaimedAreQueued(rows: seq<Entry>, last: int, limit: nat)
    requires Ordered(rows)
    ensures forall id :: id in GetUnindexed(rows, last, limit) ==> InQueue(rows, id) && id > last
    ensures Increasing(GetUnindexed(rows, last, limit))
  {
    if rows != [] && limit > 0 {
      var rest := rows[1..];
      assert Ordered(rest);
      var head := Pending(rows[0]) && rows[0].id > last;
      var tailLimit := if head then limit - 1 else limit;
      ClaimedAreQueued(rest, last, tailLimit);
      var tail := GetUnindexed(rest, last, tailLimit);
      forall id | id in tail ensures InQueue(rows, id) && id > rows[0].id {
        var i :| 0 <= i < |rest| && rest[i].id == id && Pending(rest[i]);
        assert rows[i + 1] == rest[i];
      }
      assert GetUnindexed(rows, last, limit) == (if head then [rows[0].id] else []) + tail;
      if head {
        assert InQueue(rows, rows[0].id);
        forall k | 0 <= k < |tail| ensures rows[0].id < tail[k] {
          assert tail[k] in tail;
        }
      }
    }
  }

  /** No queued row beyond the cursor is passed over by a batch. */
  lemma {:induction false} ClaimsWithoutGaps(rows: seq<Entry>, last: int, limit: nat, i: nat)
    requires Ordered(rows) && limit > 0 && i < |rows| && !rows[i].deleted && !rows[i].indexed && rows[i].id > last
    ensures var ids := GetUnindexed(rows, last, limit); ids != [] && (rows[i].id <= ids[|ids| - 1] ==> rows[i].id in ids)
  {
    var rest := rows[1..];
    assert Ordered(rest);
    if !(Pending(rows[0]) && rows[0].id > last) {
      ClaimsWithoutGaps(rest, last, limit, i - 1);
    } else if i > 0 {
      if limit > 1 {
        ClaimsWithoutGaps(rest, last, limit - 1, i - 1);
      } else {
        assert GetUnindexed(rest, last, 0) == [];
      }
    }
  }

  /** Nothing at or below the cursor is still queued. */
  predicate ClearUpto(rows: seq<Entry>, cursor: int) {
    forall i :: 0 <= i < |rows| && !rows[i].deleted && !rows[i].indexed ==> rows[i].id > cursor
  }

  datatype Status =
    | Rebuilt(semanticOk: bool)   // a normal return
    | ClaimFailed                 // a claimed row could not be decrypted; the claim rolled back
    | ResetFailed                 // the compensating reset failed; the error is re-raised

  class EntryQueue {
    var rows: seq<Entry>

    constructor (rows: seq<Entry>)
      ensures this.rows == rows
    {
      this.rows := rows;
    }

    /** Embed every queued row. `fails(n)` says whether the n-th attempt to embed fails, `corrupt` lists
        the rows whose content does not decrypt, `resetFails(n)` whether the n-th compensating reset fails. */
    method RunReindex(fails: nat -> bool, corrupt: set<int>, resetFails: nat -> bool)
      returns (status: Status, generated: nat, failed: nat)
      requires Ordered(rows)
      modifies this
      ensures status.Rebuilt? ==> AllSettled(old(rows), rows)
      ensures status.Rebuilt? ==> Unstamped(old(rows)) == generated + Unstamped(rows)
      ensures status.Rebuilt? ==> (status.semanticOk <==> failed == 0)
      ensures status.Rebuilt? && status.semanticOk ==> forall i :: 0 <= i < |rows| && !rows[i].deleted ==> rows[i].indexed
      ensures status.ClaimFailed? ==> AllSettled(old(rows), rows)
      ensures status.ResetFailed? ==> |rows| == |old(rows)|
      ensures status.ResetFailed? ==>
        forall i :: 0 <= i < |rows| ==> Settled(old(rows)[i], rows[i]) || rows[i] == old(rows)[i].(indexed := true)
    {
      ghost var before := rows;
      var last, attempts, resets := 0, 0, 0;
      generated, failed := 0, 0;
      while true
        invariant Ordered(rows) && AllSettled(before, rows)
        invariant Unstamped(before) == generated + Unstamped(rows)
        invariant failed == 0 ==> ClearUpto(rows, last)
        decreases Unstamped(rows)
      {
        var batch := GetUnindexed(rows, last, REINDEX_BATCH_SIZE);
        ClaimedAreQueued(rows, last, REINDEX_BATCH_SIZE);
        if exists id :: id in batch && id in corrupt {
          return ClaimFailed, generated, failed;
        }
        if batch == [] {
          if failed == 0 {
            EmptyClaimMeansDone(rows, last);
          }
          break;
        }
        ghost var claimed := rows;
        rows := MarkIndexed(rows, batch);
        var succeeded, failedIds;
        ghost var settled;
        succeeded, failedIds, attempts, settled := EmbedBatch(batch, fails, attempts, claimed);
        generated := generated + |succeeded|;
        failed := failed + |failedIds|;
        SettledCompose(before, claimed, settled);
        if failedIds != [] {
          if resetFails(resets) {
            return ResetFailed, generated, failed;
          }
          rows := ResetIndexed(rows, failedIds);
          resets := resets + 1;
        }
        assert rows == settled by {
          ResetRestores(settled, batch, succeeded, failedIds);
        }
        if succeeded == [] {
          break;
        }
        if failed == 0 {
          BatchClearsCursor(claimed, rows, last, batch);
        }
        last := MaxOf(succeeded);
      }
      status := Rebuilt(failed == 0);
    }

    /** Encode and save outside the claim's transaction, one row at a time. */
    method EmbedBatch(batch: seq<int>, fails: nat -> bool, attempts: nat, ghost claimed: seq<Entry>)
      returns (succeeded: seq<int>, failedIds: seq<int>, attempts': nat, ghost settled: seq<Entry>)
      requires Ordered(claimed) && rows == MarkIndexed(claimed, batch)
      requires forall id :: id in batch ==> InQueue(claimed, id)
      requires Increasing(batch)
      modifies this
      ensures rows == MarkIndexed(settled, batch)
      ensures AllSettled(claimed, settled) && Ordered(settled)
      ensures Unstamped(settled) == Unstamped(claimed) - |succeeded|
      ensures Partition(batch, |batch|, succeeded, failedIds, settled)
    {
      succeeded, failedIds, attempts', settled := [], [], attempts, claimed;
      var k := 0;
      while k < |batch|
        invariant 0 <= k <= |batch|
        invariant rows == MarkIndexed(settled, batch)
        invariant AllSettled(claimed, settled) && Ordered(settled)
        invariant Unstamped(settled) == Unstamped(claimed) - |succeeded|
        invariant Partition(batch, k, succeeded, failedIds, settled)
      {
        var id := batch[k];
        assert id in batch[k..];
        if fails(attempts') {
          FailureStep(batch, k, succeeded, failedIds, settled);
          failedIds := failedIds + [id];
        } else {
          SuccessStep(batch, k, succeeded, failedIds, settled);
          EmbeddingLeavesQueue(settled, id);
          EmbeddedSettles(settled, id);
          SettledCompose(claimed, settled, Embedded(settled, id));
          rows := SaveVector(rows, id);
          succeeded := succeeded + [id];
          settled := Embedded(settled, id);
        }
        attempts' := attempts' + 1;
        k := k + 1;
      }
    }
  }

  /** The first `k` ids of the batch split into those that succeeded and those that failed; failed and
      unvisited ones are still in the queue. */
  ghost predicate Partition(batch: seq<int>, k: nat, succeeded: seq<int>, failedIds: seq<int>, settled: seq<Entry>)
    requires k <= |batch|
  {
    && (forall id :: id in batch[..k] <==> id in succeeded || id in failedIds)
    && |succeeded| + |failedIds| == k
    && (failedIds == [] ==> succeeded == batch[..k])
    && (forall id :: id in failedIds || id in batch[k..] ==> InQueue(settled, id))
    && (forall i :: 0 <= i < |settled| && settled[i].id in succeeded ==> settled[i].indexed)
  }

  lemma FailureStep(batch: seq<int>, k: nat, succeeded: seq<int>, failedIds: seq<int>, settled: seq<Entry>)
    requires k < |batch| && Partition(batch, k, succeeded, failedIds, settled)
    ensures Partition(batch, k + 1, succeeded, failedIds + [batch[k]], settled)
  {
    assert batch[..k + 1] == batch[..k] + [batch[k]];
    assert batch[k..] == [batch[k]] + batch[k + 1..];
  }

  lemma SuccessStep(batch: seq<int>, k: nat, succeeded: seq<int>, failedIds: seq<int>, settled: seq<Entry>)
    requires k < |batch| && Partition(batch, k, succeeded, failedIds, settled)
    requires Increasing(batch)
    ensures Partition(batch, k + 1, succeeded + [batch[k]], failedIds, Embedded(settled, batch[k]))
    ensures SaveVector(MarkIndexed(settled, batch), batch[k]) == MarkIndexed(Embedded(settled, batch[k]), batch)
  {
    assert batch[..k + 1] == batch[..k] + [batch[k]];
    assert batch[k..] == [batch[k]] + batch[k + 1..];
    var next := Embedded(settled, batch[k]);
    forall id | id in failedIds || id in batch[k + 1..] ensures InQueue(next, id) {
      assert InQueue(settled, id);
      var i :| 0 <= i < |settled| && settled[i].id == id && Pending(settled[i]);
      if id in failedIds {
        assert id in batch[..k];
      }
      assert next[i] == settled[i];
    }
  }

  lemma EmbeddedSettles(rows: seq<Entry>, id: int)
    requires Ordered(rows) && InQueue(rows, id)
    ensures AllSettled(rows, Embedded(rows, id)) && Ordered(Embedded(rows, id))
  {
  }

  /** Clearing the stamp of the failed rows leaves exactly the rows that succeeded stamped. */
  lemma ResetRestores(settled: seq<Entry>, batch: seq<int>, succeeded: seq<int>, failedIds: seq<int>)
    requires Ordered(settled) && Partition(batch, |batch|, succeeded, failedIds, settled)
    ensures ResetIndexed(MarkIndexed(settled, batch), failedIds) == settled
    ensures failedIds == [] ==> MarkIndexed(settled, batch) == settled
  {
  }

  /** With no failure so far, an empty claim means the queue is empty. */
  lemma EmptyClaimMeansDone(rows: seq<Entry>, last: int)
    requires Ordered(rows) && ClearUpto(rows, last) && GetUnindexed(rows, last, REINDEX_BATCH_SIZE) == []
    ensures forall i :: 0 <= i < |rows| && !rows[i].deleted ==> rows[i].indexed
  {
    forall i | 0 <= i < |rows| && !rows[i].deleted ensures rows[i].indexed {
      if !rows[i].indexed {
        ClaimsWithoutGaps(rows, last, REINDEX_BATCH_SIZE, i);
      }
    }
  }

  /** A batch that succeeded as a whole leaves nothing queued up to its last row. */
  lemma BatchClearsCursor(claimed: seq<Entry>, settled: seq<Entry>, last: int, batch: seq<int>)
    requires Ordered(claimed) && ClearUpto(claimed, last) && AllSettled(claimed, settled)
    requires batch == GetUnindexed(claimed, last, REINDEX_BATCH_SIZE) && batch != []
    requires Partition(batch, |batch|, batch, [], settled)
    ensures ClearUpto(settled, MaxOf(batch))
  {
    ClaimedAreQueued(claimed, last, REINDEX_BATCH_SIZE);
    MaxOfIncreasing(batch);
    forall i | 0 <= i < |settled| && !settled[i].deleted && !settled[i].indexed ensures settled[i].id > MaxOf(batch) {
      assert Settled(claimed[i], settled[i]);
      ClaimsWithoutGaps(claimed, last, REINDEX_BATCH_SIZE, i);
    }
  }

  lemma {:induction false} MaxOfIncreasing(ids: seq<int>)
    requires ids != [] && Increasing(ids)
    ensures MaxOf(ids) == ids[|ids| - 1]
  {
    if |ids| > 1 {
      MaxOfIncreasing(ids[..|ids| - 1]);
    }
  }

  function MaxOf(ids: seq<int>): int
    requires ids != []
  {
    if |ids| == 1 then ids[0]
    else var m := MaxOf(ids[..|ids| - 1]); if ids[|ids| - 1] > m then ids[|ids| - 1] else m
  }
}
