/** Key rotation across the encrypted column pairs.
    Models `_rotate_table` and `_run` in gubbi/scripts/rotate_encryption_key.py. */
module Rotation {
  import opened Prelude
  import opened Cipher

  const BATCH_SIZE: nat := 1000

  /** One row of one column pair. */
  datatype Row = Row(id: int, ct: Option<Bytes>, nonce: Option<Bytes>)

  /** Rows in primary-key order; identity columns start at 1. */
  predicate Ordered(rows: seq<Row>) {
    && (forall i :: 0 <= i < |rows| ==> rows[i].id > 0)
    && (forall i, j :: 0 <= i < j < |rows| ==> rows[i].id < rows[j].id)
  }

  function Read(c: ContentCipher, r: Row): Field { DecryptContentField(c, r.ct, r.nonce) }

  /** The version byte of a row, where it has one. */
  function Version(r: Row): Option<int> {
    if r.nonce.Some? && r.nonce.value != [] then Some(r.nonce.value[0] as int) else None
  }

  /** Both columns present, and the hexadecimal form of the nonce starts with the source version. */
  predicate Candidate(r: Row, src: int) { r.ct.Some? && r.nonce.Some? && Version(r) == Some(src) }

  // ------------------------------------------------------------------
  // One row
  // ------------------------------------------------------------------

  datatype Attempt = Skip | Abort | Replace(ct: Bytes, nonce: Bytes)

  /** The body of the inner loop. Empty columns count as missing; a failed authentication tag is not caught. */
  function TryRow(c: ContentCipher, tgt: int, r: Row, entropy: Bytes): Attempt
    requires Valid(c) && |entropy| == NONCE_LEN - 1 && r.ct.Some? && r.nonce.Some?
  {
    if r.ct.value == [] || r.nonce.value == [] then Skip
    else if r.nonce.value[0] as int == tgt then Skip
    else
      match Decrypt(c, r.ct.value, r.nonce.value)
      case Err(ValueError) => Skip
      case Err(InvalidTag) => Abort
      case Ok(text) =>
        match EncryptWithVersion(c, text, tgt, entropy)
        case Err(_) => Skip
        case Ok(sealed) => Replace(sealed.ct, sealed.nonce)
  }

  /** Both columns are there and the nonce starts with this version. */
  predicate AtVersion(r: Row, version: int) {
    r.ct.Some? && r.nonce.Some? && r.nonce.value != [] && r.nonce.value[0] as int == version
  }

  /** The rows a rotation is to re-encrypt. */
  predicate Rotatable(c: ContentCipher, src: int, tgt: int, r: Row) {
    && AtVersion(r, src) && r.ct.value != [] && src != tgt && tgt in c.keys
    && Decrypt(c, r.ct.value, r.nonce.value).Ok?
  }

  /** The rows that stop a rotation. */
  predicate Poisoned(c: ContentCipher, src: int, tgt: int, r: Row) {
    && AtVersion(r, src) && r.ct.value != [] && src != tgt
    && Decrypt(c, r.ct.value, r.nonce.value) == Err(InvalidTag)
  }

  /** `n` is what the rotation leaves of `o`: re-encrypted under the target version with the same
      reading, or untouched. */
  predicate Turned(c: ContentCipher, src: int, tgt: int, o: Row, n: Row) {
    if Rotatable(c, src, tgt, o)
    then n.id == o.id && AtVersion(n, tgt) && Read(c, n) == Read(c, o)
    else n == o
  }

  /** The inner loop body does to a fetched row exactly what `Turned` allows. */
  lemma TryRowTurns(c: ContentCipher, src: int, tgt: int, r: Row, entropy: Bytes)
    requires Valid(c) && |entropy| == NONCE_LEN - 1 && Candidate(r, src)
    ensures var a := TryRow(c, tgt, r, entropy);
      && (a.Abort? <==> Poisoned(c, src, tgt, r))
      && (a.Replace? <==> Rotatable(c, src, tgt, r))
      && (a.Skip? ==> Turned(c, src, tgt, r, r))
      && (a.Replace? ==> Turned(c, src, tgt, r, Row(r.id, Some(a.ct), Some(a.nonce))))
  {
    if r.ct.value != [] && src != tgt {
      var d := Decrypt(c, r.ct.value, r.nonce.value);
      if d.Ok? {
        DecryptInvertsEncrypt(c, d.value, tgt, entropy);
        var a := TryRow(c, tgt, r, entropy);
        if a.Replace? {
          assert a.nonce[..1][0] == a.nonce[0];
        }
      }
    }
  }

  // ------------------------------------------------------------------
  // The batch query
  // ------------------------------------------------------------------

  /** `WHERE ... AND id > last ORDER BY id LIMIT limit` */
  function Fetch(rows: seq<Row>, src: int, last: int, limit: nat): (batch: seq<Row>)
  {
    if rows == [] || limit == 0 then []
    else if Candidate(rows[0], src) && rows[0].id > last then [rows[0]] + Fetch(rows[1..], src, last, limit - 1)
    else Fetch(rows[1..], src, last, limit)
  }

  predicate Increasing(batch: seq<Row>) {
    forall i, j :: 0 <= i < j < |batch| ==> batch[i].id < batch[j].id
  }

  lemma {:induction false} FetchedAreCandidates(rows: seq<Row>, src: int, last: int, limit: nat)
    ensures forall r :: r in Fetch(rows, src, last, limit) ==> r in rows && Candidate(r, src) && r.id > last
  {
    if rows != [] && limit > 0 {
      assert rows == [rows[0]] + rows[1..];
      FetchedAreCandidates(rows[1..], src, last, limit);
      FetchedAreCandidates(rows[1..], src, last, limit - 1);
    }
  }

  lemma {:induction false} FetchedInOrder(rows: seq<Row>, src: int, last: int, limit: nat)
    requires Ordered(rows)
    ensures Increasing(Fetch(rows, src, last, limit))
  {
    if rows != [] && limit > 0 {
      FetchedInOrder(rows[1..], src, last, limit);
      FetchedInOrder(rows[1..], src, last, limit - 1);
      var tail := Fetch(rows[1..], src, last, limit - 1);
      FetchedAreCandidates(rows[1..], src, last, limit - 1);
      forall k | 0 <= k < |tail| ensures rows[0].id < tail[k].id {
        assert tail[k] in rows[1..];
      }
    }
  }

  lemma {:induction false} FetchedWithoutGaps(rows: seq<Row>, src: int, last: int, limit: nat, r: Row)
    requires Ordered(rows) && limit > 0 && r in rows && Candidate(r, src) && r.id > last
    ensures var b := Fetch(rows, src, last, limit); b != [] && (r.id <= b[|b| - 1].id ==> r in b)
  {
    assert rows == [rows[0]] + rows[1..];
    if !(Candidate(rows[0], src) && rows[0].id > last) {
      FetchedWithoutGaps(rows[1..], src, last, limit, r);
    } else if r != rows[0] {
      if limit > 1 {
        FetchedWithoutGaps(rows[1..], src, last, limit - 1, r);
      } else {
        assert Fetch(rows[1..], src, last, 0) == [];
        var j :| 0 <= j < |rows[1..]| && rows[1..][j] == r;
        assert rows[0].id < rows[j + 1].id;
      }
    }
  }

  lemma {:induction false} FetchesAtMost(rows: seq<Row>, src: int, last: int, limit: nat)
    ensures |Fetch(rows, src, last, limit)| <= limit
    decreases |rows|
  {
    if rows != [] && limit > 0 {
      FetchesAtMost(rows[1..], src, last, limit);
      FetchesAtMost(rows[1..], src, last, limit - 1);
    }
  }

  /** A batch holds, in order, every row at the source version from the cursor up to its own last row. */
  lemma FetchIsNextCandidates(rows: seq<Row>, src: int, last: int, limit: nat)
    requires Ordered(rows) && limit > 0
    ensures var b := Fetch(rows, src, last, limit);
      && Increasing(b) && |b| <= limit
      && (forall k :: 0 <= k < |b| ==> b[k] in rows && AtVersion(b[k], src) && b[k].id > last)
      && (forall r :: r in rows && AtVersion(r, src) && r.id > last && (b == [] || r.id <= b[|b| - 1].id) ==> r in b)
  {
    FetchedAreCandidates(rows, src, last, limit);
    FetchedInOrder(rows, src, last, limit);
    FetchesAtMost(rows, src, last, limit);
    forall r | r in rows && AtVersion(r, src) && r.id > last
      ensures var b := Fetch(rows, src, last, limit); b != [] && (r.id <= b[|b| - 1].id ==> r in b)
    {
      FetchedWithoutGaps(rows, src, last, limit, r);
    }
  }

  function ReplaceById(rows: seq<Row>, row: Row): (r: seq<Row>) {
    seq(|rows|, i requires 0 <= i < |rows| => if rows[i].id == row.id then row else rows[i])
  }

  // ------------------------------------------------------------------
  // How far a rotation has come
  // ------------------------------------------------------------------

  /** Rows up to the cursor have been turned, the rest are as they were. */
  predicate Upto(c: ContentCipher, src: int, tgt: int, before: seq<Row>, now: seq<Row>, cursor: int) {
    && |now| == |before|
    && forall i :: 0 <= i < |before| ==>
         if before[i].id <= cursor then Turned(c, src, tgt, before[i], now[i]) else now[i] == before[i]
  }

  /** How many rows up to the cursor a rotation re-encrypts. */
  function Due(c: ContentCipher, src: int, tgt: int, rows: seq<Row>, cursor: int): nat {
    if rows == [] then 0
    else (if rows[0].id <= cursor && Rotatable(c, src, tgt, rows[0]) then 1 else 0) + Due(c, src, tgt, rows[1..], cursor)
  }

  /** How many rows differ. */
  function Changes(before: seq<Row>, now: seq<Row>): nat
    requires |before| == |now|
  {
    if before == [] then 0 else (if now[0] != before[0] then 1 else 0) + Changes(before[1..], now[1..])
  }

  lemma {:induction false} ChangesAreDue(c: ContentCipher, src: int, tgt: int, before: seq<Row>, now: seq<Row>, cursor: int)
    requires Upto(c, src, tgt, before, now, cursor)
    ensures Changes(before, now) == Due(c, src, tgt, before, cursor)
    decreases |before|
  {
    if before != [] {
      assert Upto(c, src, tgt, before[1..], now[1..], cursor);
      ChangesAreDue(c, src, tgt, before[1..], now[1..], cursor);
      assert before[0].id <= cursor ==> Turned(c, src, tgt, before[0], now[0]);
    }
  }

  /** Moving the cursor past exactly one candidate. */
  lemma {:induction false} DueAdvances(c: ContentCipher, src: int, tgt: int, rows: seq<Row>, lo: int, row: Row)
    requires Ordered(rows) && row.id > lo
    requires forall r :: r in rows && Candidate(r, src) && lo < r.id <= row.id ==> r == row
    ensures Due(c, src, tgt, rows, row.id)
         == Due(c, src, tgt, rows, lo) + (if row in rows && Rotatable(c, src, tgt, row) then 1 else 0)
  {
    if rows != [] {
      assert rows == [rows[0]] + rows[1..];
      assert Ordered(rows[1..]);
      DueAdvances(c, src, tgt, rows[1..], lo, row);
      if row in rows[1..] {
        var j :| 0 <= j < |rows[1..]| && rows[1..][j] == row;
        assert rows[0].id < rows[j + 1].id;
      }
    }
  }

  lemma {:induction false} NoneDueAtStart(c: ContentCipher, src: int, tgt: int, rows: seq<Row>)
    requires Ordered(rows)
    ensures Due(c, src, tgt, rows, 0) == 0
  {
    if rows != [] {
      assert Ordered(rows[1..]);
      NoneDueAtStart(c, src, tgt, rows[1..]);
    }
  }

  function Sum(counts: seq<nat>): nat {
    if counts == [] then 0 else Sum(counts[..|counts| - 1]) + counts[|counts| - 1]
  }

  lemma SumAppend(counts: seq<nat>, n: nat)
    ensures Sum(counts + [n]) == Sum(counts) + n
  {
    assert (counts + [n])[..|counts|] == counts;
  }

  /** Processing the next fetched row moves the cursor to it. */
  lemma RowStep(c: ContentCipher, src: int, tgt: int, before: seq<Row>, now: seq<Row>, cursor: int, row: Row, entropy: Bytes)
    requires Valid(c) && |entropy| == NONCE_LEN - 1
    requires Ordered(before) && Upto(c, src, tgt, before, now, cursor)
    requires row in before && Candidate(row, src) && row.id > cursor && !Poisoned(c, src, tgt, row)
    requires forall r :: r in before && Candidate(r, src) && cursor < r.id <= row.id ==> r == row
    ensures var a := TryRow(c, tgt, row, entropy);
      var next := if a.Replace? then ReplaceById(now, Row(row.id, Some(a.ct), Some(a.nonce))) else now;
      Upto(c, src, tgt, before, next, row.id)
  {
    TryRowTurns(c, src, tgt, row, entropy);
    var a := TryRow(c, tgt, row, entropy);
    var next := if a.Replace? then ReplaceById(now, Row(row.id, Some(a.ct), Some(a.nonce))) else now;
    forall i | 0 <= i < |before|
      ensures if before[i].id <= row.id then Turned(c, src, tgt, before[i], next[i]) else next[i] == before[i]
    {
      if before[i].id == row.id {
        var j :| 0 <= j < |before| && before[j] == row;
        assert i == j;
      } else if cursor < before[i].id < row.id {
        assert before[i] in before;
      }
    }
  }

  // ------------------------------------------------------------------
  // One column pair
  // ------------------------------------------------------------------

  datatype Status =
    | Finished   // no candidate is left beyond the cursor
    | Aborted    // an authentication tag failed; the batch rolled back and the error ended the run
    | Stopped    // the process died between two batches

  class ColumnPair {
    var rows: seq<Row>
    var audits: seq<nat>   // the `count` of each audit record written for this pair

    constructor (rows: seq<Row>)
      ensures this.rows == rows && audits == []
    {
      this.rows, audits := rows, [];
    }

    /** Rotate all eligible rows, a batch per transaction. `lives` is the number of batches after which
        the process is killed; `entropy` is what the random generator returns for each row. */
    method Rotate(c: ContentCipher, src: int, tgt: int, entropy: int -> Bytes, lives: nat)
      returns (status: Status, updated: nat, batches: nat, ghost cursor: int)
      requires Valid(c) && Ordered(rows)
      requires forall id :: |entropy(id)| == NONCE_LEN - 1
      modifies this
      ensures Advanced(c, src, tgt, old(rows), old(audits), rows, audits, cursor)
      ensures updated == Changes(old(rows), rows)
      ensures old(audits) <= audits
      ensures status.Finished? ==> Complete(c, src, tgt, old(rows), cursor)
      ensures status.Aborted? ==> HasPoison(c, src, tgt, old(rows))
      ensures batches <= lives && (status.Stopped? ==> batches == lives)
    {
      ghost var before := rows;
      var last := 0;
      updated, batches, cursor := 0, 0, 0;
      NoneDueAtStart(c, src, tgt, before);
      while true
        invariant Ordered(rows) && Upto(c, src, tgt, before, rows, last)
        invariant updated == Due(c, src, tgt, before, last)
        invariant old(audits) <= audits && Sum(audits) == Sum(old(audits)) + updated
        invariant forall r :: r in before && r.id <= last ==> !Poisoned(c, src, tgt, r)
        invariant batches <= lives && cursor == last >= 0
        decreases |Fetch(before, src, last, |before|)|
      {
        if batches == lives {
          ChangesAreDue(c, src, tgt, before, rows, cursor);
          return Stopped, updated, batches, cursor;
        }
        var batch := Fetch(rows, src, last, BATCH_SIZE);
        SameFetch(c, src, tgt, before, rows, last, BATCH_SIZE);
        FetchIsNextCandidates(before, src, last, BATCH_SIZE);
        if batch == [] {
          ChangesAreDue(c, src, tgt, before, rows, cursor);
          return Finished, updated, batches, cursor;
        }
        ghost var from := last;
        var status1, next, batchUpdated := RotateBatch(c, src, tgt, entropy, batch, before, last);
        if status1.Aborted? {
          ChangesAreDue(c, src, tgt, before, rows, cursor);
          return Aborted, updated, batches, cursor;
        }
        last := batch[|batch| - 1].id;
        rows := next;
        if batchUpdated > 0 {
          SumAppend(audits, batchUpdated);
          audits := audits + [batchUpdated];
        }
        updated := updated + batchUpdated;
        batches := batches + 1;
        cursor := last;
        FetchShrinks(before, src, from, last, batch[|batch| - 1]);
      }
    }

    /** One batch, on the transaction's own copy of the rows. */
    method RotateBatch(c: ContentCipher, src: int, tgt: int, entropy: int -> Bytes, batch: seq<Row>, ghost before: seq<Row>, ghost last: int)
      returns (status: Status, next: seq<Row>, batchUpdated: nat)
      requires Valid(c) && Ordered(before) && Upto(c, src, tgt, before, rows, last)
      requires forall id :: |entropy(id)| == NONCE_LEN - 1
      requires batch != [] && batch == Fetch(before, src, last, BATCH_SIZE)
      ensures status.Finished? || status.Aborted?
      ensures status.Aborted? ==> exists r :: r in before && Poisoned(c, src, tgt, r)
      ensures status.Finished? ==>
        var end := batch[|batch| - 1].id;
        && Ordered(next) && Upto(c, src, tgt, before, next, end)
        && Due(c, src, tgt, before, end) == Due(c, src, tgt, before, last) + batchUpdated
        && (forall r :: r in before && last < r.id <= end ==> !Poisoned(c, src, tgt, r))
    {
      FetchIsNextCandidates(before, src, last, BATCH_SIZE);
      next, batchUpdated := rows, 0;
      var k := 0;
      ghost var cursor := last;
      while k < |batch|
        invariant 0 <= k <= |batch|
        invariant cursor == if k == 0 then last else batch[k - 1].id
        invariant Upto(c, src, tgt, before, next, cursor)
        invariant Due(c, src, tgt, before, cursor) == Due(c, src, tgt, before, last) + batchUpdated
        invariant forall r :: r in before && last < r.id <= cursor ==> !Poisoned(c, src, tgt, r)
      {
        var row := batch[k];
        NextInBatch(before, src, last, batch, k, cursor);
        TryRowTurns(c, src, tgt, row, entropy(row.id));
        var a := TryRow(c, tgt, row, entropy(row.id));
        if a.Abort? {
          return Aborted, next, batchUpdated;
        }
        RowStep(c, src, tgt, before, next, cursor, row, entropy(row.id));
        DueAdvances(c, src, tgt, before, cursor, row);
        if a.Replace? {
          next := ReplaceById(next, Row(row.id, Some(a.ct), Some(a.nonce)));
          batchUpdated := batchUpdated + 1;
        }
        cursor := row.id;
        k := k + 1;
      }
      UptoKeepsOrder(c, src, tgt, before, next, cursor);
      return Finished, next, batchUpdated;
    }
  }

  /** Between the cursor and the next row of the batch there is no other candidate. */
  lemma NextInBatch(before: seq<Row>, src: int, last: int, batch: seq<Row>, k: nat, cursor: int)
    requires Ordered(before) && batch == Fetch(before, src, last, BATCH_SIZE) && k < |batch|
    requires cursor == if k == 0 then last else batch[k - 1].id
    ensures batch[k] in before && Candidate(batch[k], src) && batch[k].id > cursor >= last
    ensures forall r :: r in before && Candidate(r, src) && cursor < r.id <= batch[k].id ==> r == batch[k]
  {
    FetchedAreCandidates(before, src, last, BATCH_SIZE);
    FetchedInOrder(before, src, last, BATCH_SIZE);
    BatchAbove(batch, src, last, k, cursor);
    forall r | r in before && Candidate(r, src) && cursor < r.id <= batch[k].id ensures r == batch[k] {
      FetchedWithoutGaps(before, src, last, BATCH_SIZE, r);
      OnlyOneBetween(batch, k, cursor, r);
    }
  }

  lemma BatchAbove(batch: seq<Row>, src: int, last: int, k: nat, cursor: int)
    requires Increasing(batch) && k < |batch| && forall r :: r in batch ==> r.id > last
    requires cursor == if k == 0 then last else batch[k - 1].id
    ensures batch[k] in batch && batch[k].id > cursor >= last
  {
    assert k > 0 ==> batch[k - 1] in batch;
  }

  lemma OnlyOneBetween(batch: seq<Row>, k: nat, cursor: int, r: Row)
    requires Increasing(batch) && k < |batch| && (k > 0 ==> cursor == batch[k - 1].id)
    requires cursor < r.id <= batch[k].id
    requires r.id <= batch[|batch| - 1].id ==> r in batch
    ensures r == batch[k]
  {
    assert batch[k].id <= batch[|batch| - 1].id;
    assert forall i :: 0 <= i < k ==> batch[i].id <= batch[k - 1].id;
    var m :| 0 <= m < |batch| && batch[m] == r;
  }

  lemma UptoKeepsOrder(c: ContentCipher, src: int, tgt: int, before: seq<Row>, now: seq<Row>, cursor: int)
    requires Ordered(before) && Upto(c, src, tgt, before, now, cursor)
    ensures Ordered(now)
  {
    forall i | 0 <= i < |now| ensures now[i].id == before[i].id {
    }
  }

  /** Beyond the cursor the rows are as they were, so the query fetches what it would have fetched at the start. */
  lemma {:induction false} SameFetch(c: ContentCipher, src: int, tgt: int, before: seq<Row>, now: seq<Row>, cursor: int, limit: nat)
    requires Upto(c, src, tgt, before, now, cursor)
    ensures Fetch(now, src, cursor, limit) == Fetch(before, src, cursor, limit)
    decreases |before|
  {
    if before != [] && limit > 0 {
      assert Upto(c, src, tgt, before[1..], now[1..], cursor);
      SameFetch(c, src, tgt, before[1..], now[1..], cursor, limit);
      SameFetch(c, src, tgt, before[1..], now[1..], cursor, limit - 1);
      assert before[0].id <= cursor || now[0] == before[0];
      assert now[0].id == before[0].id;
    }
  }

  /** Each batch leaves fewer candidates beyond the cursor: the loop terminates. */
  lemma {:induction false} FetchShrinks(rows: seq<Row>, src: int, lo: int, hi: int, row: Row)
    requires lo < hi && row in rows && row.id == hi && Candidate(row, src)
    ensures |Fetch(rows, src, hi, |rows|)| < |Fetch(rows, src, lo, |rows|)|
  {
    assert rows == [rows[0]] + rows[1..];
    FetchMonotone(rows[1..], src, lo, hi, |rows[1..]|);
    if row in rows[1..] {
      FetchShrinks(rows[1..], src, lo, hi, row);
    }
    UnlimitedFetch(rows[1..], src, lo, |rows|);
    UnlimitedFetch(rows[1..], src, hi, |rows|);
  }

  lemma {:induction false} FetchMonotone(rows: seq<Row>, src: int, lo: int, hi: int, limit: nat)
    requires lo <= hi && limit == |rows|
    ensures |Fetch(rows, src, hi, limit)| <= |Fetch(rows, src, lo, limit)|
  {
    if rows != [] {
      FetchMonotone(rows[1..], src, lo, hi, |rows[1..]|);
      UnlimitedFetch(rows[1..], src, lo, |rows|);
      UnlimitedFetch(rows[1..], src, hi, |rows|);
    }
  }

  lemma {:induction false} UnlimitedFetch(rows: seq<Row>, src: int, last: int, limit: nat)
    requires limit >= |rows|
    ensures Fetch(rows, src, last, limit) == Fetch(rows, src, last, |rows|)
  {
    if rows != [] {
      UnlimitedFetch(rows[1..], src, last, limit);
      UnlimitedFetch(rows[1..], src, last, limit - 1);
      UnlimitedFetch(rows[1..], src, last, |rows|);
    }
  }

  // ------------------------------------------------------------------
  // The whole run
  // ------------------------------------------------------------------

  datatype Outcome = UnknownTarget | DryRun | Real(status: Status)

  /** All column pairs in turn. A failed tag or a kill ends the run where it is. */
  method Run(pairs: seq<ColumnPair>, c: ContentCipher, src: int, tgt: int, dryRun: bool, entropy: (int, int) -> Bytes, lives: nat)
    returns (outcome: Outcome, ghost cursors: seq<int>)
    requires Valid(c)
    requires forall i, j :: 0 <= i < j < |pairs| ==> pairs[i] != pairs[j]
    requires forall k :: 0 <= k < |pairs| ==> Ordered(pairs[k].rows)
    requires forall k, id :: |entropy(k, id)| == NONCE_LEN - 1
    modifies pairs
    ensures |cursors| == |pairs|
    ensures forall k :: 0 <= k < |pairs| ==>
      Advanced(c, src, tgt, old(pairs[k].rows), old(pairs[k].audits), pairs[k].rows, pairs[k].audits, cursors[k])
    ensures tgt !in c.keys ==> outcome == UnknownTarget
    ensures tgt in c.keys && dryRun ==> outcome == DryRun
    ensures tgt in c.keys && !dryRun ==> outcome.Real?
    ensures !outcome.Real? ==> forall k :: 0 <= k < |pairs| ==> pairs[k].rows == old(pairs[k].rows)
    ensures outcome == Real(Finished) ==> forall k :: 0 <= k < |pairs| ==>
      AllTurned(c, src, tgt, old(pairs[k].rows), pairs[k].rows)
    ensures outcome.Real? && !outcome.status.Stopped? ==>
      (outcome.status.Aborted? <==> exists k :: 0 <= k < |pairs| && HasPoison(c, src, tgt, old(pairs[k].rows)))
  {
    cursors := seq(|pairs|, _ => 0);
    forall k | 0 <= k < |pairs|
      ensures Advanced(c, src, tgt, pairs[k].rows, pairs[k].audits, pairs[k].rows, pairs[k].audits, 0)
    {
      NoneDueAtStart(c, src, tgt, pairs[k].rows);
      ChangesAreDue(c, src, tgt, pairs[k].rows, pairs[k].rows, 0);
    }
    if tgt !in c.keys {
      return UnknownTarget, cursors;
    }
    if dryRun {
      return DryRun, cursors;
    }
    var left := lives;
    var i := 0;
    while i < |pairs|
      invariant 0 <= i <= |pairs| && |cursors| == |pairs|
      invariant forall k :: i <= k < |pairs| ==>
        pairs[k].rows == old(pairs[k].rows) && pairs[k].audits == old(pairs[k].audits)
      invariant forall k :: 0 <= k < |pairs| ==>
        Advanced(c, src, tgt, old(pairs[k].rows), old(pairs[k].audits), pairs[k].rows, pairs[k].audits, cursors[k])
      invariant forall k :: 0 <= k < i ==> Complete(c, src, tgt, old(pairs[k].rows), cursors[k])
    {
      var status, _, batches, cursor := pairs[i].Rotate(c, src, tgt, id => entropy(i, id), left);
      left := left - batches;
      cursors := cursors[i := cursor];
      if !status.Finished? {
        return Real(status), cursors;
      }
      i := i + 1;
    }
    outcome := Real(Finished);
    forall k | 0 <= k < |pairs|
      ensures !HasPoison(c, src, tgt, old(pairs[k].rows)) && AllTurned(c, src, tgt, old(pairs[k].rows), pairs[k].rows)
    {
      CompleteMeansNoPoison(c, src, tgt, old(pairs[k].rows), cursors[k]);
      CompleteTurnsAll(c, src, tgt, old(pairs[k].rows), pairs[k].rows, cursors[k]);
    }
  }

  // ------------------------------------------------------------------
  // What a run means
  // ------------------------------------------------------------------

  /** Every candidate lies within the cursor, and none of them stopped the run. */
  predicate Complete(c: ContentCipher, src: int, tgt: int, rows: seq<Row>, cursor: int) {
    && (forall r :: r in rows && Candidate(r, src) ==> r.id <= cursor)
    && (forall r :: r in rows && r.id <= cursor ==> !Poisoned(c, src, tgt, r))
  }

  predicate HasPoison(c: ContentCipher, src: int, tgt: int, rows: seq<Row>) {
    exists r :: r in rows && Poisoned(c, src, tgt, r)
  }

  lemma CompleteMeansNoPoison(c: ContentCipher, src: int, tgt: int, rows: seq<Row>, cursor: int)
    requires Complete(c, src, tgt, rows, cursor)
    ensures !HasPoison(c, src, tgt, rows)
  {
  }

  /** How one column pair stands during a run: rows turned up to the cursor, and the audit counts
      grown by exactly the rows that differ. */
  predicate Advanced(c: ContentCipher, src: int, tgt: int, rowsBefore: seq<Row>, auditsBefore: seq<nat>, rows: seq<Row>, audits: seq<nat>, cursor: int) {
    && Ordered(rows)
    && Upto(c, src, tgt, rowsBefore, rows, cursor)
    && Sum(audits) == Sum(auditsBefore) + Changes(rowsBefore, rows)
  }

  /** Wherever a rotation is stopped, every row reads exactly as it did before. */
  lemma RotationPreservesReadings(c: ContentCipher, src: int, tgt: int, before: seq<Row>, now: seq<Row>, cursor: int)
    requires Upto(c, src, tgt, before, now, cursor)
    ensures |now| == |before| && forall i :: 0 <= i < |before| ==> now[i].id == before[i].id && Read(c, now[i]) == Read(c, before[i])
  {
    forall i | 0 <= i < |before| ensures now[i].id == before[i].id && Read(c, now[i]) == Read(c, before[i]) {
      assert Turned(c, src, tgt, before[i], now[i]) || now[i] == before[i];
    }
  }

  /** What a finished rotation leaves at the source version: nothing at all unless source and target are
      the same version, and otherwise exactly the rows whose ciphertext is empty, which are never
      decrypted, and the rows whose decryption raised the skipped `ValueError`. */
  lemma LeftoversExactly(c: ContentCipher, src: int, tgt: int, before: seq<Row>, now: seq<Row>, cursor: int, i: nat)
    requires Valid(c) && tgt in c.keys && i < |before|
    requires Complete(c, src, tgt, before, cursor) && Upto(c, src, tgt, before, now, cursor)
    ensures AtVersion(now[i], src) <==>
      AtVersion(before[i], src) &&
        (src == tgt || before[i].ct.value == [] || Decrypt(c, before[i].ct.value, before[i].nonce.value) == Err(ValueError))
    ensures AtVersion(now[i], src) ==> now[i] == before[i]
  {
    assert before[i] in before;
    if AtVersion(before[i], src) {
      assert !Poisoned(c, src, tgt, before[i]);
    }
  }

  /** Every row that could be re-encrypted has been, with the same reading, and every other row is untouched. */
  predicate AllTurned(c: ContentCipher, src: int, tgt: int, before: seq<Row>, now: seq<Row>) {
    |now| == |before| && forall i :: 0 <= i < |before| ==> Turned(c, src, tgt, before[i], now[i])
  }

  lemma CompleteTurnsAll(c: ContentCipher, src: int, tgt: int, before: seq<Row>, now: seq<Row>, cursor: int)
    requires Complete(c, src, tgt, before, cursor) && Upto(c, src, tgt, before, now, cursor)
    ensures AllTurned(c, src, tgt, before, now)
  {
    forall i | 0 <= i < |before| ensures Turned(c, src, tgt, before[i], now[i]) {
      assert before[i] in before;
    }
  }

  lemma TurnedIsFinal(c: ContentCipher, src: int, tgt: int, o: Row, n: Row)
    requires Turned(c, src, tgt, o, n)
    ensures !Rotatable(c, src, tgt, n)
  {
  }

  lemma {:induction false} NothingDue(c: ContentCipher, src: int, tgt: int, rows: seq<Row>, cursor: int)
    requires forall i :: 0 <= i < |rows| ==> !Rotatable(c, src, tgt, rows[i])
    ensures Due(c, src, tgt, rows, cursor) == 0
  {
    if rows != [] {
      NothingDue(c, src, tgt, rows[1..], cursor);
    }
  }

  /** After a finished rotation a second one, however far it gets, updates nothing. */
  lemma RerunUpdatesNothing(c: ContentCipher, src: int, tgt: int, before: seq<Row>, now: seq<Row>, again: seq<Row>, cursor: int, cursor2: int)
    requires Complete(c, src, tgt, before, cursor) && Upto(c, src, tgt, before, now, cursor)
    requires Upto(c, src, tgt, now, again, cursor2)
    ensures again == now && Due(c, src, tgt, now, cursor2) == 0
  {
    forall i | 0 <= i < |now| ensures !Rotatable(c, src, tgt, now[i]) {
      assert before[i] in before;
      TurnedIsFinal(c, src, tgt, before[i], now[i]);
    }
    NothingDue(c, src, tgt, now, cursor2);
    assert forall i :: 0 <= i < |now| ==> again[i] == now[i];
  }

  /** Killed anywhere and started again to the end, a rotation leaves every row at the version, and with the
      reading, that an uninterrupted one would have left, and updates each row once in all. */
  lemma RestartReachesTheSameEnd(c: ContentCipher, src: int, tgt: int, before: seq<Row>, killed: seq<Row>, restarted: seq<Row>, direct: seq<Row>, at: int, end: int, cursor: int)
    requires Upto(c, src, tgt, before, killed, at)
    requires Upto(c, src, tgt, killed, restarted, end) && Complete(c, src, tgt, killed, end)
    requires Upto(c, src, tgt, before, direct, cursor) && Complete(c, src, tgt, before, cursor)
    ensures |restarted| == |direct|
    ensures forall i :: 0 <= i < |direct| ==> Version(restarted[i]) == Version(direct[i]) && Read(c, restarted[i]) == Read(c, direct[i])
    ensures Due(c, src, tgt, before, at) + Due(c, src, tgt, killed, end) == Due(c, src, tgt, before, cursor)
  {
    forall i | 0 <= i < |direct|
      ensures Version(restarted[i]) == Version(direct[i]) && Read(c, restarted[i]) == Read(c, direct[i])
    {
      assert before[i] in before && killed[i] in killed;
      RestartedRow(c, src, tgt, before[i], killed[i], restarted[i], direct[i], at, end, cursor);
    }
    DueSplits(c, src, tgt, before, killed, at, end, cursor);
  }

  lemma RestartedRow(c: ContentCipher, src: int, tgt: int, o: Row, k: Row, r: Row, d: Row, at: int, end: int, cursor: int)
    requires if o.id <= at then Turned(c, src, tgt, o, k) else k == o
    requires if k.id <= end then Turned(c, src, tgt, k, r) else r == k
    requires if o.id <= cursor then Turned(c, src, tgt, o, d) else d == o
    requires Candidate(o, src) ==> o.id <= cursor
    requires Candidate(k, src) ==> k.id <= end
    ensures Version(r) == Version(d) && Read(c, r) == Read(c, d)
  {
  }

  lemma {:induction false} DueSplits(c: ContentCipher, src: int, tgt: int, before: seq<Row>, killed: seq<Row>, at: int, end: int, cursor: int)
    requires Upto(c, src, tgt, before, killed, at)
    requires forall r :: r in killed && Candidate(r, src) ==> r.id <= end
    requires forall r :: r in before && Candidate(r, src) ==> r.id <= cursor
    ensures Due(c, src, tgt, before, at) + Due(c, src, tgt, killed, end) == Due(c, src, tgt, before, cursor)
    decreases |before|
  {
    if before != [] {
      assert before == [before[0]] + before[1..] && killed == [killed[0]] + killed[1..];
      assert Upto(c, src, tgt, before[1..], killed[1..], at);
      DueSplits(c, src, tgt, before[1..], killed[1..], at, end, cursor);
      assert before[0] in before && killed[0] in killed;
    }
  }
}
