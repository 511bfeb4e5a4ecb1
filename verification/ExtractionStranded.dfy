/** Pre-charges that never get a row: exactly which steps leave one unsettled for ever. */
module ExtractionStranded {
  import opened ExtractionJobs
  import opened ExtractionRuns
  import opened ExtractionBudget
  import opened ExtractionClaims

  /** Debited, not settled, without a row, and no request is working on it any more. */
  predicate Stranded(s: State, id: JobId) {
    Unsettled(s.book, id) && id !in s.db.jobs && forall k :: 0 <= k < |s.ingests| ==> !HoldsCharge(s, k, id)
  }

  /** The request that holds the charge ends, or its refund call fails. */
  predicate Strands(s: State, step: Step, id: JobId)
    requires Enabled(s, step)
  {
    (step.EndIngest? || (step.RefundIngest? && !step.ok)) && HoldsCharge(s, step.ingest, id)
  }

  ghost predicate EverStrands(s: State, steps: seq<Step>, id: JobId)
    requires Runs(s, steps)
    decreases |steps|
  {
    steps != [] && (Strands(s, steps[0], id) || EverStrands(Next(s, steps[0]), steps[1..], id))
  }

  lemma NothingPostedFor(s: State, step: Step, id: JobId)
    requires Reached(s) && Enabled(s, step) && Stranded(s, id)
    ensures Posting(s, step).None? || Posting(s, step).value.0 != id
  {
    if WorkerMoves(step) || step.RefundSwept? {
      WorkersPostForRows(s, step);
    } else if IngestMoves(step) {
      assert !HoldsCharge(s, step.ingest, id);
    }
  }

  lemma NoRowFor(s: State, step: Step, id: JobId)
    requires Enabled(s, step) && Stranded(s, id)
    ensures id !in DbAfter(s, step).jobs
  {
    if step.Insert? {
      assert !HoldsCharge(s, step.ingest, id);
    } else {
      NoNewRows(s, step);
    }
  }

  lemma NobodyPicksUp(s: State, step: Step, id: JobId)
    requires Enabled(s, step) && Stranded(s, id)
    ensures forall k :: 0 <= k < |Next(s, step).ingests| ==> !HoldsCharge(Next(s, step), k, id)
  {
    var s1 := Next(s, step);
    assert IngestMoves(step) ==> !HoldsCharge(s, step.ingest, id);
    forall k | 0 <= k < |s1.ingests| ensures !HoldsCharge(s1, k, id) {
      assert k < |s.ingests| ==> !HoldsCharge(s, k, id);
    }
  }

  lemma StrandedStays(s: State, step: Step, id: JobId)
    requires Reached(s) && Enabled(s, step) && Stranded(s, id)
    ensures Stranded(Next(s, step), id)
  {
    NothingPostedFor(s, step, id);
    NoRowFor(s, step, id);
    NobodyPicksUp(s, step, id);
  }

  lemma StrandingStrands(s: State, step: Step, id: JobId)
    requires Reached(s) && Enabled(s, step) && Strands(s, step, id)
    ensures Stranded(Next(s, step), id)
  {
    var s1 := Next(s, step);
    assert ChargeHeld(s, step.ingest);
    assert s1.db == s.db && s1.book == s.book;
    forall k | 0 <= k < |s1.ingests| ensures !HoldsCharge(s1, k, id) {
      assert k != step.ingest ==> !HoldsCharge(s, k, id);
    }
  }

  /** A held charge that is let go without being stranded has been settled, or has its row. */
  lemma LetGo(s: State, step: Step, i: nat, id: JobId)
    requires Reached(s) && Enabled(s, step) && i < |s.ingests| && HoldsCharge(s, i, id) && !Strands(s, step, id)
    ensures !Stranded(Next(s, step), id)
  {
    var s1 := Next(s, step);
    assert ChargeHeld(s, i);
    if IngestMoves(step) && step.ingest == i {
      if step.Insert? && InsertLost(s, step) {
        assert HoldsCharge(s1, i, id);
      }
    } else {
      assert s1.ingests[i] == s.ingests[i];
      assert HoldsCharge(s1, i, id);
    }
  }

  /** A charge becomes stranded exactly at such a step. */
  lemma NextStrands(s: State, step: Step, id: JobId)
    requires Reached(s) && Enabled(s, step)
    ensures Stranded(Next(s, step), id) <==> Stranded(s, id) || Strands(s, step, id)
  {
    if Stranded(s, id) {
      StrandedStays(s, step, id);
    } else if Strands(s, step, id) {
      StrandingStrands(s, step, id);
    } else if exists i :: 0 <= i < |s.ingests| && HoldsCharge(s, i, id) {
      var i :| 0 <= i < |s.ingests| && HoldsCharge(s, i, id);
      LetGo(s, step, i, id);
    } else {
      NotYetStranded(s, step, id);
    }
  }

  lemma NotYetStranded(s: State, step: Step, id: JobId)
    requires Reached(s) && Enabled(s, step) && !Stranded(s, id)
    requires forall i :: 0 <= i < |s.ingests| ==> !HoldsCharge(s, i, id)
    ensures !Stranded(Next(s, step), id)
  {
    var s1 := Next(s, step);
    if id in s.db.jobs {
      NextKeepsDb(s, step);
    } else if id !in s.book {
      if step.PreCharge? && step.allowed && step.id == id {
        assert HoldsCharge(s1, step.ingest, id);
      } else if Posting(s, step).Some? && Posting(s, step).value.0 == id {
        PostingOpens(s, step);
      }
    } else {
      assert Opened(s.book[id]);
    }
  }

  lemma {:induction false} RunsStrand(s: State, steps: seq<Step>, id: JobId)
    requires Reached(s) && Runs(s, steps)
    ensures Stranded(After(s, steps), id) <==> Stranded(s, id) || EverStrands(s, steps, id)
    decreases |steps|
  {
    if steps != [] {
      NextStrands(s, steps[0], id);
      NextKeepsReached(s, steps[0]);
      RunsStrand(Next(s, steps[0]), steps[1..], id);
    }
  }

  /** In every run a pre-charge is stranded if and only if its request ended while holding it or failed to refund it. */
  lemma StrandedExactly(now: Time, month: Month, steps: seq<Step>, id: JobId)
    requires Runs(Initial(now, month), steps)
    ensures Stranded(After(Initial(now, month), steps), id) <==> EverStrands(Initial(now, month), steps, id)
  {
    RunsStrand(Initial(now, month), steps, id);
  }

  ghost predicate StaysUnsettled(s: State, steps: seq<Step>, id: JobId)
    requires Runs(s, steps)
  {
    Unsettled(After(s, steps).book, id)
  }

  /** No continuation settles it. */
  ghost predicate NeverSettled(s: State, id: JobId) { forall steps :: Runs(s, steps) ==> StaysUnsettled(s, steps, id) }

  lemma {:induction false} StrandedForEver(s: State, steps: seq<Step>, id: JobId)
    requires Reached(s) && Runs(s, steps) && Stranded(s, id)
    ensures Stranded(After(s, steps), id)
    decreases |steps|
  {
    if steps != [] {
      StrandedStays(s, steps[0], id);
      NextKeepsReached(s, steps[0]);
      StrandedForEver(Next(s, steps[0]), steps[1..], id);
    }
  }

  /** A charge that is still held can be settled: the insert fails and the refund succeeds. */
  lemma HeldCanSettle(s: State, i: nat, id: JobId) returns (steps: seq<Step>)
    requires Reached(s) && i < |s.ingests| && HoldsCharge(s, i, id)
    ensures Runs(s, steps) && !Unsettled(After(s, steps).book, id)
  {
    assert ChargeHeld(s, i);
    var refund := RefundIngest(i, true);
    if s.ingests[i].pc.Refused? {
      RunsCons(s, refund, []);
      steps := [refund] + [];
    } else {
      var lose := Insert(i, true);
      var s1 := Next(s, lose);
      assert s1.ingests[i].pc == Refused(id) && s1.book == s.book;
      RunsCons(s1, refund, []);
      RunsCons(s, lose, [refund] + []);
      steps := [lose] + ([refund] + []);
    }
  }

  /** A charge without a row stays unsettled in every continuation if and only if it is stranded. */
  lemma NeverSettledExactly(s: State, id: JobId)
    requires Reached(s) && id in s.book && id !in s.db.jobs
    ensures NeverSettled(s, id) <==> Stranded(s, id)
  {
    if Stranded(s, id) {
      forall steps | Runs(s, steps) ensures StaysUnsettled(s, steps, id) {
        StrandedForEver(s, steps, id);
      }
    } else if !Unsettled(s.book, id) {
      assert Runs(s, []) && !StaysUnsettled(s, [], id);
    } else {
      var i :| 0 <= i < |s.ingests| && HoldsCharge(s, i, id);
      var steps := HeldCanSettle(s, i, id);
      assert !StaysUnsettled(s, steps, id);
    }
  }
}
