/** When a job's pre-charge is settled more than once: an exact condition on the next step, for every reachable state. */
module ExtractionClaims {
  import opened ExtractionJobs
  import opened ExtractionRuns
  import opened ExtractionBudget

  // ------------------------------------------------------------------
  // Charges that have no row yet
  // ------------------------------------------------------------------

  predicate Unsettled(book: Book, j: JobId) {
    j in book && |book[j]| == 1 && book[j][0].amount == Estimate
  }

  predicate SettledFor(book: Book, j: JobId, cents: nat) {
    j in book && |book[j]| == 2 && book[j][0].amount == Estimate && book[j][1].amount == Actual(cents)
  }

  /** The request is still working on this charge. */
  predicate HoldsCharge(s: State, i: nat, id: JobId) {
    i < |s.ingests| && (s.ingests[i].pc.Charged? || s.ingests[i].pc.Refused?) && s.ingests[i].pc.id == id
  }

  predicate ChargeHeld(s: State, i: nat)
    requires i < |s.ingests|
  {
    var pc := s.ingests[i].pc;
    pc.Charged? || pc.Refused? ==>
      && Unsettled(s.book, pc.id) && pc.id !in s.db.jobs
      && (forall k :: 0 <= k < |s.ingests| && k != i ==> !HoldsCharge(s, k, pc.id))
  }

  /** A request's charge is unsettled, has no row, and is held by that request alone. Every account opens with its
      estimate, and everything after it is a settlement. */
  ghost predicate Charges(s: State) {
    && (forall i :: 0 <= i < |s.ingests| ==> ChargeHeld(s, i))
    && (forall id :: id in s.book ==> Opened(s.book[id]))
  }

  predicate Opened(entries: seq<Entry>) {
    entries != [] && entries[0].amount == Estimate && forall k :: 1 <= k < |entries| ==> entries[k].amount.Actual?
  }

  function Settlements(book: Book, j: JobId): int { if j in book then |book[j]| - 1 else 0 }

  /** What every run keeps. */
  ghost predicate Reached(s: State) { Safe(s) && Aims(s) && Charges(s) }

  lemma WorkersPostForRows(s: State, step: Step)
    requires Safe(s) && Aims(s) && Enabled(s, step) && (WorkerMoves(step) || step.RefundSwept?)
    ensures Posting(s, step).Some? ==> Posting(s, step).value.0 in s.db.jobs
  {
    if WorkerMoves(step) {
      assert Placed(s, step.worker);
    }
  }

  lemma OwnChargeHeld(s: State, step: Step)
    requires IngestMoves(step) && Enabled(s, step) && ChargeHeld(s, step.ingest)
    requires step.PreCharge? ==> forall k :: 0 <= k < |s.ingests| ==> !HoldsCharge(s, k, step.id)
    ensures ChargeHeld(Next(s, step), step.ingest)
  {
    var s1 := Next(s, step);
    assert forall k, id :: k != step.ingest && HoldsCharge(s1, k, id) ==> HoldsCharge(s, k, id);
  }

  lemma OtherChargeHeld(s: State, step: Step, i: nat)
    requires IngestMoves(step) && Enabled(s, step) && ChargeHeld(s, step.ingest)
    requires i < |s.ingests| && i != step.ingest && ChargeHeld(s, i)
    ensures ChargeHeld(Next(s, step), i)
  {
    var s1, pc := Next(s, step), s.ingests[i].pc;
    assert s1.ingests[i] == s.ingests[i];
    if pc.Charged? || pc.Refused? {
      assert HoldsCharge(s, i, pc.id);
      assert !HoldsCharge(s, step.ingest, pc.id);
      forall k | 0 <= k < |s.ingests| && k != i ensures !HoldsCharge(s1, k, pc.id) {
        assert !HoldsCharge(s, k, pc.id);
      }
    }
  }

  lemma HeldAreBooked(s: State)
    requires Charges(s)
    ensures forall k, id :: 0 <= k < |s.ingests| && HoldsCharge(s, k, id) ==> id in s.book
  {
    forall k, id | 0 <= k < |s.ingests| && HoldsCharge(s, k, id) ensures id in s.book {
      assert ChargeHeld(s, k);
    }
  }

  lemma ForeignStepHoldsCharge(s: State, step: Step, i: nat)
    requires Reached(s) && Enabled(s, step) && !IngestMoves(step) && i < |s.ingests|
    ensures i < |Next(s, step).ingests| && ChargeHeld(Next(s, step), i)
  {
    var s1 := Next(s, step);
    assert ChargeHeld(s, i) && s1.ingests[i] == s.ingests[i];
    NoNewRows(s, step);
    if WorkerMoves(step) || step.RefundSwept? {
      WorkersPostForRows(s, step);
    }
    assert forall k, id :: HoldsCharge(s1, k, id) == HoldsCharge(s, k, id);
  }

  lemma NextHoldsCharges(s: State, step: Step, i: nat)
    requires Reached(s) && Enabled(s, step) && i < |Next(s, step).ingests|
    ensures ChargeHeld(Next(s, step), i)
  {
    if !IngestMoves(step) {
      if i < |s.ingests| {
        ForeignStepHoldsCharge(s, step, i);
      }
    } else {
      assert ChargeHeld(s, i) && ChargeHeld(s, step.ingest);
      if i == step.ingest {
        HeldAreBooked(s);
        OwnChargeHeld(s, step);
      } else {
        OtherChargeHeld(s, step, i);
      }
    }
  }

  lemma PostingOpens(s: State, step: Step)
    requires Reached(s) && Enabled(s, step) && Posting(s, step).Some?
    ensures var (id, e) := Posting(s, step).value; if step.PreCharge? then id !in s.book && e.amount == Estimate else id in s.book && e.amount.Actual?
  {
    if WorkerMoves(step) || step.RefundSwept? {
      WorkersPostForRows(s, step);
      assert DebitedIn(s.book, Posting(s, step).value.0, s.db.jobs[Posting(s, step).value.0].periodStart);
    } else if step.RefundIngest? {
      assert ChargeHeld(s, step.ingest);
    }
  }

  lemma NextKeepsReached(s: State, step: Step)
    requires Reached(s) && Enabled(s, step)
    ensures Reached(Next(s, step))
  {
    NextKeepsSafe(s, step);
    NextKeepsAims(s, step);
    var s1 := Next(s, step);
    forall i | 0 <= i < |s1.ingests| ensures ChargeHeld(s1, i) {
      NextHoldsCharges(s, step, i);
    }
    forall id | id in s1.book ensures Opened(s1.book[id]) {
      if Posting(s, step).Some? && Posting(s, step).value.0 == id {
        PostingOpens(s, step);
      }
    }
  }

  lemma {:induction false} RunsKeepReached(s: State, steps: seq<Step>)
    requires Reached(s) && Runs(s, steps)
    ensures Reached(After(s, steps))
    decreases |steps|
  {
    if steps != [] {
      NextKeepsReached(s, steps[0]);
      RunsKeepReached(Next(s, steps[0]), steps[1..]);
    }
  }

  // ------------------------------------------------------------------
  // Claims
  // ------------------------------------------------------------------

  /** A worker at this point may still settle its job, given whether its conversation is processed. */
  predicate CanSettle(pc: WorkerPc, processed: bool) {
    match pc
    case Started => !processed
    case Loaded(_) => true
    case Untopical(_) => true
    case Extracted(_, _, _) => !processed
    case SkipMarked(_) => true
    case Failing(_, known, _) => known
    case Refunded => false
    case Gone => false
  }

  predicate Claims(s: State, w: nat, j: JobId) {
    w < |s.workers| && s.workers[w].job == j && CanSettle(s.workers[w].pc, s.workers[w].conv in s.db.processed)
  }

  predicate NobodyClaims(s: State, j: JobId) { forall w :: 0 <= w < |s.workers| ==> !Claims(s, w, j) }

  /** A sweep has returned the row and its refund call is still to come. */
  predicate Owed(s: State, j: JobId) { j in s.db.jobs && (j, s.db.jobs[j].periodStart) in s.owed }

  /** Nobody may settle the job now, and nobody has. */
  predicate Free(s: State, j: JobId) { Unsettled(s.book, j) && NobodyClaims(s, j) && !Owed(s, j) }

  /** What must not be done to job `j`: start it while it is not free (unless its conversation is processed, in
      which case the worker leaves at once), sweep it while it is not free, or lose the commit of Phase 3 after
      its budget call went through. */
  predicate SafeFor(s: State, step: Step, j: JobId)
    requires Enabled(s, step)
  {
    match step
    case Start(k) => k == j ==> Free(s, j) || s.db.jobs[j].key.conv in s.db.processed
    case SweepPending(minutes) => j in s.db.jobs && StalePending(s.now, minutes)(s.db.jobs[j]) ==> Free(s, j)
    case SweepRunning => j in s.db.jobs && StaleRunning(s.now)(s.db.jobs[j]) ==> Free(s, j)
    case Phase3(w, Persists(_, paid, commits)) =>
      s.workers[w].job == j && s.workers[w].conv !in s.db.processed ==> !paid || commits
    case _ => true
  }

  ghost predicate SafeRun(s: State, steps: seq<Step>, j: JobId)
    requires Runs(s, steps)
    decreases |steps|
  {
    steps == [] || (SafeFor(s, steps[0], j) && SafeRun(Next(s, steps[0]), steps[1..], j))
  }

  /** Settled at most once so far, and no more than one settlement can still come, and none once there was one. */
  ghost predicate Once(s: State, j: JobId) {
    j in s.db.jobs ==>
      && j in s.book && 1 <= |s.book[j]| <= 2
      && (|s.book[j]| == 2 ==> NobodyClaims(s, j) && !Owed(s, j))
      && (Owed(s, j) ==> NobodyClaims(s, j) && s.owed[(j, s.db.jobs[j].periodStart)] == 1)
      && OneClaim(s, j)
  }

  predicate OneClaim(s: State, j: JobId) {
    forall v, w :: 0 <= v < w < |s.workers| ==> !(Claims(s, v, j) && Claims(s, w, j))
  }

  /** A claim is never gained by an existing worker. */
  lemma ClaimsFade(s: State, step: Step, w: nat, j: JobId)
    requires Enabled(s, step) && w < |s.workers| && Claims(Next(s, step), w, j)
    ensures Claims(s, w, j)
  {
    assert s.db.processed <= DbAfter(s, step).processed;
    if WorkerMoves(step) && step.worker == w {
      MoveFades(s, step);
    } else {
      assert Next(s, step).workers[w] == s.workers[w];
    }
  }

  lemma MoveFades(s: State, step: Step)
    requires Enabled(s, step) && WorkerMoves(step)
    ensures var w := s.workers[step.worker];
      CanSettle(WorkerPcAfter(s, step), w.conv in DbAfter(s, step).processed) ==> CanSettle(w.pc, w.conv in s.db.processed)
  {
    assert s.db.processed <= DbAfter(s, step).processed;
  }

  /** A worker that settles had a claim, and has none afterwards unless the commit of Phase 3 was lost. */
  lemma SettlingSpendsClaim(s: State, step: Step)
    requires Enabled(s, step) && WorkerMoves(step) && Posting(s, step).Some?
    ensures Posting(s, step).value.0 == s.workers[step.worker].job
    ensures Claims(s, step.worker, s.workers[step.worker].job)
    ensures SafeFor(s, step, s.workers[step.worker].job) ==> !Claims(Next(s, step), step.worker, s.workers[step.worker].job)
  {
  }

  /** A new worker claims only what its start was not safe for, or finds free. */
  lemma NewClaims(s: State, step: Step, w: nat, j: JobId)
    requires Enabled(s, step) && |s.workers| <= w && Claims(Next(s, step), w, j)
    ensures w == |s.workers| && step == Start(j) && s.db.jobs[j].key.conv !in s.db.processed
  {
  }

  lemma OwedGrows(s: State, step: Step, j: JobId)
    requires Reached(s) && Enabled(s, step) && j in s.db.jobs && SafeFor(s, step, j)
    ensures Owed(Next(s, step), j) && !Owed(s, j) ==> Free(s, j) && (step.SweepPending? || step.SweepRunning?)
    ensures !Owed(s, j) ==> Next(s, step).owed[(j, s.db.jobs[j].periodStart)] <= 1
    ensures Owed(s, j) && s.owed[(j, s.db.jobs[j].periodStart)] == 1 ==> Next(s, step).owed[(j, s.db.jobs[j].periodStart)] <= 1
  {
    NextKeepsDb(s, step);
  }

  lemma NewRowIsOnce(s: State, step: Step, j: JobId)
    requires Reached(s) && Enabled(s, step) && step.Insert? && j !in s.db.jobs && j in Next(s, step).db.jobs
    ensures Once(Next(s, step), j)
  {
    var s1 := Next(s, step);
    assert ChargeHeld(s, step.ingest);
    assert s1.book == s.book && s1.workers == s.workers && s1.owed == s.owed;
    forall w | 0 <= w < |s.workers| ensures !Claims(s1, w, j) {
      assert Placed(s, w);
    }
    assert (j, s1.db.jobs[j].periodStart) !in s.owed;
  }

  /** Who can post to the account of a row. */
  lemma PostersOfRows(s: State, step: Step, j: JobId)
    requires Reached(s) && Enabled(s, step) && j in s.db.jobs
    requires Posting(s, step).Some? && Posting(s, step).value.0 == j
    ensures WorkerMoves(step) || (step.RefundSwept? && step.job == j && step.period == s.db.jobs[j].periodStart)
  {
    assert IngestMoves(step) ==> ChargeHeld(s, step.ingest);
  }

  lemma WorkerSettlesOnce(s: State, step: Step, j: JobId)
    requires Reached(s) && Once(s, j) && Enabled(s, step) && SafeFor(s, step, j) && j in s.db.jobs && WorkerMoves(step)
    requires Posting(s, step).Some? && Posting(s, step).value.0 == j
    ensures Once(Next(s, step), j)
  {
    var s1 := Next(s, step);
    NextKeepsDb(s, step);
    SettlingSpendsClaim(s, step);
    forall w | 0 <= w < |s1.workers| ensures !Claims(s1, w, j) {
      if w != step.worker && Claims(s1, w, j) {
        ClaimsFade(s, step, w, j);
      }
    }
  }

  lemma SweeperSettlesOnce(s: State, step: Step, j: JobId)
    requires Reached(s) && Once(s, j) && Enabled(s, step) && j in s.db.jobs
    requires step.RefundSwept? && step.ok && step.job == j && step.period == s.db.jobs[j].periodStart
    ensures Once(Next(s, step), j)
  {
    var s1 := Next(s, step);
    assert Owed(s, j);
    forall w | 0 <= w < |s1.workers| ensures !Claims(s1, w, j) {
      if Claims(s1, w, j) {
        ClaimsFade(s, step, w, j);
      }
    }
  }

  lemma QuietStepKeepsClaims(s: State, step: Step, j: JobId)
    requires Once(s, j) && Enabled(s, step) && SafeFor(s, step, j) && j in s.db.jobs
    ensures OneClaim(Next(s, step), j)
    ensures NobodyClaims(s, j) ==> NobodyClaims(Next(s, step), j) || (step == Start(j) && Free(s, j))
  {
    ClaimsAreOld(s, step, j);
  }

  lemma QuietStepKeepsOnce(s: State, step: Step, j: JobId)
    requires Reached(s) && Once(s, j) && Enabled(s, step) && SafeFor(s, step, j) && j in s.db.jobs
    requires Posting(s, step).None? || Posting(s, step).value.0 != j
    ensures Once(Next(s, step), j)
  {
    NextKeepsDb(s, step);
    OwedGrows(s, step, j);
    QuietStepKeepsClaims(s, step, j);
    assert Next(s, step).book[j] == s.book[j];
    assert Next(s, step).db.jobs[j].periodStart == s.db.jobs[j].periodStart;
    assert step.Start? ==> Next(s, step).owed == s.owed;
  }

  /** Every claim after a safe step was there before, or belongs to a worker just started on a free job. */
  lemma ClaimsAreOld(s: State, step: Step, j: JobId)
    requires Enabled(s, step) && SafeFor(s, step, j)
    ensures forall w :: 0 <= w < |s.workers| && Claims(Next(s, step), w, j) ==> Claims(s, w, j)
    ensures forall w :: |s.workers| <= w < |Next(s, step).workers| && Claims(Next(s, step), w, j) ==>
      w == |s.workers| && step == Start(j) && Free(s, j)
  {
    var s1 := Next(s, step);
    forall w | 0 <= w < |s.workers| && Claims(s1, w, j) ensures Claims(s, w, j) {
      ClaimsFade(s, step, w, j);
    }
    forall w | |s.workers| <= w < |s1.workers| && Claims(s1, w, j) ensures w == |s.workers| && step == Start(j) && Free(s, j) {
      NewClaims(s, step, w, j);
    }
  }

  lemma NextKeepsOnce(s: State, step: Step, j: JobId)
    requires Reached(s) && Once(s, j) && Enabled(s, step) && SafeFor(s, step, j)
    ensures Once(Next(s, step), j)
  {
    if j !in s.db.jobs {
      if !step.Insert? {
        NoNewRows(s, step);
      } else if j in Next(s, step).db.jobs {
        NewRowIsOnce(s, step, j);
      }
    } else if Posting(s, step).Some? && Posting(s, step).value.0 == j {
      PostersOfRows(s, step, j);
      if WorkerMoves(step) {
        WorkerSettlesOnce(s, step, j);
      } else {
        SweeperSettlesOnce(s, step, j);
      }
    } else {
      QuietStepKeepsOnce(s, step, j);
    }
  }

  lemma {:induction false} SafeRunsKeepOnce(s: State, steps: seq<Step>, j: JobId)
    requires Reached(s) && Once(s, j) && Runs(s, steps) && SafeRun(s, steps, j)
    ensures Once(After(s, steps), j) && Reached(After(s, steps))
    decreases |steps|
  {
    if steps != [] {
      NextKeepsOnce(s, steps[0], j);
      NextKeepsReached(s, steps[0]);
      SafeRunsKeepOnce(Next(s, steps[0]), steps[1..], j);
    }
  }

  /** In every run whose steps are safe for a job its pre-charge is settled at most once, whatever happens to other
      jobs and whichever calls, marks and processes are lost. */
  lemma SettledAtMostOnce(now: Time, month: Month, steps: seq<Step>, j: JobId)
    requires Runs(Initial(now, month), steps) && SafeRun(Initial(now, month), steps, j)
    requires j in After(Initial(now, month), steps).db.jobs
    ensures 0 <= Settlements(After(Initial(now, month), steps).book, j) <= 1
  {
    SafeRunsKeepOnce(Initial(now, month), steps, j);
  }
}
