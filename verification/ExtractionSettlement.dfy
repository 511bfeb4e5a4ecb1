/** Budget settlement: when the account of a job matches its row, and the exact condition on the next step. */
module ExtractionSettlement {
  import opened ExtractionJobs
  import opened ExtractionRuns
  import opened ExtractionBudget
  import opened ExtractionClaims

  // ------------------------------------------------------------------
  // Accounts
  // ------------------------------------------------------------------

  /** The balance of a pre-charge when the estimate was `pre` cents. */
  function Net(entries: seq<Entry>, pre: int): int {
    if entries == [] then 0
    else (match entries[0].amount case Estimate => pre case Actual(c) => c - pre) + Net(entries[1..], pre)
  }

  lemma NetOfAccounts(book: Book, j: JobId, cents: nat, pre: int)
    ensures Unsettled(book, j) ==> Net(book[j], pre) == pre
    ensures SettledFor(book, j, cents) ==> Net(book[j], pre) == cents
  {
    if SettledFor(book, j, cents) {
      assert Net(book[j][1..], pre) == cents - pre + Net(book[j][1..][1..], pre);
    }
  }

  predicate Live(s: State, w: nat, j: JobId) {
    w < |s.workers| && s.workers[w].job == j && s.workers[w].pc != Gone
  }

  predicate NobodyOn(s: State, j: JobId) { forall w :: 0 <= w < |s.workers| ==> !Live(s, w, j) }

  predicate RefundingAt(s: State, w: nat, j: JobId) { Live(s, w, j) && s.workers[w].pc.Refunded? }
  predicate SkippingAt(s: State, w: nat, j: JobId) { Live(s, w, j) && s.workers[w].pc.SkipMarked? }

  /** A worker has handled the refund of the job and is about to mark it failed. */
  predicate Refunding(s: State, j: JobId) { exists w :: 0 <= w < |s.workers| && RefundingAt(s, w, j) }

  /** A worker has marked the job completed without a topic and is about to refund it. */
  predicate Skipping(s: State, j: JobId) { exists w :: 0 <= w < |s.workers| && SkippingAt(s, w, j) }

  /** The account matches the row at every moment: a completed job has cost what its row says, a failed one nothing,
      or still the estimate when its refund was skipped, and an active one holds the estimate. Only while a worker or
      a sweep is between its two writes may one side be ahead of the other. */
  predicate Balanced(s: State, j: JobId) {
    j in s.db.jobs ==>
      var row := s.db.jobs[j];
      match row.status
      case Completed => SettledFor(s.book, j, row.centsSpent) || (Unsettled(s.book, j) && row.centsSpent == 0 && Skipping(s, j))
      case Failed => SettledFor(s.book, j, 0) || (Unsettled(s.book, j) && (Owed(s, j) || j in s.skippedRefunds))
      case _ => Unsettled(s.book, j) || (SettledFor(s.book, j, 0) && Refunding(s, j))
  }

  // ------------------------------------------------------------------
  // Sound steps
  // ------------------------------------------------------------------

  /** The failure mark of this worker is the only thing that will bring the row in line with its account. */
  predicate LastToMark(s: State, w: nat, j: JobId) {
    && RefundingAt(s, w, j) && j in s.db.jobs && Active(s.db.jobs[j]) && !Unsettled(s.book, j)
    && forall v :: 0 <= v < |s.workers| && v != w ==> !RefundingAt(s, v, j)
  }

  /** The job has failed and its refund was skipped, so its account need not be settled. */
  predicate Excused(s: State, j: JobId) { j in s.db.jobs && s.db.jobs[j].status == Failed && j in s.skippedRefunds }

  /** What must not happen to job `j`: to be started beside a live worker or once it is settled or owed (unless its
      conversation is processed), to be swept when it is not free, or to lose one of two writes that belong together. */
  predicate SoundFor(s: State, step: Step, j: JobId)
    requires Enabled(s, step)
  {
    match step
    case Start(k) =>
      k == j ==> s.db.jobs[j].key.conv in s.db.processed || (NobodyOn(s, j) && Unsettled(s.book, j) && !Owed(s, j))
    case SweepPending(minutes) => j in s.db.jobs && StalePending(s.now, minutes)(s.db.jobs[j]) ==> Free(s, j)
    case SweepRunning => j in s.db.jobs && StaleRunning(s.now)(s.db.jobs[j]) ==> Free(s, j)
    case Phase3(w, Persists(_, paid, commits)) =>
      s.workers[w].job == j && s.workers[w].conv !in s.db.processed ==> paid == commits
    case SettleSkipped(w, ok) => s.workers[w].job == j ==> ok || Excused(s, j)
    case RefundFailure(w, ok) => s.workers[w].job == j ==> ok || !s.workers[w].pc.known
    case MarkFailure(w, _, ok) => s.workers[w].job == j ==> ok || !LastToMark(s, w, j)
    case Die(w) => s.workers[w].job == j ==> !LastToMark(s, w, j) && (s.workers[w].pc.SkipMarked? ==> Excused(s, j))
    case RefundSwept(k, _, ok) => k == j ==> ok || j in s.skippedRefunds
    case SweeperDies(k, _) => k == j ==> j in s.skippedRefunds
    case _ => true
  }

  ghost predicate SoundRun(s: State, steps: seq<Step>, j: JobId)
    requires Runs(s, steps)
    decreases |steps|
  {
    steps == [] || (SoundFor(s, steps[0], j) && SoundRun(Next(s, steps[0]), steps[1..], j))
  }

  lemma SoundIsSafe(s: State, step: Step, j: JobId)
    requires Enabled(s, step) && SoundFor(s, step, j)
    ensures SafeFor(s, step, j)
  {
    if step == Start(j) && NobodyOn(s, j) {
      forall w | 0 <= w < |s.workers| ensures !Claims(s, w, j) {
        assert !Live(s, w, j);
      }
    }
  }

  // ------------------------------------------------------------------
  // The invariant
  // ------------------------------------------------------------------

  /** What the program counter of a live worker says about its job's row and account. */
  predicate PcFits(s: State, pc: WorkerPc, j: JobId)
    requires j in s.db.jobs
  {
    var row := s.db.jobs[j];
    var processed := row.key.conv in s.db.processed;
    && (CanSettle(pc, processed) && !pc.SkipMarked? ==> row.status != Completed)
    && (!processed && (pc.Loaded? || pc.Untopical? || pc.Extracted?) ==> row.status == Running)
    && (pc.SkipMarked? ==> processed && (row.status == Failed || (row.status == Completed && row.centsSpent == 0)))
    && (pc.Refunded? && Active(row) ==> SettledFor(s.book, j, 0) || (Unsettled(s.book, j) && j in s.skippedRefunds))
  }

  /** Until its conversation is processed a job has one live worker at most. */
  predicate AloneUnlessProcessed(s: State, j: JobId)
    requires j in s.db.jobs
  {
    s.db.jobs[j].key.conv in s.db.processed
    || forall v, w :: 0 <= v < w < |s.workers| ==> !(Live(s, v, j) && Live(s, w, j))
  }

  predicate WorkersFit(s: State, j: JobId)
    requires j in s.db.jobs
  {
    forall w :: 0 <= w < |s.workers| && s.workers[w].job == j ==> PcFits(s, s.workers[w].pc, j)
  }

  ghost predicate Steady(s: State, j: JobId) {
    && Once(s, j)
    && Balanced(s, j)
    && (j in s.db.jobs ==>
          && (Owed(s, j) ==> s.db.jobs[j].status == Failed)
          && AloneUnlessProcessed(s, j) && WorkersFit(s, j))
  }

  // ------------------------------------------------------------------
  // Steps of the job's own workers
  // ------------------------------------------------------------------

  /** How one worker step of job `j` changes the row, the account and the skip of `j`. */
  lemma OwnStepFrame(s: State, step: Step, j: JobId)
    requires Enabled(s, step) && WorkerMoves(step) && j in s.db.jobs && s.workers[step.worker].job == j
    ensures var s1 := Next(s, step);
      && s1.owed == s.owed && |s1.workers| == |s.workers| && j in s1.db.jobs
      && (forall v :: 0 <= v < |s.workers| && v != step.worker ==> s1.workers[v] == s.workers[v])
      && s1.workers[step.worker] == s.workers[step.worker].(pc := WorkerPcAfter(s, step))
      && s1.db.jobs[j].key == s.db.jobs[j].key && s1.db.jobs[j].periodStart == s.db.jobs[j].periodStart
      && s.db.processed <= s1.db.processed
  {
  }

  predicate MovesFor(s: State, step: Step, j: JobId) {
    Enabled(s, step) && WorkerMoves(step) && s.workers[step.worker].job == j
  }

  /** A steady state and an enabled step of one of the job's workers. */
  ghost predicate OwnState(s: State, step: Step, j: JobId) {
    MovesFor(s, step, j) && j in s.db.jobs && Reached(s) && Steady(s, j)
  }

  ghost predicate OwnStep(s: State, step: Step, j: JobId) { OwnState(s, step, j) && SoundFor(s, step, j) }

  /** The worker's conversation is its job's. */
  lemma OwnConv(s: State, step: Step, j: JobId)
    requires OwnStep(s, step, j)
    ensures s.workers[step.worker].conv == s.db.jobs[j].key.conv
    ensures PcFits(s, s.workers[step.worker].pc, j)
  {
    assert Placed(s, step.worker);
  }

  lemma AloneStays(s: State, step: Step, j: JobId)
    requires OwnStep(s, step, j)
    ensures j in Next(s, step).db.jobs && AloneUnlessProcessed(Next(s, step), j)
  {
    OwnStepFrame(s, step, j);
    var s1 := Next(s, step);
    assert s.workers[step.worker].pc != Gone;
    forall v | 0 <= v < |s.workers| && Live(s1, v, j) ensures Live(s, v, j) {
    }
  }

  /** Loading, calling the model: the account, the skips and the processed mark stay as they are. */
  lemma AttemptStepFits(s: State, step: Step, j: JobId)
    requires OwnStep(s, step, j) && (step.Load? || step.CallLlm?)
    ensures j in Next(s, step).db.jobs && WorkersFit(Next(s, step), j)
  {
    OwnConv(s, step, j);
    OwnStepFrame(s, step, j);
    var s1 := Next(s, step);
    forall v | 0 <= v < |s1.workers| && s1.workers[v].job == j ensures PcFits(s1, s1.workers[v].pc, j) {
      assert PcFits(s, s.workers[v].pc, j);
      if v != step.worker && s.workers[v].pc != Gone {
        assert Live(s, v, j) && Live(s, step.worker, j);
      }
    }
  }

  lemma AttemptStepBalances(s: State, step: Step, j: JobId)
    requires OwnStep(s, step, j) && (step.Load? || step.CallLlm?)
    ensures Balanced(Next(s, step), j)
  {
    OwnConv(s, step, j);
    OwnStepFrame(s, step, j);
    var s1, w := Next(s, step), step.worker;
    assert Claims(s, w, j) || s1.db == s.db;
    forall v | 0 <= v < |s.workers| && (RefundingAt(s, v, j) || SkippingAt(s, v, j))
      ensures v != w && s1.workers[v] == s.workers[v]
    {
    }
    forall v | 0 <= v < |s.workers| ensures RefundingAt(s, v, j) ==> RefundingAt(s1, v, j) {
    }
    forall v | 0 <= v < |s.workers| ensures SkippingAt(s, v, j) ==> SkippingAt(s1, v, j) {
    }
  }

  /** A worker that has a claim is the only one that has. */
  lemma SoleClaim(s: State, w: nat, j: JobId)
    requires Once(s, j) && j in s.db.jobs && Claims(s, w, j)
    ensures |s.book[j]| == 1 && !Owed(s, j)
    ensures forall v :: 0 <= v < |s.workers| && v != w ==> !Claims(s, v, j)
  {
  }

  lemma SkipMarkFits(s: State, step: Step, j: JobId)
    requires OwnStep(s, step, j) && step.MarkSkipped?
    ensures j in Next(s, step).db.jobs && WorkersFit(Next(s, step), j) && Balanced(Next(s, step), j)
  {
    OwnConv(s, step, j);
    OwnStepFrame(s, step, j);
    var s1, w := Next(s, step), step.worker;
    assert Claims(s, w, j);
    SoleClaim(s, w, j);
    assert Opened(s.book[j]);
    forall v | 0 <= v < |s1.workers| && s1.workers[v].job == j ensures PcFits(s1, s1.workers[v].pc, j) {
      assert PcFits(s, s.workers[v].pc, j) && Placed(s, v);
      assert v != w ==> !Claims(s, v, j);
    }
    assert step.ok ==> SkippingAt(s1, w, j);
  }

  lemma Phase3Fits(s: State, step: Step, j: JobId)
    requires OwnStep(s, step, j) && step.Phase3?
    ensures j in Next(s, step).db.jobs && WorkersFit(Next(s, step), j)
  {
    OwnConv(s, step, j);
    OwnStepFrame(s, step, j);
    var s1, w := Next(s, step), step.worker;
    forall v | 0 <= v < |s1.workers| && s1.workers[v].job == j ensures PcFits(s1, s1.workers[v].pc, j) {
      assert PcFits(s, s.workers[v].pc, j) && Placed(s, v);
      if v != w && s.workers[v].pc != Gone && s.workers[w].conv !in s.db.processed {
        assert Live(s, v, j) && Live(s, w, j);
      }
    }
  }

  lemma Phase3Balances(s: State, step: Step, j: JobId)
    requires OwnStep(s, step, j) && step.Phase3?
    ensures Balanced(Next(s, step), j)
  {
    OwnConv(s, step, j);
    OwnStepFrame(s, step, j);
    var s1, w := Next(s, step), step.worker;
    if s.workers[w].conv in s.db.processed {
      OthersInProgress(s, step, j);
    } else {
      assert Claims(s, w, j);
      SoleClaim(s, w, j);
      assert Opened(s.book[j]);
    }
  }

  /** A worker that is between no two writes leaves those that are where they are. */
  lemma OthersInProgress(s: State, step: Step, j: JobId)
    requires Enabled(s, step) && WorkerMoves(step) && s.workers[step.worker].job == j
    ensures !s.workers[step.worker].pc.Refunded? && Refunding(s, j) ==> Refunding(Next(s, step), j)
    ensures !s.workers[step.worker].pc.SkipMarked? && Skipping(s, j) ==> Skipping(Next(s, step), j)
  {
    var s1, w := Next(s, step), step.worker;
    if !s.workers[w].pc.Refunded? && Refunding(s, j) {
      var v :| 0 <= v < |s.workers| && RefundingAt(s, v, j);
      assert RefundingAt(s1, v, j);
    }
    if !s.workers[w].pc.SkipMarked? && Skipping(s, j) {
      var v :| 0 <= v < |s.workers| && SkippingAt(s, v, j);
      assert SkippingAt(s1, v, j);
    }
  }

  lemma RefundFits(s: State, step: Step, j: JobId)
    requires OwnStep(s, step, j) && step.RefundFailure?
    ensures j in Next(s, step).db.jobs && WorkersFit(Next(s, step), j)
  {
    OwnConv(s, step, j);
    OwnStepFrame(s, step, j);
    var s1, w := Next(s, step), step.worker;
    assert Opened(s.book[j]);
    if s.workers[w].pc.known {
      assert Claims(s, w, j);
      SoleClaim(s, w, j);
    }
    forall v | 0 <= v < |s1.workers| && s1.workers[v].job == j ensures PcFits(s1, s1.workers[v].pc, j) {
      assert PcFits(s, s.workers[v].pc, j);
    }
  }

  lemma RefundBalances(s: State, step: Step, j: JobId)
    requires OwnStep(s, step, j) && step.RefundFailure?
    ensures Balanced(Next(s, step), j)
  {
    OwnConv(s, step, j);
    OwnStepFrame(s, step, j);
    OthersInProgress(s, step, j);
    var s1, w := Next(s, step), step.worker;
    assert RefundingAt(s1, w, j);
    assert Opened(s.book[j]);
    if s.workers[w].pc.known {
      assert Claims(s, w, j);
      SoleClaim(s, w, j);
    }
  }

  lemma FailureMarkFits(s: State, step: Step, j: JobId)
    requires OwnStep(s, step, j) && step.MarkFailure?
    ensures j in Next(s, step).db.jobs && WorkersFit(Next(s, step), j)
  {
    OwnConv(s, step, j);
    OwnStepFrame(s, step, j);
    var s1, w := Next(s, step), step.worker;
    forall v | 0 <= v < |s1.workers| && s1.workers[v].job == j ensures PcFits(s1, s1.workers[v].pc, j) {
      assert PcFits(s, s.workers[v].pc, j);
      if v != w && s.workers[v].pc != Gone {
        assert Live(s, v, j) && Live(s, w, j);
      }
    }
  }

  lemma FailureMarkBalances(s: State, step: Step, j: JobId)
    requires OwnStep(s, step, j) && step.MarkFailure?
    ensures Balanced(Next(s, step), j)
  {
    OwnConv(s, step, j);
    OwnStepFrame(s, step, j);
    OthersInProgress(s, step, j);
    if !step.ok && Active(s.db.jobs[j]) && !Unsettled(s.book, j) {
      LeavesRefunding(s, step, j);
    }
  }

  /** After the last step of a refunded worker somebody else is still refunding, unless it was the last to mark. */
  lemma LeavesRefunding(s: State, step: Step, j: JobId)
    requires Enabled(s, step) && WorkerMoves(step) && s.workers[step.worker].job == j && j in s.db.jobs
    requires s.workers[step.worker].pc.Refunded? && Active(s.db.jobs[j]) && !Unsettled(s.book, j)
    requires !LastToMark(s, step.worker, j)
    ensures Refunding(Next(s, step), j)
  {
    var w := step.worker;
    assert RefundingAt(s, w, j);
    var v :| 0 <= v < |s.workers| && v != w && RefundingAt(s, v, j);
    assert RefundingAt(Next(s, step), v, j);
  }

  lemma SettleFits(s: State, step: Step, j: JobId)
    requires OwnStep(s, step, j) && step.SettleSkipped?
    ensures j in Next(s, step).db.jobs && WorkersFit(Next(s, step), j) && Balanced(Next(s, step), j)
  {
    OwnConv(s, step, j);
    OwnStepFrame(s, step, j);
    var s1, w := Next(s, step), step.worker;
    assert Claims(s, w, j);
    SoleClaim(s, w, j);
    assert Opened(s.book[j]);
    forall v | 0 <= v < |s1.workers| && s1.workers[v].job == j ensures PcFits(s1, s1.workers[v].pc, j) {
      assert PcFits(s, s.workers[v].pc, j);
    }
  }

  lemma DeathFits(s: State, step: Step, j: JobId)
    requires OwnStep(s, step, j) && step.Die?
    ensures j in Next(s, step).db.jobs && WorkersFit(Next(s, step), j)
  {
    OwnStepFrame(s, step, j);
    var s1 := Next(s, step);
    forall v | 0 <= v < |s1.workers| && s1.workers[v].job == j ensures PcFits(s1, s1.workers[v].pc, j) {
      assert PcFits(s, s.workers[v].pc, j);
    }
  }

  lemma DeathBalances(s: State, step: Step, j: JobId)
    requires OwnStep(s, step, j) && step.Die?
    ensures Balanced(Next(s, step), j)
  {
    OwnConv(s, step, j);
    OwnStepFrame(s, step, j);
    OthersInProgress(s, step, j);
    var s1, w := Next(s, step), step.worker;
    if s.workers[w].pc.SkipMarked? {
      assert Claims(s, w, j);
      SoleClaim(s, w, j);
    } else if s.workers[w].pc.Refunded? && Active(s.db.jobs[j]) && !Unsettled(s.book, j) {
      LeavesRefunding(s, step, j);
    }
  }

  lemma OwnStepIsSteady(s: State, step: Step, j: JobId)
    requires OwnStep(s, step, j)
    ensures Steady(Next(s, step), j)
  {
    SoundIsSafe(s, step, j);
    NextKeepsOnce(s, step, j);
    AloneStays(s, step, j);
    OwnStepKeepsOwed(s, step, j);
    if step.Load? || step.CallLlm? {
      AttemptStepFits(s, step, j);
      AttemptStepBalances(s, step, j);
    } else if step.MarkSkipped? {
      SkipMarkFits(s, step, j);
    } else if step.SettleSkipped? {
      SettleFits(s, step, j);
    } else if step.Phase3? {
      Phase3Fits(s, step, j);
      Phase3Balances(s, step, j);
    } else if step.RefundFailure? {
      RefundFits(s, step, j);
      RefundBalances(s, step, j);
    } else if step.MarkFailure? {
      FailureMarkFits(s, step, j);
      FailureMarkBalances(s, step, j);
    } else {
      DeathFits(s, step, j);
      DeathBalances(s, step, j);
    }
  }

  lemma OwnStepKeepsOwed(s: State, step: Step, j: JobId)
    requires OwnStep(s, step, j)
    ensures j in Next(s, step).db.jobs
    ensures Owed(Next(s, step), j) ==> Next(s, step).db.jobs[j].status == Failed
  {
    OwnConv(s, step, j);
    OwnStepFrame(s, step, j);
    if Owed(s, j) {
      assert !Claims(s, step.worker, j);
    }
  }

  // ------------------------------------------------------------------
  // Everybody else's steps
  // ------------------------------------------------------------------

  /** The row, the account, the debt and the skip of `j` are as they were; its conversation may have been processed. */
  predicate RowUntouched(s: State, t: State, j: JobId) {
    && j in s.db.jobs && j in t.db.jobs && t.db.jobs[j] == s.db.jobs[j]
    && j in s.book && j in t.book && t.book[j] == s.book[j]
    && (Owed(t, j) <==> Owed(s, j)) && (j in t.skippedRefunds <==> j in s.skippedRefunds)
    && s.db.processed <= t.db.processed
  }

  /** The workers of `j` are as they were, and it has no new one. */
  predicate WorkersUntouched(s: State, t: State, j: JobId) {
    && |s.workers| <= |t.workers|
    && (forall w :: 0 <= w < |s.workers| && (s.workers[w].job == j || t.workers[w].job == j) ==> t.workers[w] == s.workers[w])
    && (forall w :: |s.workers| <= w < |t.workers| ==> t.workers[w].job != j)
  }

  predicate Untouched(s: State, t: State, j: JobId) { RowUntouched(s, t, j) && WorkersUntouched(s, t, j) }

  lemma UntouchedBalances(s: State, t: State, j: JobId)
    requires Untouched(s, t, j) && Balanced(s, j)
    ensures Balanced(t, j)
  {
    if Refunding(s, j) {
      var w :| 0 <= w < |s.workers| && RefundingAt(s, w, j);
      assert RefundingAt(t, w, j);
    }
    if Skipping(s, j) {
      var w :| 0 <= w < |s.workers| && SkippingAt(s, w, j);
      assert SkippingAt(t, w, j);
    }
  }

  lemma UntouchedFits(s: State, t: State, j: JobId)
    requires Untouched(s, t, j) && WorkersFit(s, j) && AloneUnlessProcessed(s, j)
    ensures WorkersFit(t, j) && AloneUnlessProcessed(t, j)
  {
    forall w | 0 <= w < |t.workers| && t.workers[w].job == j ensures PcFits(t, t.workers[w].pc, j) {
      assert t.workers[w] == s.workers[w] && PcFits(s, s.workers[w].pc, j);
    }
    forall w | 0 <= w < |t.workers| && Live(t, w, j) ensures Live(s, w, j) {
      assert t.workers[w] == s.workers[w];
    }
  }

  lemma UntouchedIsSteady(s: State, step: Step, j: JobId)
    requires Reached(s) && Steady(s, j) && Enabled(s, step) && SoundFor(s, step, j) && Untouched(s, Next(s, step), j)
    ensures Steady(Next(s, step), j)
  {
    SoundIsSafe(s, step, j);
    NextKeepsOnce(s, step, j);
    UntouchedBalances(s, Next(s, step), j);
    UntouchedFits(s, Next(s, step), j);
  }

  lemma ForeignWorkerLeavesJob(s: State, step: Step, j: JobId)
    requires Enabled(s, step) && WorkerMoves(step) && j in s.db.jobs && s.workers[step.worker].job != j
    ensures j in DbAfter(s, step).jobs && DbAfter(s, step).jobs[j] == s.db.jobs[j]
    ensures s.db.processed <= DbAfter(s, step).processed
  {
  }

  lemma ForeignWorkerLeavesBook(s: State, step: Step, j: JobId)
    requires Enabled(s, step) && WorkerMoves(step) && s.workers[step.worker].job != j
    ensures Posting(s, step).None? || Posting(s, step).value.0 != j
    ensures OwedAfter(s, step) == s.owed
    ensures j in SkippedAfter(s, step) <==> j in s.skippedRefunds
  {
  }

  lemma ForeignWorkerLeavesRow(s: State, step: Step, j: JobId)
    requires Enabled(s, step) && WorkerMoves(step) && j in s.db.jobs && j in s.book && s.workers[step.worker].job != j
    ensures RowUntouched(s, Next(s, step), j)
  {
    ForeignWorkerLeavesJob(s, step, j);
    ForeignWorkerLeavesBook(s, step, j);
    var s1 := Next(s, step);
    assert s1.db == DbAfter(s, step) && s1.book == Posted(s.book, Posting(s, step));
    assert s1.owed == OwedAfter(s, step) && s1.skippedRefunds == SkippedAfter(s, step);
  }

  lemma ForeignWorkerLeavesWorkers(s: State, step: Step, j: JobId)
    requires Enabled(s, step) && WorkerMoves(step) && s.workers[step.worker].job != j
    ensures WorkersUntouched(s, Next(s, step), j)
  {
  }

  lemma IngestLeavesRow(s: State, step: Step, j: JobId)
    requires Reached(s) && Enabled(s, step) && j in s.db.jobs && j in s.book && IngestMoves(step)
    ensures RowUntouched(s, Next(s, step), j)
  {
    assert ChargeHeld(s, step.ingest);
    assert Posting(s, step).Some? ==> Posting(s, step).value.0 != j;
    assert j in DbAfter(s, step).jobs && DbAfter(s, step).jobs[j] == s.db.jobs[j];
  }

  /** Steps of requests, of sweepers of other jobs, and of the clock. */
  predicate ElsewhereFor(step: Step, j: JobId) {
    || IngestMoves(step) || step.BeginIngest? || step.Tick?
    || (step.RefundSwept? && step.job != j) || (step.SweeperDies? && step.job != j)
  }

  lemma ElsewhereUntouches(s: State, step: Step, j: JobId)
    requires Reached(s) && Enabled(s, step) && j in s.db.jobs && j in s.book && ElsewhereFor(step, j)
    ensures Untouched(s, Next(s, step), j)
  {
    assert Next(s, step).workers == s.workers;
    if IngestMoves(step) {
      IngestLeavesRow(s, step, j);
    } else {
      assert DbAfter(s, step) == s.db;
    }
  }

  predicate SweepsJob(s: State, step: Step, j: JobId) {
    && j in s.db.jobs
    && ((step.SweepPending? && StalePending(s.now, step.minutes)(s.db.jobs[j])) || (step.SweepRunning? && StaleRunning(s.now)(s.db.jobs[j])))
  }

  lemma OtherSweepUntouches(s: State, step: Step, j: JobId)
    requires Reached(s) && Enabled(s, step) && j in s.db.jobs && j in s.book
    requires (step.SweepPending? || step.SweepRunning?) && !SweepsJob(s, step, j)
    ensures Untouched(s, Next(s, step), j)
  {
  }

  /** Another job's worker is started. */
  lemma OtherStartUntouches(s: State, step: Step, j: JobId)
    requires Enabled(s, step) && step.Start? && step.job != j && j in s.db.jobs && j in s.book
    ensures Untouched(s, Next(s, step), j)
  {
  }

  lemma StartIsSteady(s: State, j: JobId)
    requires Reached(s) && Steady(s, j) && j in s.db.jobs && SoundFor(s, Start(j), j)
    ensures Steady(Next(s, Start(j)), j)
  {
    var s1 := Next(s, Start(j));
    SoundIsSafe(s, Start(j), j);
    NextKeepsOnce(s, Start(j), j);
    forall w | 0 <= w < |s.workers| ensures s1.workers[w] == s.workers[w] && (Live(s1, w, j) <==> Live(s, w, j)) {
    }
    StartBalances(s, s1, j);
    forall w | 0 <= w < |s1.workers| && s1.workers[w].job == j ensures PcFits(s1, s1.workers[w].pc, j) {
      if w < |s.workers| {
        assert PcFits(s, s.workers[w].pc, j);
      }
    }
  }

  lemma StartBalances(s: State, s1: State, j: JobId)
    requires Balanced(s, j) && s1.db == s.db && s1.book == s.book && s1.owed == s.owed && s1.skippedRefunds == s.skippedRefunds
    requires |s.workers| <= |s1.workers| && forall w :: 0 <= w < |s.workers| ==> s1.workers[w] == s.workers[w]
    ensures Balanced(s1, j)
  {
    if Refunding(s, j) {
      var w :| 0 <= w < |s.workers| && RefundingAt(s, w, j);
      assert RefundingAt(s1, w, j);
    }
    if Skipping(s, j) {
      var w :| 0 <= w < |s.workers| && SkippingAt(s, w, j);
      assert SkippingAt(s1, w, j);
    }
  }

  /** What a sweep does to the job it fails. */
  lemma SweepMoves(s: State, step: Step, j: JobId)
    requires Enabled(s, step) && SweepsJob(s, step, j)
    ensures var s1 := Next(s, step); var row := (j, s.db.jobs[j].periodStart);
      && Active(s.db.jobs[j])
      && j in s1.db.jobs && s1.db.jobs[j].status == Failed && s1.db.jobs[j].key == s.db.jobs[j].key
      && s1.db.jobs[j].periodStart == s.db.jobs[j].periodStart
      && Owed(s1, j) && s1.owed[row] == s.owed[row] + 1 && j !in s1.skippedRefunds
      && s1.book == s.book && s1.workers == s.workers && s1.db.processed == s.db.processed
  {
    var row := (j, s.db.jobs[j].periodStart);
    if step.SweepPending? {
      assert row in Returned(s.db.jobs, StalePending(s.now, step.minutes));
    } else {
      assert row in Returned(s.db.jobs, StaleRunning(s.now));
    }
  }

  lemma SweepIsSteady(s: State, step: Step, j: JobId)
    requires Reached(s) && Steady(s, j) && Enabled(s, step) && SweepsJob(s, step, j) && SoundFor(s, step, j)
    ensures Steady(Next(s, step), j)
  {
    var s1 := Next(s, step);
    SoundIsSafe(s, step, j);
    NextKeepsOnce(s, step, j);
    SweepMoves(s, step, j);
    forall w | 0 <= w < |s1.workers| ensures Live(s1, w, j) <==> Live(s, w, j) {
    }
    forall w | 0 <= w < |s1.workers| && s1.workers[w].job == j ensures PcFits(s1, s1.workers[w].pc, j) {
      assert PcFits(s, s.workers[w].pc, j) && !Claims(s, w, j) && Placed(s, w);
    }
  }

  lemma SweepRefundIsSteady(s: State, step: Step, j: JobId)
    requires Reached(s) && Steady(s, j) && Enabled(s, step) && SoundFor(s, step, j)
    requires (step.RefundSwept? || step.SweeperDies?) && step.job == j
    ensures Steady(Next(s, step), j)
  {
    var s1 := Next(s, step);
    SoundIsSafe(s, step, j);
    NextKeepsOnce(s, step, j);
    assert Owed(s, j) && Opened(s.book[j]) && s1.db == s.db && s1.workers == s.workers;
    forall w | 0 <= w < |s1.workers| ensures Live(s1, w, j) <==> Live(s, w, j) {
    }
    forall w | 0 <= w < |s1.workers| && s1.workers[w].job == j ensures PcFits(s1, s1.workers[w].pc, j) {
      assert PcFits(s, s.workers[w].pc, j);
    }
  }

  lemma NewRowIsSteady(s: State, step: Step, j: JobId)
    requires Reached(s) && Enabled(s, step) && step.Insert? && j !in s.db.jobs && j in Next(s, step).db.jobs
    ensures Steady(Next(s, step), j)
  {
    var s1 := Next(s, step);
    NewRowIsOnce(s, step, j);
    assert ChargeHeld(s, step.ingest);
    assert s1.book == s.book && s1.workers == s.workers && s1.owed == s.owed;
    forall w | 0 <= w < |s1.workers| ensures s1.workers[w].job != j {
      assert Placed(s, w);
    }
    assert (j, s1.db.jobs[j].periodStart) !in s.owed;
  }

  lemma NextIsSteady(s: State, step: Step, j: JobId)
    requires Reached(s) && Steady(s, j) && Enabled(s, step) && SoundFor(s, step, j)
    ensures Steady(Next(s, step), j)
  {
    if j !in s.db.jobs {
      if !step.Insert? {
        NoNewRows(s, step);
      } else if j in Next(s, step).db.jobs {
        NewRowIsSteady(s, step, j);
      }
    } else if WorkerMoves(step) {
      if s.workers[step.worker].job == j {
        OwnStepIsSteady(s, step, j);
      } else {
        ForeignWorkerLeavesRow(s, step, j);
        ForeignWorkerLeavesWorkers(s, step, j);
        UntouchedIsSteady(s, step, j);
      }
    } else if step == Start(j) {
      StartIsSteady(s, j);
    } else if SweepsJob(s, step, j) {
      SweepIsSteady(s, step, j);
    } else if (step.RefundSwept? || step.SweeperDies?) && step.job == j {
      SweepRefundIsSteady(s, step, j);
    } else {
      RestUntouches(s, step, j);
      UntouchedIsSteady(s, step, j);
    }
  }

  lemma RestUntouches(s: State, step: Step, j: JobId)
    requires Reached(s) && Enabled(s, step) && j in s.db.jobs && j in s.book
    requires !WorkerMoves(step) && step != Start(j) && !SweepsJob(s, step, j)
    requires (step.RefundSwept? || step.SweeperDies?) ==> step.job != j
    ensures Untouched(s, Next(s, step), j)
  {
    if step.Start? {
      OtherStartUntouches(s, step, j);
    } else if step.SweepPending? || step.SweepRunning? {
      OtherSweepUntouches(s, step, j);
    } else {
      ElsewhereUntouches(s, step, j);
    }
  }

  lemma {:induction false} SoundRunsAreSteady(s: State, steps: seq<Step>, j: JobId)
    requires Reached(s) && Steady(s, j) && Runs(s, steps) && SoundRun(s, steps, j)
    ensures Steady(After(s, steps), j) && Reached(After(s, steps))
    decreases |steps|
  {
    if steps != [] {
      NextIsSteady(s, steps[0], j);
      NextKeepsReached(s, steps[0]);
      SoundRunsAreSteady(Next(s, steps[0]), steps[1..], j);
    }
  }

  /** In every run that is sound for a job, whatever happens to the others: once nobody is between its two writes for
      it, a completed job has cost what its row says, a failed one nothing or, with its refund skipped, the estimate,
      and an active one holds the estimate. */
  lemma SettledForTheRightAmount(now: Time, month: Month, steps: seq<Step>, j: JobId, pre: int)
    requires Runs(Initial(now, month), steps) && SoundRun(Initial(now, month), steps, j)
    requires j in After(Initial(now, month), steps).db.jobs
    ensures var s := After(Initial(now, month), steps);
      && Balanced(s, j) && j in s.book
      && (!Refunding(s, j) && !Skipping(s, j) && !Owed(s, j) ==>
            match s.db.jobs[j].status
            case Completed => Net(s.book[j], pre) == s.db.jobs[j].centsSpent
            case Failed => Net(s.book[j], pre) == 0 || (j in s.skippedRefunds && Net(s.book[j], pre) == pre)
            case _ => Net(s.book[j], pre) == pre)
  {
    SoundRunsAreSteady(Initial(now, month), steps, j);
    var s := After(Initial(now, month), steps);
    NetOfAccounts(s.book, j, 0, pre);
    NetOfAccounts(s.book, j, s.db.jobs[j].centsSpent, pre);
  }

  /** A worker of the job fails before the period is read: it could not connect, or the row could not be revived. */
  ghost predicate FailsEarly(s: State, step: Step, j: JobId)
    requires Enabled(s, step)
  {
    step.Load? && s.workers[step.worker].job == j && WorkerPcAfter(s, step).Failing? && !WorkerPcAfter(s, step).known
  }

  ghost predicate EverFailsEarly(s: State, steps: seq<Step>, j: JobId)
    requires Runs(s, steps)
    decreases |steps|
  {
    steps != [] && (FailsEarly(s, steps[0], j) || EverFailsEarly(Next(s, steps[0]), steps[1..], j))
  }

  predicate PeriodKnown(s: State, j: JobId) {
    && j !in s.skippedRefunds
    && forall w :: 0 <= w < |s.workers| && s.workers[w].job == j && s.workers[w].pc.Failing? ==> s.workers[w].pc.known
  }

  lemma PeriodStaysKnown(s: State, step: Step, j: JobId)
    requires PeriodKnown(s, j) && Enabled(s, step) && !FailsEarly(s, step, j)
    ensures PeriodKnown(Next(s, step), j)
  {
    var s1 := Next(s, step);
    forall w | 0 <= w < |s1.workers| && s1.workers[w].job == j && s1.workers[w].pc.Failing? ensures s1.workers[w].pc.known {
      if WorkerMoves(step) && step.worker == w {
        assert s1.workers[w].pc == WorkerPcAfter(s, step);
      } else {
        assert w < |s.workers| && s1.workers[w] == s.workers[w];
      }
    }
  }

  /** Only an early failure of one of its own workers makes the refund of a job be skipped. */
  lemma {:induction false} OnlyEarlyFailuresSkipRefunds(s: State, steps: seq<Step>, j: JobId)
    requires PeriodKnown(s, j) && Runs(s, steps) && !EverFailsEarly(s, steps, j)
    ensures j !in After(s, steps).skippedRefunds
    decreases |steps|
  {
    if steps != [] {
      PeriodStaysKnown(s, steps[0], j);
      OnlyEarlyFailuresSkipRefunds(Next(s, steps[0]), steps[1..], j);
    }
  }
}
