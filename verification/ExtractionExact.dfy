/** The other half: from every reachable state a step that is not safe for a job has a continuation, blameless itself,
    that settles the job twice; and one that is not sound for it has a continuation that unbalances its account. So
    `ExtractionClaims.SafeFor` and `ExtractionSettlement.SoundFor` are exact conditions on the next step. */
module ExtractionExact {
  import opened ExtractionJobs
  import opened ExtractionRuns
  import opened ExtractionBudget
  import opened ExtractionClaims
  import opened ExtractionSettlement

  /** Nothing but the account of `j`, worker `w` and the bookkeeping of refunds differs. */
  ghost predicate OnlyBooked(s: State, t: State, j: JobId, w: nat, more: nat) {
    && t.db == s.db && t.now == s.now && t.owed == s.owed
    && |t.workers| == |s.workers| && (forall v :: 0 <= v < |s.workers| && v != w ==> t.workers[v] == s.workers[v])
    && j in s.book && j in t.book && |t.book[j]| == |s.book[j]| + more
  }

  predicate KnowsFailure(s: State, w: nat, j: JobId) {
    w < |s.workers| && s.workers[w].job == j && s.workers[w].pc.Failing? && s.workers[w].pc.known
  }

  /** The error that brings a worker with a claim to its failure path without touching the database. */
  function ErrorOf(pc: WorkerPc, w: nat): Step
    requires pc.Started? || pc.Loaded? || pc.Untopical? || pc.Extracted?
  {
    match pc
    case Started => Load(w, LateError)
    case Loaded(_) => CallLlm(w, LlmError)
    case Untopical(_) => MarkSkipped(w, false)
    case Extracted(_, _, _) => Phase3(w, PersistError)
  }

  predicate BeforeFailure(pc: WorkerPc) { pc.Started? || pc.Loaded? || pc.Untopical? || pc.Extracted? }

  /** The job's row could be revived now. */
  ghost predicate Revivable(s: State, j: JobId) { MarkRunning(s.db.jobs, j, s.now).Some? }

  lemma ErrorFails(s: State, w: nat, j: JobId)
    requires Claims(s, w, j) && BeforeFailure(s.workers[w].pc) && j in s.db.jobs && j in s.book
    requires s.workers[w].pc.Started? ==> Revivable(s, j)
    ensures var step := ErrorOf(s.workers[w].pc, w);
      && Enabled(s, step) && SoundFor(s, step, j)
      && KnowsFailure(Next(s, step), w, j) && OnlyBooked(s, Next(s, step), j, w, 0)
  {
  }

  /** The last call of a worker whose refund is due. */
  function RefundOf(pc: WorkerPc, w: nat): Step
    requires pc.Failing? || pc.SkipMarked?
  {
    if pc.Failing? then RefundFailure(w, true) else SettleSkipped(w, true)
  }

  lemma RefundBooks(s: State, w: nat, j: JobId)
    requires Claims(s, w, j) && !BeforeFailure(s.workers[w].pc) && j in s.book
    ensures var step := RefundOf(s.workers[w].pc, w);
      Enabled(s, step) && SoundFor(s, step, j) && OnlyBooked(s, Next(s, step), j, w, 1)
  {
  }

  lemma SoundThen(s: State, step: Step, rest: seq<Step>, j: JobId)
    requires Enabled(s, step) && SoundFor(s, step, j) && Runs(Next(s, step), rest) && SoundRun(Next(s, step), rest, j)
    ensures Runs(s, [step] + rest) && SoundRun(s, [step] + rest, j)
    ensures After(s, [step] + rest) == After(Next(s, step), rest)
  {
    RunsCons(s, step, rest);
    assert ([step] + rest)[1..] == rest;
  }

  lemma SoundOnly(s: State, step: Step, j: JobId) returns (steps: seq<Step>)
    requires Enabled(s, step) && SoundFor(s, step, j)
    ensures Runs(s, steps) && SoundRun(s, steps, j) && After(s, steps) == Next(s, step)
  {
    steps := [step] + [];
    SoundThen(s, step, [], j);
  }

  lemma NothingBeforeSound(s: State, before: seq<Step>, after: seq<Step>, j: JobId)
    requires before == [] && Runs(s, after) && SoundRun(s, after, j)
    ensures Runs(s, before + after) && SoundRun(s, before + after, j)
  {
    assert before + after == after;
  }

  lemma {:induction false} SoundAppend(s: State, before: seq<Step>, mid: State, after: seq<Step>, j: JobId)
    requires Runs(s, before) && After(s, before) == mid && Runs(mid, after)
    requires SoundRun(s, before, j) && SoundRun(mid, after, j)
    ensures Runs(s, before + after) && SoundRun(s, before + after, j)
    decreases |before|
  {
    if before == [] {
      NothingBeforeSound(s, before, after, j);
    } else {
      SoundAppend(Next(s, before[0]), before[1..], mid, after, j);
      HeadFirst(before, after);
      SoundThen(s, before[0], before[1..] + after, j);
    }
  }

  lemma HeadFirst(before: seq<Step>, after: seq<Step>)
    requires before != []
    ensures before + after == [before[0]] + (before[1..] + after)
  {
  }

  lemma SoundJoin(s: State, before: seq<Step>, after: seq<Step>, j: JobId)
    requires Runs(s, before) && SoundRun(s, before, j) && Runs(After(s, before), after) && SoundRun(After(s, before), after, j)
    ensures Runs(s, before + after) && SoundRun(s, before + after, j)
    ensures After(s, before + after) == After(After(s, before), after)
  {
    RunsAppend(s, before, after);
    SoundAppend(s, before, After(s, before), after, j);
  }

  /** A claim can be made good: the worker fails, if it has not yet, and refunds. */
  lemma ClaimPays(s: State, w: nat, j: JobId) returns (steps: seq<Step>)
    requires Claims(s, w, j) && j in s.db.jobs && j in s.book && Revivable(s, j)
    ensures Runs(s, steps) && SoundRun(s, steps, j) && OnlyBooked(s, After(s, steps), j, w, 1)
  {
    if BeforeFailure(s.workers[w].pc) {
      var first := ErrorOf(s.workers[w].pc, w);
      ErrorFails(s, w, j);
      var s1 := Next(s, first);
      RefundBooks(s1, w, j);
      steps := SoundOnly(s1, RefundOf(s1.workers[w].pc, w), j);
      SoundThen(s, first, steps, j);
      steps := [first] + steps;
    } else {
      RefundBooks(s, w, j);
      steps := SoundOnly(s, RefundOf(s.workers[w].pc, w), j);
    }
  }

  /** So can the refund a sweep owes. */
  lemma SweepPays(s: State, j: JobId) returns (steps: seq<Step>)
    requires Owed(s, j) && j in s.book
    ensures Runs(s, steps) && SoundRun(s, steps, j)
    ensures var t := After(s, steps); var row := (j, s.db.jobs[j].periodStart);
      && t.db == s.db && t.now == s.now && t.workers == s.workers && t.owed == s.owed - multiset{row}
      && j in t.book && |t.book[j]| == |s.book[j]| + 1
  {
    steps := SoundOnly(s, RefundSwept(j, s.db.jobs[j].periodStart, true), j);
  }

  // ------------------------------------------------------------------
  // Making room for a revival
  // ------------------------------------------------------------------

  /** Another job can be delivered, fail at once, and be marked failed. */
  lemma OtherJobFails(s: State, k: JobId, j: JobId) returns (steps: seq<Step>)
    requires k in s.db.jobs && k != j
    ensures Runs(s, steps) && SoundRun(s, steps, j)
    ensures var t := After(s, steps);
      && t.db == RecordFailure(s.db, k, "") && t.now == s.now && t.owed == s.owed && t.book == s.book
      && |t.workers| == |s.workers| + 1 && forall v :: 0 <= v < |s.workers| ==> t.workers[v] == s.workers[v]
  {
    var u := |s.workers|;
    var s1 := Next(s, Start(k));
    var s2 := Next(s1, Load(u, EarlyError));
    StartedFails(s, k, s2);
    steps := FailingMarks(s2, u, k, j);
    SoundThen(s1, Load(u, EarlyError), steps, j);
    steps := [Load(u, EarlyError)] + steps;
    SoundThen(s, Start(k), steps, j);
    steps := [Start(k)] + steps;
  }

  lemma FailingMarks(s: State, u: nat, k: JobId, j: JobId) returns (steps: seq<Step>)
    requires k != j && u < |s.workers| && s.workers[u].job == k && s.workers[u].pc.Failing? && !s.workers[u].pc.known
    ensures Runs(s, steps) && SoundRun(s, steps, j)
    ensures var t := After(s, steps);
      && t.db == RecordFailure(s.db, k, "") && t.now == s.now && t.owed == s.owed && t.book == s.book
      && |t.workers| == |s.workers| && forall v :: 0 <= v < |s.workers| && v != u ==> t.workers[v] == s.workers[v]
  {
    var s1 := Next(s, RefundFailure(u, true));
    assert s1 == s.(workers := s1.workers, skippedRefunds := s1.skippedRefunds);
    steps := SoundOnly(s1, MarkFailure(u, "", true), j);
    SoundThen(s, RefundFailure(u, true), steps, j);
    steps := [RefundFailure(u, true)] + steps;
  }

  lemma StartedFails(s: State, k: JobId, t: State)
    requires k in s.db.jobs && t == Next(Next(s, Start(k)), Load(|s.workers|, EarlyError))
    ensures t == s.(workers := s.workers + [Worker(k, s.db.jobs[k].key.conv, s.month, Failing(s.month, false, false))])
  {
    var worker := Worker(k, s.db.jobs[k].key.conv, s.month, Started);
    assert Next(s, Start(k)) == s.(workers := s.workers + [worker]);
    assert t.workers == (s.workers + [worker])[|s.workers| := worker.(pc := Failing(s.month, false, false))];
  }

  lemma FailingFreesKey(db: Db, k: JobId, j: JobId, now: Time)
    requires ActiveUnique(db.jobs) && j in db.jobs && k in db.jobs && k != j && Active(db.jobs[k]) && db.jobs[k].key == db.jobs[j].key
    ensures MarkRunning(RecordFailure(db, k, "").jobs, j, now).Some?
    ensures RecordFailure(db, k, "").jobs[j] == db.jobs[j] && RecordFailure(db, k, "").processed == db.processed
  {
    var after := RecordFailure(db, k, "").jobs;
    forall i | i in after && i != j && Active(after[i]) ensures after[i].key != db.jobs[j].key {
      assert i != k && Active(db.jobs[i]);
    }
  }

  /** Whatever holds the job's key can be out of the way. */
  lemma KeyCanBeFree(s: State, j: JobId) returns (steps: seq<Step>)
    requires Reached(s) && j in s.db.jobs && j in s.book
    ensures Runs(s, steps) && SoundRun(s, steps, j) && Revivable(After(s, steps), j)
    ensures var t := After(s, steps);
      && j in t.db.jobs && t.db.jobs[j] == s.db.jobs[j] && t.db.processed == s.db.processed
      && t.owed == s.owed && t.book == s.book
      && |s.workers| <= |t.workers| && forall v :: 0 <= v < |s.workers| ==> t.workers[v] == s.workers[v]
  {
    if Revivable(s, j) {
      steps := [];
    } else {
      var k :| k in s.db.jobs && k != j && Active(s.db.jobs[k]) && s.db.jobs[k].key == s.db.jobs[j].key;
      FailingFreesKey(s.db, k, j, s.now);
      steps := OtherJobFails(s, k, j);
    }
  }

  // ------------------------------------------------------------------
  // Each way of being unsafe
  // ------------------------------------------------------------------

  /** Two outstanding claims can both be made good. */
  lemma TwoClaimsPay(s: State, w: nat, v: nat, j: JobId) returns (steps: seq<Step>)
    requires Reached(s) && j in s.db.jobs && j in s.book && Claims(s, w, j) && Claims(s, v, j) && w != v
    ensures Runs(s, steps) && SoundRun(s, steps, j)
    ensures j in After(s, steps).book && |After(s, steps).book[j]| == |s.book[j]| + 2
  {
    steps := KeyCanBeFree(s, j);
    var s1 := After(s, steps);
    var first := ClaimPays(s1, w, j);
    SoundJoin(s, steps, first, j);
    var s2 := After(s1, first);
    var second := ClaimPays(s2, v, j);
    SoundJoin(s, steps + first, second, j);
    steps := (steps + first) + second;
  }

  /** So can a claim and the refund a sweep owes. */
  lemma ClaimAndSweepPay(s: State, w: nat, j: JobId) returns (steps: seq<Step>)
    requires Reached(s) && j in s.db.jobs && j in s.book && Claims(s, w, j) && Owed(s, j)
    ensures Runs(s, steps) && SoundRun(s, steps, j)
    ensures j in After(s, steps).book && |After(s, steps).book[j]| == |s.book[j]| + 2
  {
    steps := KeyCanBeFree(s, j);
    var s1 := After(s, steps);
    var first := ClaimPays(s1, w, j);
    SoundJoin(s, steps, first, j);
    var s2 := After(s1, first);
    var second := SweepPays(s2, j);
    SoundJoin(s, steps + first, second, j);
    steps := (steps + first) + second;
  }

  /** A claim on a settled job can be made good. */
  lemma ClaimPaysAgain(s: State, w: nat, j: JobId) returns (steps: seq<Step>)
    requires Reached(s) && j in s.db.jobs && j in s.book && Claims(s, w, j)
    ensures Runs(s, steps) && SoundRun(s, steps, j)
    ensures j in After(s, steps).book && |After(s, steps).book[j]| == |s.book[j]| + 1
  {
    steps := KeyCanBeFree(s, j);
    var s1 := After(s, steps);
    var first := ClaimPays(s1, w, j);
    SoundJoin(s, steps, first, j);
    steps := steps + first;
  }

  /** An account that opened is unsettled exactly when it has one entry. */
  lemma SettledHasTwo(s: State, j: JobId)
    requires Reached(s) && j in s.db.jobs
    ensures j in s.book && |s.book[j]| >= 1
    ensures !Unsettled(s.book, j) ==> |s.book[j]| >= 2
  {
    assert DebitedIn(s.book, j, s.db.jobs[j].periodStart);
    assert Opened(s.book[j]);
  }

  lemma UnsafeStart(s: State, j: JobId) returns (more: seq<Step>)
    requires Reached(s) && j in s.db.jobs && !SafeFor(s, Start(j), j)
    ensures var s1 := Next(s, Start(j));
      && Runs(s1, more) && SoundRun(s1, more, j)
      && Settlements(After(s1, more).book, j) >= 2
  {
    var s1, v := Next(s, Start(j)), |s.workers|;
    NextKeepsReached(s, Start(j));
    SettledHasTwo(s, j);
    assert s1.book == s.book && s1.db == s.db && s1.owed == s.owed;
    assert Claims(s1, v, j);
    if !Unsettled(s.book, j) {
      more := ClaimPaysAgain(s1, v, j);
    } else if Owed(s, j) {
      more := ClaimAndSweepPay(s1, v, j);
    } else {
      var w :| 0 <= w < |s.workers| && Claims(s, w, j);
      assert s1.workers[w] == s.workers[w];
      more := TwoClaimsPay(s1, w, v, j);
    }
  }

  lemma TwoSweepsPay(s: State, j: JobId) returns (steps: seq<Step>)
    requires Owed(s, j) && s.owed[(j, s.db.jobs[j].periodStart)] >= 2 && j in s.book
    ensures Runs(s, steps) && SoundRun(s, steps, j)
    ensures j in After(s, steps).book && |After(s, steps).book[j]| == |s.book[j]| + 2
  {
    steps := SweepPays(s, j);
    var s1 := After(s, steps);
    var second := SweepPays(s1, j);
    SoundJoin(s, steps, second, j);
    steps := steps + second;
  }

  lemma UnsafeSweep(s: State, step: Step, j: JobId) returns (more: seq<Step>)
    requires Reached(s) && Enabled(s, step) && SweepsJob(s, step, j) && !SafeFor(s, step, j)
    ensures var s1 := Next(s, step);
      && Runs(s1, more) && SoundRun(s1, more, j)
      && Settlements(After(s1, more).book, j) >= 2
  {
    var s1 := Next(s, step);
    NextKeepsReached(s, step);
    SettledHasTwo(s, j);
    SweepMoves(s, step, j);
    if !Unsettled(s.book, j) {
      more := SweepPays(s1, j);
    } else if Owed(s, j) {
      more := TwoSweepsPay(s1, j);
    } else {
      var w :| 0 <= w < |s.workers| && Claims(s, w, j);
      more := ClaimAndSweepPay(s1, w, j);
    }
  }

  lemma UnsafeCommit(s: State, step: Step, j: JobId) returns (more: seq<Step>)
    requires Reached(s) && Enabled(s, step) && step.Phase3? && j in s.db.jobs && !SafeFor(s, step, j)
    ensures var s1 := Next(s, step);
      && Runs(s1, more) && SoundRun(s1, more, j)
      && Settlements(After(s1, more).book, j) >= 2
  {
    var s1 := Next(s, step);
    SettledHasTwo(s, j);
    assert KnowsFailure(s1, step.worker, j) && Claims(s1, step.worker, j);
    RefundBooks(s1, step.worker, j);
    more := SoundOnly(s1, RefundFailure(step.worker, true), j);
  }

  /** From every state a run can reach, a step that is not safe for the job can be continued, by sound steps alone,
      to a second settlement. */
  lemma UnsafeStepsSettleTwice(s: State, step: Step, j: JobId) returns (more: seq<Step>)
    requires Reached(s) && Enabled(s, step) && j in s.db.jobs && !SafeFor(s, step, j)
    ensures Runs(Next(s, step), more) && SoundRun(Next(s, step), more, j)
    ensures Settlements(After(Next(s, step), more).book, j) >= 2
  {
    if step.Start? {
      more := UnsafeStart(s, j);
    } else if step.Phase3? {
      more := UnsafeCommit(s, step, j);
    } else {
      more := UnsafeSweep(s, step, j);
    }
  }

  ghost predicate SettlesAtMostOnce(s: State, more: seq<Step>, j: JobId)
    requires Runs(s, more)
  {
    Settlements(After(s, more).book, j) <= 1
  }

  /** No safe continuation settles the job twice. */
  ghost predicate NeverTwice(s: State, j: JobId) {
    forall more :: Runs(s, more) && SafeRun(s, more, j) ==> SettlesAtMostOnce(s, more, j)
  }

  lemma SafeMeansNeverTwice(s: State, j: JobId)
    requires Reached(s) && Once(s, j) && j in s.db.jobs
    ensures NeverTwice(s, j)
  {
    forall more | Runs(s, more) && SafeRun(s, more, j) ensures SettlesAtMostOnce(s, more, j) {
      SafeRunsKeepOnce(s, more, j);
      RunsKeepRow(s, more, j);
    }
  }

  lemma {:induction false} RunsKeepRow(s: State, steps: seq<Step>, j: JobId)
    requires Safe(s) && Runs(s, steps) && j in s.db.jobs
    ensures j in After(s, steps).db.jobs
    decreases |steps|
  {
    if steps != [] {
      NextKeepsDb(s, steps[0]);
      NextKeepsSafe(s, steps[0]);
      RunsKeepRow(Next(s, steps[0]), steps[1..], j);
    }
  }

  lemma {:induction false} SoundRunIsSafe(s: State, steps: seq<Step>, j: JobId)
    requires Runs(s, steps) && SoundRun(s, steps, j)
    ensures SafeRun(s, steps, j)
    decreases |steps|
  {
    if steps != [] {
      SoundIsSafe(s, steps[0], j);
      SoundRunIsSafe(Next(s, steps[0]), steps[1..], j);
    }
  }

  lemma StepExactly(s: State, step: Step, j: JobId)
    requires Reached(s) && Once(s, j) && Enabled(s, step) && j in s.db.jobs
    ensures SafeFor(s, step, j) <==> NeverTwice(Next(s, step), j)
  {
    if SafeFor(s, step, j) {
      NextKeepsOnce(s, step, j);
      NextKeepsReached(s, step);
      NextKeepsDb(s, step);
      SafeMeansNeverTwice(Next(s, step), j);
    } else {
      var more := UnsafeStepsSettleTwice(s, step, j);
      SoundRunIsSafe(Next(s, step), more, j);
      assert !SettlesAtMostOnce(Next(s, step), more, j);
    }
  }

  /** The exact condition. After a run that is safe for a job, the next step leaves it settled at most once in every
      safe continuation if and only if the step is safe for it. */
  lemma SettledAtMostOnceExactly(now: Time, month: Month, steps: seq<Step>, step: Step, j: JobId)
    requires Runs(Initial(now, month), steps) && SafeRun(Initial(now, month), steps, j)
    requires Enabled(After(Initial(now, month), steps), step) && j in After(Initial(now, month), steps).db.jobs
    ensures SafeFor(After(Initial(now, month), steps), step, j) <==> NeverTwice(Next(After(Initial(now, month), steps), step), j)
  {
    SafeRunsKeepOnce(Initial(now, month), steps, j);
    StepExactly(After(Initial(now, month), steps), step, j);
  }

  // ------------------------------------------------------------------
  // Each way of being unsound
  // ------------------------------------------------------------------

  /** A settlement too many unbalances the account. */
  lemma TwiceIsUnbalanced(s: State, j: JobId)
    requires j in s.db.jobs && Settlements(s.book, j) >= 2
    ensures !Balanced(s, j)
  {
  }

  /** The failure path of a worker that does not know the period. */
  lemma IgnorantFails(s: State, w: nat, j: JobId) returns (steps: seq<Step>)
    requires Reached(s) && Live(s, w, j) && j in s.db.jobs && Active(s.db.jobs[j])
    requires s.workers[w].pc.Refunded? || (s.workers[w].pc.Failing? && !s.workers[w].pc.known)
    ensures Runs(s, steps) && SoundRun(s, steps, j)
    ensures var t := After(s, steps);
      && t.db == RecordFailure(s.db, j, "") && t.book == s.book && t.now == s.now && |t.workers| == |s.workers|
      && forall v :: 0 <= v < |s.workers| && v != w ==> t.workers[v] == s.workers[v]
  {
    if s.workers[w].pc.Refunded? {
      steps := SoundOnly(s, MarkFailure(w, "", true), j);
    } else {
      var s1 := Next(s, RefundFailure(w, true));
      steps := SoundOnly(s1, MarkFailure(w, "", true), j);
      SoundThen(s, RefundFailure(w, true), steps, j);
      steps := [RefundFailure(w, true)] + steps;
    }
  }

  /** A worker that has just been started on an unprocessed conversation can load it. */
  lemma StartedLoads(s: State, v: nat, j: JobId)
    requires Reached(s) && j in s.db.jobs && v < |s.workers| && s.workers[v].job == j && s.workers[v].pc.Started?
    requires s.workers[v].conv !in s.db.processed && Revivable(s, j) && s.db.jobs[j].status != Completed
    ensures Enabled(s, Load(v, Loads)) && SoundFor(s, Load(v, Loads), j)
    ensures var t := Next(s, Load(v, Loads));
      && j in t.db.jobs && t.db.jobs[j].status == Running && t.db.processed == s.db.processed && t.book == s.book
      && |t.workers| == |s.workers| && t.workers[v].pc.Loaded? && t.workers[v].(pc := Started) == s.workers[v]
      && (forall u :: 0 <= u < |s.workers| && u != v ==> t.workers[u] == s.workers[u])
  {
  }

  lemma PersistsForOneCent(s: State, v: nat, j: JobId)
    requires j in s.db.jobs && s.db.jobs[j].status == Failed && Unsettled(s.book, j)
    requires v < |s.workers| && s.workers[v].job == j && s.workers[v].conv !in s.db.processed
    requires s.workers[v].pc.Extracted? && s.workers[v].pc.cents == 1
    ensures var step := Phase3(v, Persists(0, true, true));
      Enabled(s, step) && SoundFor(s, step, j) && !Balanced(Next(s, step), j)
  {
    var s1 := Next(s, Phase3(v, Persists(0, true, true)));
    assert s1.book == s.book[j := s.book[j] + [Entry(s.workers[v].pc.bucket, Actual(1))]];
    assert s1.db.jobs == s.db.jobs;
  }

  /** A worker that has loaded can extract and persist for one cent; the row of a failed job stays failed. */
  lemma LoadedPersists(s: State, v: nat, j: JobId) returns (steps: seq<Step>)
    requires j in s.db.jobs && s.db.jobs[j].status == Failed && Unsettled(s.book, j)
    requires v < |s.workers| && s.workers[v].job == j && s.workers[v].pc.Loaded? && s.workers[v].conv !in s.db.processed
    ensures Runs(s, steps) && SoundRun(s, steps, j) && !Balanced(After(s, steps), j)
  {
    var call := CallLlm(v, OnTopic(Topic("", ""), 1));
    var s1 := Next(s, call);
    assert s1 == s.(workers := s1.workers) && s1.workers[v].job == j && s1.workers[v].conv == s.workers[v].conv;
    PersistsForOneCent(s1, v, j);
    steps := SoundOnly(s1, Phase3(v, Persists(0, true, true)), j);
    SoundThen(s, call, steps, j);
    steps := [call] + steps;
  }

  /** Beside a worker without a claim: the new worker loads, the other fails the row, the new one settles it. */
  lemma OvertakenIsUnbalanced(s: State, w: nat, v: nat, j: JobId) returns (steps: seq<Step>)
    requires Reached(s) && j in s.db.jobs && Unsettled(s.book, j) && s.db.jobs[j].status != Completed
    requires Live(s, w, j) && (s.workers[w].pc.Refunded? || (s.workers[w].pc.Failing? && !s.workers[w].pc.known))
    requires v < |s.workers| && v != w && s.workers[v].job == j && s.workers[v].pc.Started? && s.workers[v].conv !in s.db.processed
    ensures Runs(s, steps) && SoundRun(s, steps, j) && !Balanced(After(s, steps), j)
  {
    var free := KeyCanBeFree(s, j);
    var s1 := After(s, free);
    RunsKeepReached(s, free);
    StartedLoads(s1, v, j);
    var s2 := Next(s1, Load(v, Loads));
    NextKeepsReached(s1, Load(v, Loads));
    var fail := IgnorantFails(s2, w, j);
    var s3 := After(s2, fail);
    var end := LoadedPersists(s3, v, j);
    SoundJoin(s2, fail, end, j);
    SoundThen(s1, Load(v, Loads), fail + end, j);
    SoundJoin(s, free, [Load(v, Loads)] + (fail + end), j);
    steps := free + ([Load(v, Loads)] + (fail + end));
  }

  lemma UnsoundStart(s: State, j: JobId) returns (more: seq<Step>)
    requires Reached(s) && Steady(s, j) && j in s.db.jobs && !SoundFor(s, Start(j), j)
    ensures var s1 := Next(s, Start(j)); Runs(s1, more) && SoundRun(s1, more, j) && !Balanced(After(s1, more), j)
  {
    var s1, v := Next(s, Start(j)), |s.workers|;
    NextKeepsReached(s, Start(j));
    if !SafeFor(s, Start(j), j) {
      more := UnsafeStart(s, j);
      RunsKeepRow(s1, more, j);
      TwiceIsUnbalanced(After(s1, more), j);
    } else {
      var w :| 0 <= w < |s.workers| && Live(s, w, j);
      assert !Claims(s, w, j) && Placed(s, w) && s1.workers[w] == s.workers[w];
      assert s1.db == s.db && s1.book == s.book;
      more := OvertakenIsUnbalanced(s1, w, v, j);
    }
  }

  /** One of the two writes of Phase 3 is lost. */
  lemma UnsoundCommit(s: State, step: Step, j: JobId)
    requires OwnState(s, step, j) && step.Phase3? && !SoundFor(s, step, j)
    ensures !Balanced(Next(s, step), j)
  {
    var w := step.worker;
    OwnStepFrame(s, step, j);
    assert Placed(s, w) && PcFits(s, s.workers[w].pc, j) && Claims(s, w, j);
    SoleClaim(s, w, j);
    assert Opened(s.book[j]);
    var s1 := Next(s, step);
    forall v | 0 <= v < |s1.workers| ensures !RefundingAt(s1, v, j) && !SkippingAt(s1, v, j) {
      if v != w && s.workers[v].job == j && s.workers[v].pc != Gone {
        assert Live(s, v, j) && Live(s, w, j);
      }
    }
  }

  /** The refund of a job marked completed without a topic is lost. */
  lemma UnsoundSkip(s: State, step: Step, j: JobId)
    requires OwnState(s, step, j) && (step.SettleSkipped? || (step.Die? && s.workers[step.worker].pc.SkipMarked?))
    requires !SoundFor(s, step, j)
    ensures !Balanced(Next(s, step), j)
  {
    var w := step.worker;
    OwnStepFrame(s, step, j);
    assert Placed(s, w) && PcFits(s, s.workers[w].pc, j) && Claims(s, w, j);
    SoleClaim(s, w, j);
    var s1 := Next(s, step);
    forall v | 0 <= v < |s1.workers| ensures !SkippingAt(s1, v, j) {
      assert v != w ==> !Claims(s, v, j);
    }
  }

  /** The failure mark of a refunded job is lost, or its worker dies before it. */
  lemma UnsoundMark(s: State, step: Step, j: JobId)
    requires OwnState(s, step, j) && (step.MarkFailure? || step.Die?) && LastToMark(s, step.worker, j) && !SoundFor(s, step, j)
    ensures !Balanced(Next(s, step), j)
  {
    var w := step.worker;
    OwnStepFrame(s, step, j);
    var s1 := Next(s, step);
    forall v | 0 <= v < |s1.workers| ensures !RefundingAt(s1, v, j) {
      assert v != w ==> !RefundingAt(s, v, j);
    }
  }

  /** The refund of a failing worker that knows the period is lost; its failure mark need not be. */
  lemma UnsoundRefund(s: State, step: Step, j: JobId) returns (more: seq<Step>)
    requires OwnState(s, step, j) && step.RefundFailure? && !SoundFor(s, step, j)
    ensures var s1 := Next(s, step); Runs(s1, more) && SoundRun(s1, more, j) && !Balanced(After(s1, more), j)
  {
    var w := step.worker;
    OwnStepFrame(s, step, j);
    assert Placed(s, w) && PcFits(s, s.workers[w].pc, j) && Claims(s, w, j);
    SoleClaim(s, w, j);
    var s1 := Next(s, step);
    assert s1.db == s.db && s1.book == s.book && j !in s1.skippedRefunds && s1.workers[w].pc.Refunded?;
    more := SoundOnly(s1, MarkFailure(w, "", true), j);
  }

  /** The refund a sweep owes is lost. */
  lemma UnsoundSweeper(s: State, step: Step, j: JobId)
    requires Reached(s) && Steady(s, j) && j in s.db.jobs && Enabled(s, step) && !SoundFor(s, step, j)
    requires (step.RefundSwept? || step.SweeperDies?) && step.job == j
    ensures !Balanced(Next(s, step), j)
  {
    assert Owed(s, j);
  }

  /** From every steady state a step that is not sound for the job can be continued, by sound steps alone, until the
      account does not match the row. */
  lemma UnsoundStepsUnbalance(s: State, step: Step, j: JobId) returns (more: seq<Step>)
    requires Reached(s) && Steady(s, j) && Enabled(s, step) && j in s.db.jobs && !SoundFor(s, step, j)
    ensures Runs(Next(s, step), more) && SoundRun(Next(s, step), more, j) && !Balanced(After(Next(s, step), more), j)
  {
    more := [];
    if step.Start? {
      more := UnsoundStart(s, j);
    } else if step.SweepPending? || step.SweepRunning? {
      more := UnsafeSweep(s, step, j);
      NextKeepsReached(s, step);
      RunsKeepRow(Next(s, step), more, j);
      TwiceIsUnbalanced(After(Next(s, step), more), j);
    } else if step.RefundFailure? {
      more := UnsoundRefund(s, step, j);
    } else if step.Phase3? {
      UnsoundCommit(s, step, j);
    } else if step.RefundSwept? || step.SweeperDies? {
      UnsoundSweeper(s, step, j);
    } else if step.SettleSkipped? || (step.Die? && s.workers[step.worker].pc.SkipMarked?) {
      UnsoundSkip(s, step, j);
    } else {
      UnsoundMark(s, step, j);
    }
  }

  ghost predicate StaysBalanced(s: State, more: seq<Step>, j: JobId)
    requires Runs(s, more)
  {
    Balanced(After(s, more), j)
  }

  /** The account matches the row at the end of every sound continuation. */
  ghost predicate AlwaysBalanced(s: State, j: JobId) {
    forall more :: Runs(s, more) && SoundRun(s, more, j) ==> StaysBalanced(s, more, j)
  }

  lemma SteadyStaysBalanced(s: State, j: JobId)
    requires Reached(s) && Steady(s, j)
    ensures AlwaysBalanced(s, j)
  {
    forall more | Runs(s, more) && SoundRun(s, more, j) ensures StaysBalanced(s, more, j) {
      SoundRunsAreSteady(s, more, j);
    }
  }

  lemma SoundStepExactly(s: State, step: Step, j: JobId)
    requires Reached(s) && Steady(s, j) && Enabled(s, step) && j in s.db.jobs
    ensures SoundFor(s, step, j) <==> AlwaysBalanced(Next(s, step), j)
  {
    if SoundFor(s, step, j) {
      NextIsSteady(s, step, j);
      NextKeepsReached(s, step);
      SteadyStaysBalanced(Next(s, step), j);
    } else {
      var more := UnsoundStepsUnbalance(s, step, j);
      assert !StaysBalanced(Next(s, step), more, j);
    }
  }

  /** The exact condition for the right amount. After a run that is sound for a job, the next step keeps its account
      in line with its row in every sound continuation if and only if the step is sound for it. */
  lemma RightAmountExactly(now: Time, month: Month, steps: seq<Step>, step: Step, j: JobId)
    requires Runs(Initial(now, month), steps) && SoundRun(Initial(now, month), steps, j)
    requires Enabled(After(Initial(now, month), steps), step) && j in After(Initial(now, month), steps).db.jobs
    ensures SoundFor(After(Initial(now, month), steps), step, j) <==> AlwaysBalanced(Next(After(Initial(now, month), steps), step), j)
  {
    SoundRunsAreSteady(Initial(now, month), steps, j);
    SoundStepExactly(After(Initial(now, month), steps), step, j);
  }
}
