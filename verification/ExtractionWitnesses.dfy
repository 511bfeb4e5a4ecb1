/** Runs from the initial state to each of the ways things go wrong: every step before and after the one named is
    blameless, and the ones that settle twice do so by the continuations `ExtractionExact` provides. */
module ExtractionWitnesses {
  import opened Prelude
  import opened ExtractionJobs
  import opened ExtractionRuns
  import opened ExtractionBudget
  import opened ExtractionClaims
  import opened ExtractionSettlement
  import opened ExtractionExact

  const KEY := Key("user", 7, "chatgpt")

  /** One request for conversation 7, at this point; the row and the account of job 0, if any. */
  function Requested(now: Time, month: Month, pc: IngestPc, jobs: Jobs, book: Book): State {
    State(EMPTY.(jobs := jobs), book, [Ingest("user", month, pc)], [], multiset{}, {}, now, month)
  }

  function Debited(month: Month): Book { map[0 := [Entry(month, Estimate)]] }

  /** Job 0 is inserted and pending. */
  function Inserted(now: Time, month: Month): State {
    Requested(now, month, Ready, map[0 := NewJob(KEY, month, now)], Debited(month))
  }

  function RunningRow(now: Time, month: Month): Job { NewJob(KEY, month, now).(status := Running, startedAt := now) }

  /** A worker has loaded job 0 and is at the given point. */
  function Underway(now: Time, month: Month, pc: WorkerPc): State {
    Requested(now, month, Ready, map[0 := RunningRow(now, month)], Debited(month)).(workers := [Worker(0, 7, month, pc)])
  }

  // ------------------------------------------------------------------
  // Getting there
  // ------------------------------------------------------------------

  lemma RequestSaves(now: Time, month: Month)
    ensures Next(Initial(now, month), BeginIngest("user")) == Requested(now, month, Ready, map[], map[])
    ensures Next(Requested(now, month, Ready, map[], map[]), Save(0, 7, "chatgpt")) == Requested(now, month, Saved(KEY), map[], map[])
  {
  }

  lemma FirstEntry(id: JobId, e: Entry)
    ensures Posted(map[], Some((id, e))) == map[id := [e]]
  {
    var entries: seq<Entry> := [];
    assert entries + [e] == [e];
    assert Posted(map[], Some((id, e)))[id] == entries + [e];
  }

  lemma SecondEntry(id: JobId, first: Entry, second: Entry)
    ensures Posted(map[id := [first]], Some((id, second))) == map[id := [first, second]]
  {
    var book: Book := map[id := [first]];
    assert book[id] + [second] == [first, second];
    assert Posted(book, Some((id, second)))[id] == book[id] + [second];
  }

  lemma RequestCharges(now: Time, month: Month)
    ensures Next(Requested(now, month, Saved(KEY), map[], map[]), PreCharge(0, 0, true))
         == Requested(now, month, Charged(KEY, 0), map[], Debited(month))
  {
    var s := Requested(now, month, Saved(KEY), map[], map[]);
    FirstEntry(0, Entry(month, Estimate));
    assert Posting(s, PreCharge(0, 0, true)) == Some((0, Entry(month, Estimate)));
  }

  lemma RequestInserts(now: Time, month: Month)
    ensures Next(Requested(now, month, Charged(KEY, 0), map[], Debited(month)), Insert(0, false)) == Inserted(now, month)
  {
    assert !Conflicts(map[], 0, KEY);
  }

  /** From any continuation of the inserted job to one from the initial state. */
  lemma FromInserted(now: Time, month: Month, steps: seq<Step>) returns (all: seq<Step>)
    requires Runs(Inserted(now, month), steps) && SoundRun(Inserted(now, month), steps, 0)
    ensures Runs(Initial(now, month), all) && SoundRun(Initial(now, month), all, 0)
    ensures After(Initial(now, month), all) == After(Inserted(now, month), steps)
  {
    RequestInserts(now, month);
    SoundThen(Requested(now, month, Charged(KEY, 0), map[], Debited(month)), Insert(0, false), steps, 0);
    all := [Insert(0, false)] + steps;
    RequestCharges(now, month);
    SoundThen(Requested(now, month, Saved(KEY), map[], map[]), PreCharge(0, 0, true), all, 0);
    all := [PreCharge(0, 0, true)] + all;
    RequestSaves(now, month);
    SoundThen(Requested(now, month, Ready, map[], map[]), Save(0, 7, "chatgpt"), all, 0);
    all := [Save(0, 7, "chatgpt")] + all;
    SoundThen(Initial(now, month), BeginIngest("user"), all, 0);
    all := [BeginIngest("user")] + all;
  }

  lemma JobStarts(now: Time, month: Month)
    ensures var s := Inserted(now, month);
      && Enabled(s, Start(0)) && SoundFor(s, Start(0), 0)
      && Next(s, Start(0)) == s.(workers := [Worker(0, 7, month, Started)])
  {
  }

  lemma JobLoads(now: Time, month: Month)
    ensures var s := Inserted(now, month).(workers := [Worker(0, 7, month, Started)]);
      Enabled(s, Load(0, Loads)) && SoundFor(s, Load(0, Loads), 0) && Next(s, Load(0, Loads)) == Underway(now, month, Loaded(month))
  {
    var s := Inserted(now, month).(workers := [Worker(0, 7, month, Started)]);
    assert !Conflicts(s.db.jobs, 0, KEY);
    assert MarkRunning(s.db.jobs, 0, now).value == map[0 := RunningRow(now, month)];
  }

  /** From any continuation of a loaded job to one from the initial state. */
  lemma FromLoaded(now: Time, month: Month, steps: seq<Step>) returns (all: seq<Step>)
    requires Runs(Underway(now, month, Loaded(month)), steps) && SoundRun(Underway(now, month, Loaded(month)), steps, 0)
    ensures Runs(Initial(now, month), all) && SoundRun(Initial(now, month), all, 0)
    ensures After(Initial(now, month), all) == After(Underway(now, month, Loaded(month)), steps)
  {
    JobLoads(now, month);
    SoundThen(Inserted(now, month).(workers := [Worker(0, 7, month, Started)]), Load(0, Loads), steps, 0);
    JobStarts(now, month);
    SoundThen(Inserted(now, month), Start(0), [Load(0, Loads)] + steps, 0);
    all := FromInserted(now, month, [Start(0)] + ([Load(0, Loads)] + steps));
  }

  // ------------------------------------------------------------------
  // Settling twice
  // ------------------------------------------------------------------

  /** A run from the initial state, blameless before and after one step, that settles job 0 twice. */
  ghost predicate SettlesTwiceBy(now: Time, month: Month, before: seq<Step>, step: Step, more: seq<Step>) {
    && Runs(Initial(now, month), before) && SoundRun(Initial(now, month), before, 0)
    && Enabled(After(Initial(now, month), before), step)
    && Runs(Next(After(Initial(now, month), before), step), more) && SoundRun(Next(After(Initial(now, month), before), step), more, 0)
    && Settlements(After(Next(After(Initial(now, month), before), step), more).book, 0) >= 2
  }

  lemma UnsafeStepWitnesses(now: Time, month: Month, before: seq<Step>, step: Step) returns (more: seq<Step>)
    requires Runs(Initial(now, month), before) && SoundRun(Initial(now, month), before, 0)
    requires var s := After(Initial(now, month), before); Enabled(s, step) && 0 in s.db.jobs && !SafeFor(s, step, 0)
    ensures SettlesTwiceBy(now, month, before, step, more)
  {
    InitialIsReached(now, month);
    RunsKeepReached(Initial(now, month), before);
    more := UnsafeStepsSettleTwice(After(Initial(now, month), before), step, 0);
  }

  lemma InitialIsReached(now: Time, month: Month)
    ensures Reached(Initial(now, month))
  {
  }

  /** A running job is delivered again. */
  lemma SecondDeliverySettlesTwice(now: Time, month: Month) returns (before: seq<Step>, more: seq<Step>)
    ensures SettlesTwiceBy(now, month, before, Start(0), more)
    ensures After(Initial(now, month), before) == Underway(now, month, Loaded(month))
  {
    before := FromLoaded(now, month, []);
    assert Claims(Underway(now, month, Loaded(month)), 0, 0);
    more := UnsafeStepWitnesses(now, month, before, Start(0));
  }

  /** A job is swept while its worker is still calling the model. */
  lemma SweepDuringRunSettlesTwice(now: Time, month: Month) returns (before: seq<Step>, more: seq<Step>)
    ensures SettlesTwiceBy(now, month, before, SweepRunning, more)
    ensures After(Initial(now, month), before) == Underway(now, month, Loaded(month)).(now := now + RUNNING_THRESHOLD_SECS + 1)
  {
    var s, late := Underway(now, month, Loaded(month)), now + RUNNING_THRESHOLD_SECS + 1;
    assert Next(s, Tick(late, month)) == s.(now := late);
    SoundThen(s, Tick(late, month), [], 0);
    before := FromLoaded(now, month, [Tick(late, month)] + []);
    var s1 := s.(now := late);
    assert StaleRunning(s1.now)(s1.db.jobs[0]) && Claims(s1, 0, 0);
    more := UnsafeStepWitnesses(now, month, before, SweepRunning);
  }

  /** The budget call of Phase 3 succeeds and the commit that follows it does not. */
  lemma LostCommitSettlesTwice(now: Time, month: Month, topic: Topic, cents: nat) returns (before: seq<Step>, more: seq<Step>)
    ensures SettlesTwiceBy(now, month, before, Phase3(0, Persists(1, true, false)), more)
    ensures After(Initial(now, month), before) == Underway(now, month, Extracted(month, cents, topic))
  {
    var s, call := Underway(now, month, Loaded(month)), CallLlm(0, OnTopic(topic, cents));
    assert Next(s, call) == Underway(now, month, Extracted(month, cents, topic));
    SoundThen(s, call, [], 0);
    before := FromLoaded(now, month, [call] + []);
    more := UnsafeStepWitnesses(now, month, before, Phase3(0, Persists(1, true, false)));
  }

  /** The worker of job 0 has refunded it. */
  function Repaid(now: Time, month: Month): State {
    Underway(now, month, Refunded).(book := map[0 := [Entry(month, Estimate), Entry(month, Actual(0))]])
  }

  lemma WorkerRefunds(now: Time, month: Month)
    ensures var s, t := Underway(now, month, Loaded(month)), Underway(now, month, Failing(month, true, true));
      && Enabled(s, CallLlm(0, LlmError)) && SoundFor(s, CallLlm(0, LlmError), 0) && Next(s, CallLlm(0, LlmError)) == t
      && Enabled(t, RefundFailure(0, true)) && SoundFor(t, RefundFailure(0, true), 0)
      && Next(t, RefundFailure(0, true)) == Repaid(now, month)
  {
    var t := Underway(now, month, Failing(month, true, true));
    assert Posting(t, RefundFailure(0, true)) == Some((0, Entry(month, Actual(0))));
    SecondEntry(0, Entry(month, Estimate), Entry(month, Actual(0)));
  }

  /** From any continuation of the refunded job to one from the initial state. */
  lemma FromRepaid(now: Time, month: Month, steps: seq<Step>) returns (all: seq<Step>)
    requires Runs(Repaid(now, month), steps) && SoundRun(Repaid(now, month), steps, 0)
    ensures Runs(Initial(now, month), all) && SoundRun(Initial(now, month), all, 0)
    ensures After(Initial(now, month), all) == After(Repaid(now, month), steps)
  {
    WorkerRefunds(now, month);
    SoundThen(Underway(now, month, Failing(month, true, true)), RefundFailure(0, true), steps, 0);
    SoundThen(Underway(now, month, Loaded(month)), CallLlm(0, LlmError), [RefundFailure(0, true)] + steps, 0);
    all := FromLoaded(now, month, [CallLlm(0, LlmError)] + ([RefundFailure(0, true)] + steps));
  }

  /** A job that has failed and been refunded is delivered again. */
  lemma RerunAfterFailureSettlesTwice(now: Time, month: Month) returns (before: seq<Step>, more: seq<Step>)
    ensures SettlesTwiceBy(now, month, before, Start(0), more)
    ensures var s := After(Initial(now, month), before); 0 in s.db.jobs && s.db.jobs[0].status == Failed && SettledFor(s.book, 0, 0)
  {
    var s, mark := Repaid(now, month), MarkFailure(0, "llm_provider_error", true);
    SoundThen(s, mark, [], 0);
    before := FromRepaid(now, month, [mark] + []);
    more := UnsafeStepWitnesses(now, month, before, Start(0));
  }

  /** Job 0 is refunded, its worker gone, its row still running, and the row is stale. */
  function Unmarked(now: Time, month: Month): State {
    Repaid(now, month).(workers := [Worker(0, 7, month, Gone)], now := now + RUNNING_THRESHOLD_SECS + 1)
  }

  lemma MarkIsLost(now: Time, month: Month)
    ensures var s0, lose, tick := Repaid(now, month), MarkFailure(0, "llm_provider_error", false), Tick(now + RUNNING_THRESHOLD_SECS + 1, month);
      && Enabled(s0, lose) && SafeFor(s0, lose, 0) && Enabled(Next(s0, lose), tick) && SafeFor(Next(s0, lose), tick, 0)
      && Next(Next(s0, lose), tick) == Unmarked(now, month)
  {
    var s0, lose := Repaid(now, month), MarkFailure(0, "llm_provider_error", false);
    assert Next(s0, lose) == s0.(workers := [Worker(0, 7, month, Gone)]);
  }

  lemma UnmarkedIsAhead(now: Time, month: Month)
    ensures var s := Unmarked(now, month);
      && 0 in s.db.jobs && s.db.jobs[0].status == Running && SettledFor(s.book, 0, 0) && NobodyOn(s, 0)
      && !Balanced(s, 0) && Enabled(s, SweepRunning) && !SafeFor(s, SweepRunning, 0)
  {
    assert StaleRunning(Unmarked(now, month).now)(RunningRow(now, month));
  }

  /** The failure mark of a refunded job is lost and the row, still running, is swept later. Losing the mark already
      leaves the account ahead of the row; it is the sweep that settles twice. */
  lemma LostMarkThenSweepSettlesTwice(now: Time, month: Month) returns (before: seq<Step>, more: seq<Step>)
    ensures Runs(Initial(now, month), before) && SafeRun(Initial(now, month), before, 0)
    ensures After(Initial(now, month), before) == Unmarked(now, month)
    ensures var s := Unmarked(now, month);
      && 0 in s.db.jobs && s.db.jobs[0].status == Running && SettledFor(s.book, 0, 0) && NobodyOn(s, 0)
      && !Balanced(s, 0) && Enabled(s, SweepRunning) && !SafeFor(s, SweepRunning, 0)
      && Runs(Next(s, SweepRunning), more) && SoundRun(Next(s, SweepRunning), more, 0)
      && Settlements(After(Next(s, SweepRunning), more).book, 0) >= 2
  {
    var lose, tick := MarkFailure(0, "llm_provider_error", false), Tick(now + RUNNING_THRESHOLD_SECS + 1, month);
    var first := FromRepaid(now, month, []);
    SoundRunIsSafe(Initial(now, month), first, 0);
    MarkIsLost(now, month);
    SafeTail(now, month, first, Repaid(now, month), lose, Next(Repaid(now, month), lose), tick, Unmarked(now, month));
    before := first + ([lose] + ([tick] + []));
    UnmarkedIsAhead(now, month);
    InitialIsReached(now, month);
    RunsKeepReached(Initial(now, month), before);
    more := UnsafeStepsSettleTwice(Unmarked(now, month), SweepRunning, 0);
  }

  lemma SafeTail(now: Time, month: Month, first: seq<Step>, a: State, x: Step, b: State, y: Step, c: State)
    requires Runs(Initial(now, month), first) && SafeRun(Initial(now, month), first, 0) && After(Initial(now, month), first) == a
    requires Enabled(a, x) && SafeFor(a, x, 0) && Next(a, x) == b && Enabled(b, y) && SafeFor(b, y, 0) && Next(b, y) == c
    ensures var all := first + ([x] + ([y] + []));
      Runs(Initial(now, month), all) && SafeRun(Initial(now, month), all, 0) && After(Initial(now, month), all) == c
  {
    SafeCons(b, y, []);
    SafeCons(a, x, [y] + []);
    RunsAppend(Initial(now, month), first, [x] + ([y] + []));
    SafeAppend(Initial(now, month), first, a, [x] + ([y] + []));
  }

  lemma SafeCons(s: State, step: Step, rest: seq<Step>)
    requires Enabled(s, step) && SafeFor(s, step, 0) && Runs(Next(s, step), rest) && SafeRun(Next(s, step), rest, 0)
    ensures Runs(s, [step] + rest) && SafeRun(s, [step] + rest, 0) && After(s, [step] + rest) == After(Next(s, step), rest)
  {
    RunsCons(s, step, rest);
    assert ([step] + rest)[1..] == rest;
  }

  lemma {:induction false} SafeAppend(s: State, before: seq<Step>, mid: State, after: seq<Step>)
    requires Runs(s, before) && After(s, before) == mid && Runs(mid, after) && SafeRun(s, before, 0) && SafeRun(mid, after, 0)
    ensures Runs(s, before + after) && SafeRun(s, before + after, 0)
    decreases |before|
  {
    if before == [] {
      NothingBeforeSafe(s, before, after);
    } else {
      SafeAppend(Next(s, before[0]), before[1..], mid, after);
      HeadFirst(before, after);
      SafeCons(s, before[0], before[1..] + after);
    }
  }

  lemma NothingBeforeSafe(s: State, before: seq<Step>, after: seq<Step>)
    requires before == [] && Runs(s, after) && SafeRun(s, after, 0)
    ensures Runs(s, before + after) && SafeRun(s, before + after, 0)
  {
    assert before + after == after;
  }

  /** Job 0 is running and two workers are on it. */
  function Beside(now: Time, month: Month, a: WorkerPc, b: WorkerPc): State {
    Underway(now, month, a).(workers := [Worker(0, 7, month, a), Worker(0, 7, month, b)])
  }

  lemma SecondJoins(now: Time, month: Month)
    ensures var s := Underway(now, month, Loaded(month));
      Enabled(s, Start(0)) && Next(s, Start(0)) == Beside(now, month, Loaded(month), Started)
    ensures var s := Beside(now, month, Loaded(month), Started);
      Enabled(s, Load(1, Loads)) && Next(s, Load(1, Loads)) == Beside(now, month, Loaded(month), Loaded(month))
  {
  }

  lemma BothFindNoTopic(now: Time, month: Month)
    ensures var s := Beside(now, month, Loaded(month), Loaded(month));
      Enabled(s, CallLlm(0, NoTopic)) && Next(s, CallLlm(0, NoTopic)) == Beside(now, month, Untopical(month), Loaded(month))
    ensures var s := Beside(now, month, Untopical(month), Loaded(month));
      Enabled(s, CallLlm(1, NoTopic)) && Next(s, CallLlm(1, NoTopic)) == Beside(now, month, Untopical(month), Untopical(month))
  {
  }

  /** Two deliveries of one job can both find no topic. */
  lemma TwoNoTopicsReached(now: Time, month: Month) returns (steps: seq<Step>)
    ensures Runs(Initial(now, month), steps)
    ensures After(Initial(now, month), steps) == Beside(now, month, Untopical(month), Untopical(month))
  {
    var m := month;
    var first := FromLoaded(now, m, []);
    SecondJoins(now, month);
    BothFindNoTopic(now, month);
    steps := [CallLlm(1, NoTopic)] + [];
    RunsCons(Beside(now, m, Untopical(m), Loaded(m)), CallLlm(1, NoTopic), []);
    RunsCons(Beside(now, m, Loaded(m), Loaded(m)), CallLlm(0, NoTopic), steps);
    steps := [CallLlm(0, NoTopic)] + steps;
    RunsCons(Beside(now, m, Loaded(m), Started), Load(1, Loads), steps);
    steps := [Load(1, Loads)] + steps;
    RunsCons(Underway(now, m, Loaded(m)), Start(0), steps);
    steps := [Start(0)] + steps;
    RunsJoin(Initial(now, month), first, steps);
    steps := first + steps;
  }

  /** Nothing need fail for it: two workers of one job that both find no topic both settle it. */
  lemma TwoNoTopicsSettleTwice(s: State, w: nat, v: nat, j: JobId)
    requires j in s.db.jobs && Active(s.db.jobs[j]) && j in s.book && w != v && w < |s.workers| && v < |s.workers|
    requires s.workers[w].job == j && s.workers[w].pc.Untopical? && s.workers[v].job == j && s.workers[v].pc.Untopical?
    ensures var a := Next(s, MarkSkipped(w, true));
      && Enabled(s, MarkSkipped(w, true)) && Enabled(a, MarkSkipped(v, true))
      && var b := Next(a, MarkSkipped(v, true));
         && Enabled(b, SettleSkipped(w, true))
         && var c := Next(b, SettleSkipped(w, true));
            && Enabled(c, SettleSkipped(v, true))
            && var d := Next(c, SettleSkipped(v, true));
               && j in d.db.jobs && d.db.jobs[j].status == Completed && d.db.jobs[j].centsSpent == 0
               && j in d.book && |d.book[j]| == |s.book[j]| + 2
  {
    var a := Next(s, MarkSkipped(w, true));
    assert a.workers[v] == s.workers[v] && a.book == s.book;
    var b := Next(a, MarkSkipped(v, true));
    assert b.workers[w].pc.SkipMarked? && b.workers[v].pc.SkipMarked? && b.book == s.book;
    assert b.db.jobs[j].status == Completed && b.db.jobs[j].centsSpent == 0;
    var c := Next(b, SettleSkipped(w, true));
    assert c.db == b.db && c.workers[v] == b.workers[v] && |c.book[j]| == |s.book[j]| + 1;
  }

  /** So a run from the initial state, in which no call fails and nothing is swept or dies, leaves a completed job with
      two settlements. */
  lemma NoTopicTwiceSettlesTwice(now: Time, month: Month) returns (steps: seq<Step>)
    ensures Runs(Initial(now, month), steps)
    ensures var s := After(Initial(now, month), steps);
      0 in s.db.jobs && s.db.jobs[0].status == Completed && Settlements(s.book, 0) == 2
  {
    var first := TwoNoTopicsReached(now, month);
    var s := Beside(now, month, Untopical(month), Untopical(month));
    TwoNoTopicsSettleTwice(s, 0, 1, 0);
    var a := Next(s, MarkSkipped(0, true));
    var b := Next(a, MarkSkipped(1, true));
    var c := Next(b, SettleSkipped(0, true));
    steps := [SettleSkipped(1, true)] + [];
    RunsCons(c, SettleSkipped(1, true), []);
    RunsCons(b, SettleSkipped(0, true), steps);
    steps := [SettleSkipped(0, true)] + steps;
    RunsCons(a, MarkSkipped(1, true), steps);
    steps := [MarkSkipped(1, true)] + steps;
    RunsCons(s, MarkSkipped(0, true), steps);
    steps := [MarkSkipped(0, true)] + steps;
    RunsJoin(Initial(now, month), first, steps);
    steps := first + steps;
  }

  // ------------------------------------------------------------------
  // The wrong bucket
  // ------------------------------------------------------------------

  /** The job can be started: it is not completed, its conversation is not processed, and its key is free. */
  ghost predicate Startable(s: State, j: JobId) {
    && j in s.db.jobs && s.db.jobs[j].status != Completed && s.db.jobs[j].key.conv !in s.db.processed
    && Revivable(s, j)
  }

  /** A worker that starts in another month, reads the period, and then fails to load the conversation refunds
      the month it started in. */
  lemma LateLoadFailureMisroutes(s: State, j: JobId)
    requires Startable(s, j) && j in s.book && s.db.jobs[j].periodStart != s.month
    ensures var w := |s.workers|;
      && Enabled(s, Start(j)) && Enabled(Next(s, Start(j)), Load(w, LateError))
      && var s2 := Next(Next(s, Start(j)), Load(w, LateError));
         && Enabled(s2, RefundFailure(w, true)) && Misroutes(s2, RefundFailure(w, true), j)
         && Next(s2, RefundFailure(w, true)).book == s.book[j := s.book[j] + [Entry(s.month, Actual(0))]]
  {
    var w, row := |s.workers|, s.db.jobs[j];
    var s1 := Next(s, Start(j));
    assert s1 == s.(workers := s.workers + [Worker(j, row.key.conv, s.month, Started)]);
    var s2 := Next(s1, Load(w, LateError));
    assert s2 == s.(workers := s.workers + [Worker(j, row.key.conv, s.month, Failing(s.month, true, false))]);
  }

  /** Such states are reachable: one request, then the turn of the month. */
  lemma MonthTurnsBeforeStart(now: Time, month: Month) returns (steps: seq<Step>)
    ensures Runs(Initial(now, month), steps)
    ensures After(Initial(now, month), steps) == Inserted(now, month).(month := month + 1)
    ensures Startable(After(Initial(now, month), steps), 0)
  {
    var s, turn := Inserted(now, month), Tick(now, month + 1);
    SoundThen(s, turn, [], 0);
    steps := FromInserted(now, month, [turn] + []);
    assert !Conflicts(s.db.jobs, 0, KEY);
  }
}
