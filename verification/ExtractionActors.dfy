/** The three programs of the protocol in their own imperative form. A worker and an ingest request are proved against
    every run of the machine in `ExtractionRuns`: with the other actors' steps of the run at their awaits, they do to
    the database and the ledger what the machine does, step for step. A sweep cycle is proved to compute what the
    machine's sweep and refund steps compute. So the theorems about all runs are about this code. */
module ExtractionActors {
  import opened Prelude
  import opened ExtractionJobs
  import opened ExtractionRuns

  /** `BudgetHelper`, reduced to the entries its two calls book. */
  class Ledger {
    var book: Book

    constructor ()
      ensures book == map[]
    {
      book := map[];
    }

    method Record(id: JobId, entry: Entry)
      modifies this
      ensures book == Posted(old(book), Some((id, entry)))
    {
      book := book[id := (if id in book then book[id] else []) + [entry]];
    }

    /** Best effort: a failing call is logged and swallowed by every caller. */
    method RecordActualCost(id: JobId, bucket: Month, cents: nat, ok: bool)
      modifies this
      ensures book == Posted(old(book), if ok then Some((id, Entry(bucket, Actual(cents)))) else None)
    {
      if ok {
        Record(id, Entry(bucket, Actual(cents)));
      }
    }

    method Restore(book: Book)
      modifies this
      ensures this.book == book
    {
      this.book := book;
    }
  }

  // ------------------------------------------------------------------
  // Actors in a run
  // ------------------------------------------------------------------

  datatype Actor = OnWorker(w: nat) | OnIngest(i: nat)

  predicate Mine(step: Step, a: Actor) {
    match a
    case OnWorker(w) => WorkerMoves(step) && step.worker == w
    case OnIngest(i) => IngestMoves(step) && step.ingest == i
  }

  predicate Busy(s: State, a: Actor) {
    match a
    case OnWorker(w) => w < |s.workers| && s.workers[w].pc != Gone
    case OnIngest(i) => i < |s.ingests| && s.ingests[i].pc != Over
  }

  /** The actor's own part of the state. */
  predicate SameActor(s: State, t: State, a: Actor) {
    match a
    case OnWorker(w) => w < |s.workers| && w < |t.workers| && t.workers[w] == s.workers[w]
    case OnIngest(i) => i < |s.ingests| && i < |t.ingests| && t.ingests[i] == s.ingests[i]
  }

  /** A busy actor, and a run at whose end it is done. */
  ghost predicate Underway(s: State, run: seq<Step>, a: Actor) {
    Safe(s) && Runs(s, run) && Busy(s, a) && !Busy(After(s, run), a)
  }

  /** `here` and `rest` are where the machine and its run stand after some of the run's steps. */
  ghost predicate Further(world: State, run: seq<Step>, here: State, rest: seq<Step>)
    requires Runs(world, run)
  {
    Runs(here, rest) && After(here, rest) == After(world, run)
  }

  lemma OtherStepKeepsActor(s: State, step: Step, a: Actor)
    requires Enabled(s, step) && Busy(s, a) && !Mine(step, a)
    ensures SameActor(s, Next(s, step), a)
  {
  }

  lemma StepsFurther(s: State, run: seq<Step>, a: Actor)
    requires Underway(s, run, a)
    ensures run != [] && Enabled(s, run[0]) && Further(s, run, Next(s, run[0]), run[1..])
    ensures Busy(Next(s, run[0]), a) ==> Underway(Next(s, run[0]), run[1..], a)
    ensures RowsEvolve(s.db.jobs, Next(s, run[0]).db.jobs)
  {
    NextKeepsSafe(s, run[0]);
    NextKeepsDb(s, run[0]);
  }

  /** What the transactions of one request come to. */
  datatype Counts = Counts(saves: seq<(ConvId, string)>, over: nat, lost: nat, tasks: seq<(JobId, ConvId)>)

  const NO_COUNTS := Counts([], 0, 0, [])

  function Counted(s: State, step: Step, later: Counts): Counts
    requires Enabled(s, step)
  {
    match step
    case Save(_, conv, source) => later.(saves := [(conv, source)] + later.saves)
    case PreCharge(_, _, false) => later.(over := later.over + 1)
    case Insert(i, _) =>
      if InsertLost(s, step) then later.(lost := later.lost + 1)
      else later.(tasks := [(s.ingests[i].pc.id, s.ingests[i].pc.key.conv)] + later.tasks)
    case _ => later
  }

  function Tally(s: State, run: seq<Step>, i: nat): Counts
    requires Runs(s, run)
    decreases |run|
  {
    if run == [] then NO_COUNTS
    else if Mine(run[0], OnIngest(i)) then Counted(s, run[0], Tally(Next(s, run[0]), run[1..], i))
    else Tally(Next(s, run[0]), run[1..], i)
  }

  lemma {:induction false} OverCountsNothing(s: State, run: seq<Step>, i: nat)
    requires Runs(s, run) && i < |s.ingests| && s.ingests[i].pc.Over?
    ensures Tally(s, run, i) == NO_COUNTS
    decreases |run|
  {
    if run != [] {
      OverCountsNothing(Next(s, run[0]), run[1..], i);
    }
  }

  /** The database and the ledger are those of the machine. */
  ghost predicate Mirrors(store: ExtractionStore, ledger: Ledger, s: State)
    reads store, ledger
  {
    s.db == store.View() && s.book == ledger.book
  }

  /** Another actor moves. */
  method OtherMoves(store: ExtractionStore, ledger: Ledger, a: Actor, world: State, run: seq<Step>) returns (here: State, rest: seq<Step>)
    requires Underway(world, run, a) && run != [] && Enabled(world, run[0]) && !Mine(run[0], a)
    modifies store, ledger
    ensures run != [] && Enabled(world, run[0]) && here == Next(world, run[0]) && rest == run[1..]
    ensures Underway(here, rest, a) && Mirrors(store, ledger, here) && SameActor(world, here, a)
    ensures RowsEvolve(world.db.jobs, here.db.jobs)
  {
    OtherStepKeepsActor(world, run[0], a);
    StepsFurther(world, run, a);
    here, rest := Next(world, run[0]), run[1..];
    store.Restore(here.db);
    ledger.Restore(here.book);
  }

  /** `await`: the others move, in the order of the run, until it is this actor's turn. */
  method Await(store: ExtractionStore, ledger: Ledger, a: Actor, world: State, run: seq<Step>) returns (here: State, rest: seq<Step>)
    requires Underway(world, run, a) && Mirrors(store, ledger, world)
    modifies store, ledger
    ensures Underway(here, rest, a) && Mirrors(store, ledger, here) && SameActor(world, here, a)
    ensures Further(world, run, here, rest) && rest != [] && Enabled(here, rest[0]) && Mine(rest[0], a)
    ensures RowsEvolve(world.db.jobs, here.db.jobs)
    ensures a.OnIngest? ==> Tally(here, rest, a.i) == Tally(world, run, a.i)
  {
    here, rest := world, run;
    StepsFurther(here, rest, a);
    while !Mine(rest[0], a)
      invariant Underway(here, rest, a) && Mirrors(store, ledger, here) && SameActor(world, here, a)
      invariant Further(world, run, here, rest) && rest != [] && Enabled(here, rest[0])
      invariant RowsEvolve(world.db.jobs, here.db.jobs)
      invariant a.OnIngest? ==> Tally(here, rest, a.i) == Tally(world, run, a.i)
      decreases |rest|
    {
      here, rest := OtherMoves(store, ledger, a, here, rest);
      StepsFurther(here, rest, a);
    }
  }

  // ------------------------------------------------------------------
  // The worker
  // ------------------------------------------------------------------

  predicate WorkerAt(s: State, w: nat, job: JobId, conv: ConvId, start: Month, pc: WorkerPc) {
    w < |s.workers| && s.workers[w] == Worker(job, conv, start, pc)
  }

  class ExtractionWorker {
    const store: ExtractionStore
    const ledger: Ledger
    const job: JobId
    const conv: ConvId
    const startMonth: Month
    var effectivePeriodStart: Month
    var periodStartKnown: bool

    constructor (store: ExtractionStore, ledger: Ledger, job: JobId, conv: ConvId, month: Month)
      ensures this.store == store && this.ledger == ledger && this.job == job && this.conv == conv
      ensures startMonth == month && effectivePeriodStart == month && !periodStartKnown
    {
      this.store, this.ledger, this.job, this.conv, startMonth := store, ledger, job, conv, month;
      effectivePeriodStart, periodStartKnown := month, false;
    }

    /** The machine is at this point of the run, and its worker `w` is this object, at `pc`. */
    ghost predicate Before(s: State, run: seq<Step>, w: nat, pc: WorkerPc)
      reads store, ledger
    {
      Underway(s, run, OnWorker(w)) && Mirrors(store, ledger, s) && WorkerAt(s, w, job, conv, startMonth, pc)
    }

    /** Some of the run later the worker is at `pc`. */
    ghost predicate Reaches(world: State, run: seq<Step>, here: State, rest: seq<Step>, w: nat, pc: WorkerPc)
      requires Runs(world, run)
      reads store, ledger
    {
      && Further(world, run, here, rest) && Mirrors(store, ledger, here) && WorkerAt(here, w, job, conv, startMonth, pc)
      && (pc != Gone ==> Underway(here, rest, OnWorker(w)))
    }

    /** `await`, then this worker's turn. */
    method Turn(w: nat, world: State, run: seq<Step>, ghost pc: WorkerPc) returns (here: State, rest: seq<Step>)
      requires Before(world, run, w, pc)
      modifies store, ledger
      ensures Before(here, rest, w, pc) && Further(world, run, here, rest)
      ensures rest != [] && Enabled(here, rest[0]) && Mine(rest[0], OnWorker(w))
      ensures Further(world, run, Next(here, rest[0]), rest[1..])
      ensures Busy(Next(here, rest[0]), OnWorker(w)) ==> Underway(Next(here, rest[0]), rest[1..], OnWorker(w))
    {
      here, rest := Await(store, ledger, OnWorker(w), world, run);
      StepsFurther(here, rest, OnWorker(w));
    }

    /** The connection of Phase 1. `loaded` is None when the conversation is already processed; false when the
        transaction failed and was rolled back. */
    method Phase1(load: LoadOutcome, now: Time, ghost s: State, ghost w: nat) returns (loaded: Option<bool>)
      requires Mirrors(store, ledger, s) && s.now == now && WorkerAt(s, w, job, conv, startMonth, Started)
      requires effectivePeriodStart == startMonth && !periodStartKnown
      modifies this, store
      ensures Mirrors(store, ledger, Next(s, Load(w, load)))
      ensures Next(s, Load(w, load)).workers[w].pc ==
        match loaded
        case None => Gone
        case Some(true) => Loaded(effectivePeriodStart)
        case Some(false) => Failing(effectivePeriodStart, periodStartKnown, false)
      ensures loaded == Some(true) && job in s.db.jobs ==> periodStartKnown
    {
      if load.EarlyError? {
        return Some(false);
      }
      if conv in store.processed {
        return None;
      }
      var before := store.jobs;
      var revived := store.MarkJobRunning(job, now);
      if !revived {
        return Some(false);
      }
      var jobPeriodStart := store.GetPeriodStart(job);
      periodStartKnown := jobPeriodStart.Some?;
      if load.LateError? {
        store.jobs := before;
        return Some(false);
      }
      if jobPeriodStart.Some? {
        effectivePeriodStart := jobPeriodStart.value;
      }
      loaded := Some(true);
    }

    /** The mark of the no-topic path. `marked` is None when the worker dies instead. */
    method MarkSkippedStep(w: nat, world: State, run: seq<Step>) returns (marked: Option<bool>, here: State, rest: seq<Step>)
      requires Before(world, run, w, Untopical(effectivePeriodStart))
      modifies store, ledger
      ensures Reaches(world, run, here, rest, w,
        match marked case None => Gone case Some(true) => SkipMarked(effectivePeriodStart) case Some(false) => Failing(effectivePeriodStart, true, true))
    {
      here, rest := Turn(w, world, run, Untopical(effectivePeriodStart));
      var step := rest[0];
      here, rest := Next(here, step), rest[1..];
      if step.Die? {
        return None, here, rest;
      }
      if step.ok {
        store.MarkSkippedNoTopic(job, conv);
      }
      marked := Some(step.ok);
    }

    method SettleSkippedStep(w: nat, world: State, run: seq<Step>) returns (here: State, rest: seq<Step>)
      requires Before(world, run, w, SkipMarked(effectivePeriodStart))
      modifies store, ledger
      ensures Reaches(world, run, here, rest, w, Gone)
    {
      here, rest := Turn(w, world, run, SkipMarked(effectivePeriodStart));
      if rest[0].SettleSkipped? {
        ledger.RecordActualCost(job, effectivePeriodStart, 0, rest[0].ok);
      }
      here, rest := Next(here, rest[0]), rest[1..];
    }

    /** The no-topic path: mark, then refund. */
    method SkipNoTopicPath(w: nat, world: State, run: seq<Step>) returns (failed: bool, here: State, rest: seq<Step>)
      requires Before(world, run, w, Untopical(effectivePeriodStart))
      modifies store, ledger
      ensures Reaches(world, run, here, rest, w, if failed then Failing(effectivePeriodStart, true, true) else Gone)
    {
      var marked;
      marked, here, rest := MarkSkippedStep(w, world, run);
      if marked == Some(true) {
        here, rest := SettleSkippedStep(w, here, rest);
      }
      failed := marked == Some(false);
    }

    /** The connection of Phase 3: check again, persist, settle the budget, commit. */
    method Phase3Connection(persist: PersistOutcome, topic: Topic, cents: nat, ghost s: State, ghost w: nat) returns (done: bool)
      requires Mirrors(store, ledger, s) && WorkerAt(s, w, job, conv, startMonth, Extracted(effectivePeriodStart, cents, topic))
      modifies store, ledger
      ensures Mirrors(store, ledger, Next(s, Phase3(w, persist)))
      ensures Next(s, Phase3(w, persist)).workers[w].pc == if done then Gone else Failing(effectivePeriodStart, true, true)
    {
      if conv in store.processed {
        return true;
      }
      if persist.PersistError? {
        return false;
      }
      var before := store.View();
      store.PersistExtraction(job, conv, topic, persist.entries, cents);
      ledger.RecordActualCost(job, effectivePeriodStart, cents, persist.paid);
      if !persist.commits {
        store.Restore(before);
      }
      done := persist.commits;
    }

    /** The refund of the outer `except`, gated by `_period_start_known`. */
    method RefundFailureStep(loaded: bool, w: nat, world: State, run: seq<Step>) returns (alive: bool, here: State, rest: seq<Step>)
      requires Before(world, run, w, Failing(effectivePeriodStart, periodStartKnown, loaded))
      modifies store, ledger
      ensures Reaches(world, run, here, rest, w, if alive then Refunded else Gone)
    {
      here, rest := Turn(w, world, run, Failing(effectivePeriodStart, periodStartKnown, loaded));
      alive := !rest[0].Die?;
      if alive && periodStartKnown {
        ledger.RecordActualCost(job, effectivePeriodStart, 0, rest[0].ok);
      }
      here, rest := Next(here, rest[0]), rest[1..];
    }

    method MarkFailureStep(w: nat, world: State, run: seq<Step>) returns (here: State, rest: seq<Step>)
      requires Before(world, run, w, Refunded)
      modifies store, ledger
      ensures Reaches(world, run, here, rest, w, Gone)
    {
      here, rest := Turn(w, world, run, Refunded);
      if rest[0].MarkFailure? && rest[0].ok {
        store.RecordJobFailure(job, rest[0].code);
      }
      here, rest := Next(here, rest[0]), rest[1..];
    }

    /** The outer `except`: refund, then mark the job failed. */
    method FailurePath(loaded: bool, w: nat, world: State, run: seq<Step>) returns (here: State, rest: seq<Step>)
      requires Before(world, run, w, Failing(effectivePeriodStart, periodStartKnown, loaded))
      modifies store, ledger
      ensures Reaches(world, run, here, rest, w, Gone)
    {
      var alive;
      alive, here, rest := RefundFailureStep(loaded, w, world, run);
      if alive {
        here, rest := MarkFailureStep(w, here, rest);
      }
    }

    /** The model calls. None when the worker dies in them. */
    method CallLlmStep(w: nat, world: State, run: seq<Step>) returns (outcome: Option<LlmOutcome>, here: State, rest: seq<Step>)
      requires Before(world, run, w, Loaded(effectivePeriodStart))
      modifies store, ledger
      ensures Reaches(world, run, here, rest, w,
        match outcome
        case None => Gone
        case Some(LlmError) => Failing(effectivePeriodStart, true, true)
        case Some(NoTopic) => Untopical(effectivePeriodStart)
        case Some(OnTopic(topic, cents)) => Extracted(effectivePeriodStart, cents, topic))
    {
      here, rest := Turn(w, world, run, Loaded(effectivePeriodStart));
      outcome := if rest[0].Die? then None else Some(rest[0].llm);
      here, rest := Next(here, rest[0]), rest[1..];
    }

    /** Phase 3. */
    method PersistStep(topic: Topic, cents: nat, w: nat, world: State, run: seq<Step>) returns (failed: bool, here: State, rest: seq<Step>)
      requires Before(world, run, w, Extracted(effectivePeriodStart, cents, topic))
      modifies store, ledger
      ensures Reaches(world, run, here, rest, w, if failed then Failing(effectivePeriodStart, true, true) else Gone)
    {
      failed := false;
      here, rest := Turn(w, world, run, Extracted(effectivePeriodStart, cents, topic));
      if rest[0].Phase3? {
        var done := Phase3Connection(rest[0].persist, topic, cents, here, w);
        failed := !done;
      }
      here, rest := Next(here, rest[0]), rest[1..];
    }

    /** From the model calls on, once Phase 1 has committed. */
    method Extract(w: nat, world: State, run: seq<Step>) returns (failed: bool, here: State, rest: seq<Step>)
      requires Before(world, run, w, Loaded(effectivePeriodStart))
      modifies store, ledger
      ensures Reaches(world, run, here, rest, w, if failed then Failing(effectivePeriodStart, true, true) else Gone)
    {
      var outcome;
      outcome, here, rest := CallLlmStep(w, world, run);
      match outcome
      case None => failed := false;
      case Some(LlmError) => failed := true;
      case Some(NoTopic) => failed, here, rest := SkipNoTopicPath(w, here, rest);
      case Some(OnTopic(topic, cents)) => failed, here, rest := PersistStep(topic, cents, w, here, rest);
    }

    /** Phase 1. `loaded` is None when there is nothing to do any more. */
    method LoadStep(w: nat, world: State, run: seq<Step>) returns (loaded: Option<bool>, here: State, rest: seq<Step>)
      requires Before(world, run, w, Started) && effectivePeriodStart == startMonth && !periodStartKnown
      modifies this, store, ledger
      ensures loaded == Some(true) ==> periodStartKnown
      ensures Reaches(world, run, here, rest, w,
        match loaded
        case None => Gone
        case Some(true) => Loaded(effectivePeriodStart)
        case Some(false) => Failing(effectivePeriodStart, periodStartKnown, false))
    {
      here, rest := Turn(w, world, run, Started);
      loaded := None;
      if rest[0].Load? {
        assert Placed(here, w);
        loaded := Phase1(rest[0].load, here.now, here, w);
      }
      here, rest := Next(here, rest[0]), rest[1..];
    }

    /** `extract_conversation`, in any run of the machine in which its worker comes to an end: with the run's outcomes
        of its own calls, and the others' steps of the run in between, the code does what the machine does. */
    method ExtractConversation(w: nat, world: State, run: seq<Step>) returns (here: State, rest: seq<Step>)
      requires Before(world, run, w, Started) && effectivePeriodStart == startMonth && !periodStartKnown
      modifies this, store, ledger
      ensures Reaches(world, run, here, rest, w, Gone)
    {
      var loaded;
      loaded, here, rest := LoadStep(w, world, run);
      var failed := loaded == Some(false);
      if loaded == Some(true) {
        failed, here, rest := Extract(w, here, rest);
      }
      if failed {
        here, rest := FailurePath(loaded == Some(true), w, here, rest);
      }
    }
  }

  // ------------------------------------------------------------------
  // The ingest request
  // ------------------------------------------------------------------

  /** One conversation of a request: already stored, or stored by another request just before TXN 1, or neither. */
  datatype Item = Item(conv: ConvId, source: string, duplicate: bool, lostRace: bool)

  predicate Kept(item: Item) { !item.duplicate && !item.lostRace }

  /** What a request for these conversations saves if it gets to its end. */
  function Wanted(items: seq<Item>): seq<(ConvId, string)> {
    if items == [] then []
    else if Kept(items[0]) then [(items[0].conv, items[0].source)] + Wanted(items[1..])
    else Wanted(items[1..])
  }

  lemma WantedFrom(items: seq<Item>, n: nat)
    requires n < |items|
    ensures Wanted(items[n..]) ==
      if Kept(items[n]) then [(items[n].conv, items[n].source)] + Wanted(items[n + 1..]) else Wanted(items[n + 1..])
  {
    assert items[n..][1..] == items[n + 1..];
  }

  lemma PrefixTail(x: (ConvId, string), a: seq<(ConvId, string)>, b: seq<(ConvId, string)>)
    requires [x] + a <= [x] + b
    ensures a <= b
  {
    assert forall k :: 0 <= k < |a| ==> ([x] + a)[k + 1] == a[k] && ([x] + b)[k + 1] == b[k];
  }

  lemma TaskMoves(tasks: seq<(JobId, ConvId)>, task: (JobId, ConvId), later: seq<(JobId, ConvId)>)
    ensures tasks + ([task] + later) == (tasks + [task]) + later
  {
  }

  datatype Charge = Died | OverBudget | Allowed(id: JobId)

  class IngestRequest {
    const store: ExtractionStore
    const ledger: Ledger
    const user: User
    const period: Month
    var saved: nat
    var skippedDedupe: nat
    var skippedBudget: nat
    var skippedError: nat
    var budgetExhausted: bool
    var enqueueTasks: seq<(JobId, ConvId)>

    constructor (store: ExtractionStore, ledger: Ledger, user: User, month: Month)
      ensures this.store == store && this.ledger == ledger && this.user == user && period == month
      ensures Agrees(NO_COUNTS, NO_COUNTS) && skippedDedupe == 0
    {
      this.store, this.ledger, this.user, period := store, ledger, user, month;
      saved, skippedDedupe, skippedBudget, skippedError := 0, 0, 0, 0;
      budgetExhausted, enqueueTasks := false, [];
    }

    /** The counters hold what the run comes to, less what is left of it. */
    predicate Agrees(total: Counts, left: Counts)
      reads this
    {
      && saved + |left.saves| == |total.saves|
      && skippedBudget + left.over == total.over && skippedError + left.lost == total.lost
      && enqueueTasks + left.tasks == total.tasks
      && (budgetExhausted <==> skippedBudget > 0)
    }

    /** Every task names a row of this user for its own conversation. */
    predicate TasksNamed()
      reads this, store
    {
      forall k :: 0 <= k < |enqueueTasks| ==>
        var (job, conv) := enqueueTasks[k];
        job in store.jobs && store.jobs[job].key.user == user && store.jobs[job].key.conv == conv
    }

    /** Every saved conversation but the one in hand has been counted a second time. */
    predicate Balances(pc: IngestPc)
      reads this
    {
      saved == |enqueueTasks| + skippedBudget + skippedError + if pc.Saved? || pc.Charged? then 1 else 0
    }

    /** The machine is at this point of the run, and its request `i` is this object, at `pc`. */
    ghost predicate Stands(s: State, run: seq<Step>, i: nat, pc: IngestPc, total: Counts)
      reads this, store, ledger
    {
      && Runs(s, run) && Mirrors(store, ledger, s) && i < |s.ingests| && s.ingests[i] == Ingest(user, period, pc)
      && Agrees(total, Tally(s, run, i)) && TasksNamed()
      && (!pc.Over? ==> Underway(s, run, OnIngest(i)) && Balances(pc))
    }

    /** `await`, then this request's turn. */
    method Turn(i: nat, world: State, run: seq<Step>, ghost pc: IngestPc, ghost total: Counts) returns (here: State, rest: seq<Step>)
      requires !pc.Over? && Stands(world, run, i, pc, total)
      modifies store, ledger
      ensures Mirrors(store, ledger, here) && TasksNamed()
      ensures i < |here.ingests| && here.ingests[i] == Ingest(user, period, pc)
      ensures Runs(here, rest) && rest != [] && Enabled(here, rest[0]) && Mine(rest[0], OnIngest(i))
      ensures Further(world, run, Next(here, rest[0]), rest[1..])
      ensures Busy(Next(here, rest[0]), OnIngest(i)) ==> Underway(Next(here, rest[0]), rest[1..], OnIngest(i))
      ensures Tally(world, run, i) == Counted(here, rest[0], Tally(Next(here, rest[0]), rest[1..], i))
    {
      here, rest := Await(store, ledger, OnIngest(i), world, run);
      StepsFurther(here, rest, OnIngest(i));
    }

    /** The machine is past a step of this request, which led to `pc`. */
    ghost predicate Moved(world: State, run: seq<Step>, here: State, rest: seq<Step>, i: nat, pc: IngestPc)
      requires Runs(world, run)
    {
      && Further(world, run, here, rest) && i < |here.ingests| && here.ingests[i] == Ingest(user, period, pc)
      && (!pc.Over? ==> Underway(here, rest, OnIngest(i)))
    }

    /** What comes of TXN 1: the conversation saved, or nothing when the request ends here. */
    method SaveTurn(i: nat, world: State, run: seq<Step>, ghost total: Counts) returns (save: Option<(ConvId, string)>, here: State, rest: seq<Step>)
      requires Stands(world, run, i, Ready, total)
      modifies store, ledger
      ensures Moved(world, run, here, rest, i, if save.Some? then Saved(Key(user, save.value.0, save.value.1)) else Over)
      ensures Mirrors(store, ledger, here) && TasksNamed()
      ensures var left := Tally(here, rest, i);
        Tally(world, run, i) == if save.Some? then left.(saves := [save.value] + left.saves) else left
    {
      here, rest := Turn(i, world, run, Ready, total);
      save := if rest[0].Save? then Some((rest[0].conv, rest[0].source)) else None;
      here, rest := Next(here, rest[0]), rest[1..];
    }

    /** TXN 1. */
    method SaveStep(item: Item, i: nat, world: State, run: seq<Step>, ghost total: Counts) returns (alive: bool, here: State, rest: seq<Step>)
      requires Stands(world, run, i, Ready, total)
      requires var saves := Tally(world, run, i).saves; saves != [] ==> saves[0] == (item.conv, item.source)
      modifies this`saved, store, ledger
      ensures Further(world, run, here, rest)
      ensures Stands(here, rest, i, if alive then Saved(Key(user, item.conv, item.source)) else Over, total)
      ensures alive ==> saved == old(saved) + 1
      ensures alive ==> Tally(world, run, i).saves == [(item.conv, item.source)] + Tally(here, rest, i).saves
    {
      var save;
      save, here, rest := SaveTurn(i, world, run, total);
      alive := save.Some?;
      if alive {
        saved := saved + 1;
      }
    }

    /** What the pre-charge answers; the ledger does not know of it yet. */
    method ChargeTurn(ghost key: Key, i: nat, world: State, run: seq<Step>, ghost total: Counts) returns (charge: Charge, here: State, rest: seq<Step>)
      requires Stands(world, run, i, Saved(key), total)
      modifies store, ledger
      ensures Moved(world, run, here, rest, i, match charge case Died => Over case OverBudget => Ready case Allowed(id) => Charged(key, id))
      ensures here.db == store.View() && TasksNamed()
      ensures here.book == Posted(ledger.book, if charge.Allowed? then Some((charge.id, Entry(period, Estimate))) else None)
      ensures var left := Tally(here, rest, i); Tally(world, run, i) == if charge.OverBudget? then left.(over := left.over + 1) else left
    {
      here, rest := Turn(i, world, run, Saved(key), total);
      var step := rest[0];
      charge := if step.EndIngest? then Died else if step.allowed then Allowed(step.id) else OverBudget;
      here, rest := Next(here, step), rest[1..];
    }

    /** The pre-charge, outside any transaction. */
    method ChargeStep(ghost key: Key, i: nat, world: State, run: seq<Step>, ghost total: Counts) returns (charge: Charge, here: State, rest: seq<Step>)
      requires Stands(world, run, i, Saved(key), total)
      modifies this`skippedBudget, this`budgetExhausted, store, ledger
      ensures Further(world, run, here, rest) && Tally(here, rest, i).saves == Tally(world, run, i).saves
      ensures Stands(here, rest, i, match charge case Died => Over case OverBudget => Ready case Allowed(id) => Charged(key, id), total)
    {
      charge, here, rest := ChargeTurn(key, i, world, run, total);
      if charge.OverBudget? {
        skippedBudget := skippedBudget + 1;
        budgetExhausted := true;
      } else if charge.Allowed? {
        ledger.Record(charge.id, Entry(period, Estimate));
      }
    }

    /** What the insert does to a table. */
    function Insertion(jobs: Jobs, id: JobId, key: Key, fails: bool, now: Time): Option<Jobs> {
      if fails then None else InsertPending(jobs, id, key, period, now)
    }

    /** When TXN 2 is tried, and whether it fails; its insert is not made yet. None when the request ends here. */
    method InsertTurn(id: JobId, key: Key, i: nat, world: State, run: seq<Step>, ghost total: Counts)
      returns (attempt: Option<(bool, Time)>, here: State, rest: seq<Step>)
      requires Stands(world, run, i, Charged(key, id), total)
      modifies store, ledger
      ensures Runs(here, rest) && here.book == ledger.book && TasksNamed() && (attempt.Some? ==> id !in store.jobs)
      ensures var left := Tally(here, rest, i);
        match attempt
        case None => Moved(world, run, here, rest, i, Over) && here.db == store.View() && Tally(world, run, i) == left
        case Some((fails, now)) =>
          var inserted := Insertion(store.jobs, id, key, fails, now);
          if inserted.None? then
            && Moved(world, run, here, rest, i, Refused(id)) && here.db == store.View()
            && Tally(world, run, i) == left.(lost := left.lost + 1)
          else
            && Moved(world, run, here, rest, i, Ready) && here.db == store.View().(jobs := inserted.value)
            && Tally(world, run, i) == left.(tasks := [(id, key.conv)] + left.tasks)
    {
      here, rest := Turn(i, world, run, Charged(key, id), total);
      attempt := if rest[0].Insert? then Some((rest[0].fails, here.now)) else None;
      here, rest := Next(here, rest[0]), rest[1..];
    }

    /** TXN 2: the insert fails, or conflicts with a job in flight, whose recovery read then fails in the aborted
        transaction; either way nothing is inserted. */
    method InsertPendingJob(id: JobId, key: Key, fails: bool, now: Time) returns (lost: bool)
      requires TasksNamed() && id !in store.jobs && key.user == user
      modifies this`enqueueTasks, this`skippedError, store
      ensures var inserted := Insertion(old(store.jobs), id, key, fails, now);
        && lost == inserted.None?
        && store.View() == (if lost then old(store.View()) else old(store.View()).(jobs := inserted.value))
      ensures enqueueTasks == if lost then old(enqueueTasks) else old(enqueueTasks) + [(id, key.conv)]
      ensures skippedError == old(skippedError) + if lost then 1 else 0
      ensures TasksNamed()
    {
      lost := fails;
      if !fails {
        var created := store.CreatePending(id, key, period, now, true);
        lost := !created.Fresh?;
      }
      if lost {
        skippedError := skippedError + 1;
      } else {
        enqueueTasks := enqueueTasks + [(id, key.conv)];
      }
    }

    /** TXN 2. None when the request dies instead. */
    method InsertStep(id: JobId, key: Key, i: nat, world: State, run: seq<Step>, ghost total: Counts) returns (lost: Option<bool>, here: State, rest: seq<Step>)
      requires Stands(world, run, i, Charged(key, id), total) && key.user == user
      modifies this`skippedError, this`enqueueTasks, store, ledger
      ensures Further(world, run, here, rest) && Tally(here, rest, i).saves == Tally(world, run, i).saves
      ensures Stands(here, rest, i, match lost case None => Over case Some(true) => Refused(id) case Some(false) => Ready, total)
    {
      var attempt;
      attempt, here, rest := InsertTurn(id, key, i, world, run, total);
      lost := None;
      if attempt.Some? {
        TaskMoves(enqueueTasks, (id, key.conv), Tally(here, rest, i).tasks);
        var l := InsertPendingJob(id, key, attempt.value.0, attempt.value.1);
        lost := Some(l);
      }
    }

    /** Whether the refund call of a pre-charge without a row succeeds; the ledger does not know of it yet. */
    method RefundTurn(id: JobId, i: nat, world: State, run: seq<Step>, ghost total: Counts) returns (ok: Option<bool>, here: State, rest: seq<Step>)
      requires Stands(world, run, i, Refused(id), total)
      modifies store, ledger
      ensures Moved(world, run, here, rest, i, if ok.Some? then Ready else Over)
      ensures here.db == store.View() && TasksNamed()
      ensures here.book == Posted(ledger.book, if ok == Some(true) then Some((id, Entry(period, Actual(0)))) else None)
      ensures Tally(here, rest, i) == Tally(world, run, i)
    {
      here, rest := Turn(i, world, run, Refused(id), total);
      ok := if rest[0].RefundIngest? then Some(rest[0].ok) else None;
      here, rest := Next(here, rest[0]), rest[1..];
    }

    /** The refund of a pre-charge that got no row. */
    method RefundStep(id: JobId, i: nat, world: State, run: seq<Step>, ghost total: Counts) returns (alive: bool, here: State, rest: seq<Step>)
      requires Stands(world, run, i, Refused(id), total)
      modifies store, ledger
      ensures Further(world, run, here, rest) && Tally(here, rest, i).saves == Tally(world, run, i).saves
      ensures Stands(here, rest, i, if alive then Ready else Over, total)
    {
      var ok;
      ok, here, rest := RefundTurn(id, i, world, run, total);
      alive := ok.Some?;
      if alive {
        ledger.RecordActualCost(id, period, 0, ok.value);
      }
    }

    /** What follows an allowed pre-charge. */
    method InsertOrRefund(id: JobId, key: Key, i: nat, world: State, run: seq<Step>, ghost total: Counts) returns (alive: bool, here: State, rest: seq<Step>)
      requires Stands(world, run, i, Charged(key, id), total) && key.user == user
      modifies this`skippedError, this`enqueueTasks, store, ledger
      ensures Further(world, run, here, rest) && Tally(here, rest, i).saves == Tally(world, run, i).saves
      ensures Stands(here, rest, i, if alive then Ready else Over, total)
    {
      var lost;
      lost, here, rest := InsertStep(id, key, i, world, run, total);
      alive := lost.Some?;
      if lost == Some(true) {
        alive, here, rest := RefundStep(id, i, here, rest, total);
      }
    }

    method IngestOne(item: Item, i: nat, world: State, run: seq<Step>, ghost total: Counts) returns (alive: bool, here: State, rest: seq<Step>)
      requires Stands(world, run, i, Ready, total)
      requires var saves := Tally(world, run, i).saves; Kept(item) && saves != [] ==> saves[0] == (item.conv, item.source)
      modifies this, store, ledger
      ensures Further(world, run, here, rest) && Stands(here, rest, i, if alive then Ready else Over, total)
      ensures alive ==> saved + skippedDedupe == old(saved + skippedDedupe) + 1
      ensures alive ==>
        Tally(world, run, i).saves == if Kept(item) then [(item.conv, item.source)] + Tally(here, rest, i).saves else Tally(here, rest, i).saves
    {
      alive, here, rest := true, world, run;
      if item.duplicate || item.lostRace {
        skippedDedupe := skippedDedupe + 1;
        return;
      }
      var key := Key(user, item.conv, item.source);
      alive, here, rest := SaveStep(item, i, here, rest, total);
      if alive {
        var charge;
        charge, here, rest := ChargeStep(key, i, here, rest, total);
        alive := !charge.Died?;
        if charge.Allowed? {
          alive, here, rest := InsertOrRefund(charge.id, key, i, here, rest, total);
        }
      }
    }

    /** The first `n` conversations are behind, or the request has died. */
    ghost predicate Between(items: seq<Item>, n: nat, alive: bool, s: State, run: seq<Step>, i: nat, total: Counts)
      requires n <= |items|
      reads this, store, ledger
    {
      && Stands(s, run, i, if alive then Ready else Over, total)
      && (alive ==> saved + skippedDedupe == n && Tally(s, run, i).saves <= Wanted(items[n..]))
    }

    method IngestNext(items: seq<Item>, n: nat, i: nat, world: State, run: seq<Step>, ghost total: Counts)
      returns (alive: bool, here: State, rest: seq<Step>)
      requires n < |items| && Between(items, n, true, world, run, i, total)
      modifies this, store, ledger
      ensures Further(world, run, here, rest) && Between(items, n + 1, alive, here, rest, i, total)
    {
      WantedFrom(items, n);
      alive, here, rest := IngestOne(items[n], i, world, run, total);
      if alive && Kept(items[n]) {
        PrefixTail((items[n].conv, items[n].source), Tally(here, rest, i).saves, Wanted(items[n + 1..]));
      }
    }

    /** The loop; `completed` is false when the request dies in it. */
    method IngestAll(items: seq<Item>, i: nat, world: State, run: seq<Step>, ghost total: Counts)
      returns (completed: bool, here: State, rest: seq<Step>)
      requires Between(items, 0, true, world, run, i, total)
      modifies this, store, ledger
      ensures Further(world, run, here, rest) && Between(items, |items|, completed, here, rest, i, total)
    {
      completed, here, rest := true, world, run;
      var n := 0;
      while n < |items| && completed
        invariant n <= |items| && Further(world, run, here, rest) && Between(items, n, completed, here, rest, i, total)
      {
        completed, here, rest := IngestNext(items, n, i, here, rest, total);
        n := n + 1;
      }
    }

    /** The end of the request, which saves nothing more. */
    method Finish(i: nat, world: State, run: seq<Step>, ghost total: Counts) returns (here: State, rest: seq<Step>)
      requires Stands(world, run, i, Ready, total) && Tally(world, run, i).saves == []
      modifies store, ledger
      ensures Further(world, run, here, rest) && Stands(here, rest, i, Over, total)
    {
      var save;
      save, here, rest := SaveTurn(i, world, run, total);
    }

    /** The handler, in any run of the machine in which the request comes to an end and saves these conversations in
        their order: the code does what the machine does, its counters and tasks are what the run comes to, and when
        nothing kills it every conversation is counted once. */
    method IngestConversations(items: seq<Item>, i: nat, world: State, run: seq<Step>)
      returns (completed: bool, here: State, rest: seq<Step>)
      requires Runs(world, run) && Stands(world, run, i, Ready, Tally(world, run, i)) && saved == skippedDedupe == 0
      requires Tally(world, run, i).saves <= Wanted(items)
      modifies this, store, ledger
      ensures Further(world, run, here, rest) && Mirrors(store, ledger, here)
      ensures i < |here.ingests| && here.ingests[i].pc.Over?
      ensures Agrees(Tally(world, run, i), NO_COUNTS) && TasksNamed()
      ensures completed ==> saved + skippedDedupe == |items| && saved == |enqueueTasks| + skippedBudget + skippedError
    {
      ghost var total := Tally(world, run, i);
      assert items[0..] == items;
      completed, here, rest := IngestAll(items, i, world, run, total);
      if completed {
        here, rest := Finish(i, here, rest, total);
      }
      OverCountsNothing(here, rest, i);
    }
  }

  // ------------------------------------------------------------------
  // The orphan sweep
  // ------------------------------------------------------------------

  function Account(book: Book, j: JobId): seq<Entry> {
    if j in book then book[j] else []
  }

  /** The account of `j` once the refund of every returned row has been tried. */
  function RefundedAccount(book: Book, rows: set<(JobId, Month)>, jobs: Jobs, failing: set<JobId>, j: JobId): seq<Entry> {
    Account(book, j) +
    if j in jobs && (j, jobs[j].periodStart) in rows && j !in failing then [Entry(jobs[j].periodStart, Actual(0))] else []
  }

  class OrphanCleanup {
    const store: ExtractionStore
    const ledger: Ledger
    const thresholdMinutes: nat

    constructor (store: ExtractionStore, ledger: Ledger, thresholdMinutes: nat)
      ensures this.store == store && this.ledger == ledger && this.thresholdMinutes == thresholdMinutes
    {
      this.store, this.ledger, this.thresholdMinutes := store, ledger, thresholdMinutes;
    }

    /** One refund call per returned row, into the bucket of the row's period; failing calls are swallowed. */
    method RefundRows(rows: set<(JobId, Month)>, ghost jobs: Jobs, failing: set<JobId>, ghost s: State) returns (ghost steps: seq<Step>)
      requires forall j, m :: (j, m) in rows ==> j in jobs && m == jobs[j].periodStart
      requires Mirrors(store, ledger, s) && forall row :: row in rows ==> row in s.owed
      modifies ledger
      ensures forall j :: Account(ledger.book, j) == RefundedAccount(old(ledger.book), rows, jobs, failing, j)
      ensures Runs(s, steps) && Mirrors(store, ledger, After(s, steps)) && After(s, steps).now == s.now
    {
      var left := rows;
      steps := [];
      ghost var t := s;
      while left != {}
        invariant left <= rows
        invariant forall j :: Account(ledger.book, j) == RefundedAccount(old(ledger.book), rows - left, jobs, failing, j)
        invariant Runs(s, steps) && t == After(s, steps) && t.now == s.now
        invariant Mirrors(store, ledger, t) && forall row :: row in left ==> row in t.owed
        decreases |left|
      {
        var row :| row in left;
        ghost var before := ledger.book;
        RefundRow(row, row.0 !in failing, t);
        steps, t := RefundLeaves(s, steps, t, row, row.0 !in failing, left);
        OneMoreRefunded(old(ledger.book), before, ledger.book, rows, left, jobs, failing, row);
        left := left - {row};
      }
    }

    method RefundRow(row: (JobId, Month), ok: bool, ghost s: State)
      requires Mirrors(store, ledger, s) && row in s.owed
      modifies ledger
      ensures ledger.book == Posted(old(ledger.book), if ok then Some((row.0, Entry(row.1, Actual(0)))) else None)
      ensures var t := Next(s, RefundSwept(row.0, row.1, ok));
        Mirrors(store, ledger, t) && t.now == s.now && t.owed == s.owed - multiset{row}
    {
      ledger.RecordActualCost(row.0, row.1, 0, ok);
      RefundBooks(s, row, ok);
    }

    /** One cycle: fail and refund what is stale and pending, then what is stale and running. It is a run of the
        machine's two sweep steps, each followed by a refund step for every row it returned. */
    method Cycle(now: Time, failing: set<JobId>, ghost s: State) returns (ghost first: seq<Step>, ghost second: seq<Step>)
      requires Mirrors(store, ledger, s) && s.now == now
      modifies store, ledger
      ensures store.View() == old(store.View()).(jobs :=
        Swept(Swept(old(store.jobs), StalePending(now, thresholdMinutes), "enqueue_lost"), StaleRunning(now), "worker_lost"))
      ensures var rows := Returned(old(store.jobs), Stale(now, thresholdMinutes));
        forall j :: Account(ledger.book, j) == RefundedAccount(old(ledger.book), rows, old(store.jobs), failing, j)
      ensures var sweep := Next(s, SweepPending(thresholdMinutes));
        && Runs(sweep, first)
        && var mid := Next(After(sweep, first), SweepRunning);
           Runs(mid, second) && Mirrors(store, ledger, After(mid, second))
    {
      ghost var jobs, book := store.jobs, ledger.book;
      var pending := store.Sweep(StalePending(now, thresholdMinutes), "enqueue_lost");
      ghost var s1 := Next(s, SweepPending(thresholdMinutes));
      first := RefundRows(pending, jobs, failing, s1);
      ghost var book1 := ledger.book;
      var running := store.Sweep(StaleRunning(now), "worker_lost");
      ghost var s2 := Next(After(s1, first), SweepRunning);
      SecondSweepReturns(jobs, now, thresholdMinutes);
      second := RefundRows(running, jobs, failing, s2);
      CycleAccounts(book, book1, ledger.book, jobs, now, thresholdMinutes, failing);
    }
  }

  lemma OneMoreRefunded(book: Book, before: Book, after: Book, rows: set<(JobId, Month)>, left: set<(JobId, Month)>, jobs: Jobs,
                        failing: set<JobId>, row: (JobId, Month))
    requires row in left && left <= rows && forall j, m :: (j, m) in rows ==> j in jobs && m == jobs[j].periodStart
    requires forall j :: Account(before, j) == RefundedAccount(book, rows - left, jobs, failing, j)
    requires after == Posted(before, if row.0 !in failing then Some((row.0, Entry(row.1, Actual(0)))) else None)
    ensures forall j :: Account(after, j) == RefundedAccount(book, rows - (left - {row}), jobs, failing, j)
  {
    forall j ensures Account(after, j) == RefundedAccount(book, rows - (left - {row}), jobs, failing, j) {
      assert Account(before, j) == RefundedAccount(book, rows - left, jobs, failing, j);
      if j in jobs && (j, jobs[j].periodStart) != row {
        assert (j, jobs[j].periodStart) in rows - left <==> (j, jobs[j].periodStart) in rows - (left - {row});
      }
    }
  }

  lemma CycleAccounts(book: Book, book1: Book, book2: Book, jobs: Jobs, now: Time, minutes: nat, failing: set<JobId>)
    requires forall j :: Account(book1, j) == RefundedAccount(book, Returned(jobs, StalePending(now, minutes)), jobs, failing, j)
    requires forall j :: Account(book2, j) == RefundedAccount(book1, Returned(jobs, StaleRunning(now)), jobs, failing, j)
    ensures forall j :: Account(book2, j) == RefundedAccount(book, Returned(jobs, Stale(now, minutes)), jobs, failing, j)
  {
    forall j ensures Account(book2, j) == RefundedAccount(book, Returned(jobs, Stale(now, minutes)), jobs, failing, j) {
      assert Account(book1, j) == RefundedAccount(book, Returned(jobs, StalePending(now, minutes)), jobs, failing, j);
      assert Account(book2, j) == RefundedAccount(book1, Returned(jobs, StaleRunning(now)), jobs, failing, j);
      if j in jobs {
        SweptOnce(jobs, now, minutes, j);
      }
    }
  }

  /** What the refund of a swept row changes. */
  lemma RefundBooks(s: State, row: (JobId, Month), ok: bool)
    requires row in s.owed
    ensures var t := Next(s, RefundSwept(row.0, row.1, ok));
      && t.db == s.db && t.now == s.now && t.owed == s.owed - multiset{row}
      && t.book == Posted(s.book, if ok then Some((row.0, Entry(row.1, Actual(0)))) else None)
  {
  }

  /** One more refund of a swept row. */
  lemma RefundRuns(s: State, steps: seq<Step>, row: (JobId, Month), ok: bool)
    requires Runs(s, steps) && row in After(s, steps).owed
    ensures var step := RefundSwept(row.0, row.1, ok);
      && Runs(s, steps + [step]) && After(s, steps + [step]) == Next(After(s, steps), step)
  {
    var step := RefundSwept(row.0, row.1, ok);
    RunsOnly(After(s, steps), step);
    RunsJoin(s, steps, [step]);
  }

  lemma RefundLeaves(s: State, steps: seq<Step>, t: State, row: (JobId, Month), ok: bool, left: set<(JobId, Month)>)
      returns (steps1: seq<Step>, t1: State)
    requires Runs(s, steps) && t == After(s, steps) && t.now == s.now
    requires row in left && forall r :: r in left ==> r in t.owed
    ensures t1 == Next(t, RefundSwept(row.0, row.1, ok)) && steps1 == steps + [RefundSwept(row.0, row.1, ok)]
    ensures Runs(s, steps1) && t1 == After(s, steps1) && t1.now == s.now && forall r :: r in left - {row} ==> r in t1.owed
  {
    steps1, t1 := steps + [RefundSwept(row.0, row.1, ok)], Next(t, RefundSwept(row.0, row.1, ok));
    RefundRuns(s, steps, row, ok);
    RefundBooks(t, row, ok);
  }

  function Stale(now: Time, minutes: nat): Job -> bool {
    (j: Job) => StalePending(now, minutes)(j) || StaleRunning(now)(j)
  }

  /** The second update of a cycle never returns a row the first one has just failed. */
  lemma SecondSweepReturns(jobs: Jobs, now: Time, minutes: nat)
    ensures Returned(Swept(jobs, StalePending(now, minutes), "enqueue_lost"), StaleRunning(now)) == Returned(jobs, StaleRunning(now))
  {
    var after := Swept(jobs, StalePending(now, minutes), "enqueue_lost");
    forall j | j in jobs ensures StaleRunning(now)(after[j]) <==> StaleRunning(now)(jobs[j]) {
    }
    forall row ensures row in Returned(after, StaleRunning(now)) <==> row in Returned(jobs, StaleRunning(now)) {
    }
  }

  lemma SweptOnce(jobs: Jobs, now: Time, minutes: nat, j: JobId)
    requires j in jobs
    ensures var row := (j, jobs[j].periodStart);
      && (row in Returned(jobs, Stale(now, minutes)) <==>
            row in Returned(jobs, StalePending(now, minutes)) || row in Returned(jobs, StaleRunning(now)))
      && !(row in Returned(jobs, StalePending(now, minutes)) && row in Returned(jobs, StaleRunning(now)))
  {
  }
}
