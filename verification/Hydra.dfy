/** Single-flight token introspection.
    Models `HydraIntrospector.introspect` and its cache in gubbi/auth/hydra.py. */
module Hydra {
  import opened Prelude

  type Key = string     // the full digest of a token
  type TaskId = nat     // index into the tasks of a state
  type FutureId = nat   // index into the futures created so far

  datatype Claims = Claims(sub: string, scope: string, exp: int)
  datatype HydraError = Unreachable(reason: string) | InvalidToken(reason: string)
  datatype Outcome = Ok(claims: Claims) | Raised(error: HydraError)

  /** A future, with the task that created it. `outcome` is None until it is resolved. */
  datatype Future = Future(key: Key, leader: TaskId, outcome: Option<Outcome>)

  /** The introspector's own fields. `cached` says whether it was given a cache at all. */
  datatype Shared = Shared(cached: bool, cache: map<Key, Claims>, inflight: map<Key, FutureId>, futures: seq<Future>)

  // ------------------------------------------------------------------
  // The atomic stretches of `introspect`
  // ------------------------------------------------------------------

  function Lookup(sh: Shared, key: Key): Option<Claims> {
    if sh.cached && key in sh.cache then Some(sh.cache[key]) else None
  }

  /** Under the lock: follow the future in flight for this key, or create one and lead. */
  function Join(sh: Shared, key: Key, task: TaskId): (Shared, bool, FutureId) {
    if key in sh.inflight then (sh, false, sh.inflight[key])
    else (sh.(futures := sh.futures + [Future(key, task, None)],
              inflight := sh.inflight[key := |sh.futures|]),
          true, |sh.futures|)
  }

  /** The upstream call has returned: cache a success and resolve the future. */
  function Resolve(sh: Shared, key: Key, fut: FutureId, outcome: Outcome): Shared
    requires fut < |sh.futures|
  {
    sh.(cache := if outcome.Ok? && sh.cached then sh.cache[key := outcome.claims] else sh.cache,
        futures := sh.futures[fut := sh.futures[fut].(outcome := Some(outcome))])
  }

  function Release(sh: Shared, key: Key): Shared {
    sh.(inflight := sh.inflight - {key})
  }

  // ------------------------------------------------------------------
  // Any number of concurrent tasks
  // ------------------------------------------------------------------

  datatype Pc =
    | Begin                                                // about to consult the cache
    | Missed                                               // about to take the lock
    | Leading(fut: FutureId)                               // its upstream call is in flight
    | Settled(fut: FutureId, outcome: Outcome)             // future resolved, entry not yet removed
    | Following(fut: FutureId)                             // waiting for another task's future
    | Finished(outcome: Outcome, via: Option<FutureId>)    // returned or raised; `via` None on a cache hit

  datatype Task = Task(key: Key, pc: Pc)

  /** `replies` records every upstream reply, per key. */
  datatype State = State(shared: Shared, tasks: seq<Task>, replies: set<(Key, Outcome)>)

  datatype Step =
    | Spawn(key: Key)
    | Look(task: TaskId)
    | Enter(task: TaskId)
    | Reply(task: TaskId, outcome: Outcome)
    | Leave(task: TaskId)
    | Wake(task: TaskId)
    | Evict(key: Key)          // expiry or eviction of a cache entry

  function Initial(cached: bool): State { State(Shared(cached, map[], map[], []), [], {}) }

  predicate IsTaskStep(step: Step) { !step.Spawn? && !step.Evict? }

  predicate Enabled(s: State, step: Step) {
    match step
    case Spawn(_) => true
    case Evict(key) => key in s.shared.cache
    case Look(t) => t < |s.tasks| && s.tasks[t].pc.Begin?
    case Enter(t) => t < |s.tasks| && s.tasks[t].pc.Missed?
    case Reply(t, _) => t < |s.tasks| && s.tasks[t].pc.Leading? && s.tasks[t].pc.fut < |s.shared.futures|
    case Leave(t) => t < |s.tasks| && s.tasks[t].pc.Settled?
    case Wake(t) => t < |s.tasks| && s.tasks[t].pc.Following? && s.tasks[t].pc.fut < |s.shared.futures|
                    && s.shared.futures[s.tasks[t].pc.fut].outcome.Some?
  }

  function At(s: State, t: TaskId, pc: Pc): seq<Task>
    requires t < |s.tasks|
  {
    s.tasks[t := s.tasks[t].(pc := pc)]
  }

  function Next(s: State, step: Step): State
    requires Enabled(s, step)
  {
    match step
    case Spawn(key) => s.(tasks := s.tasks + [Task(key, Begin)])
    case Evict(key) => s.(shared := s.shared.(cache := s.shared.cache - {key}))
    case Look(t) =>
      var hit := Lookup(s.shared, s.tasks[t].key);
      s.(tasks := At(s, t, if hit.Some? then Finished(Ok(hit.value), None) else Missed))
    case Enter(t) =>
      var (shared, leader, fut) := Join(s.shared, s.tasks[t].key, t);
      s.(shared := shared, tasks := At(s, t, if leader then Leading(fut) else Following(fut)))
    case Reply(t, outcome) =>
      var fut := s.tasks[t].pc.fut;
      State(Resolve(s.shared, s.tasks[t].key, fut, outcome),
            At(s, t, Settled(fut, outcome)),
            s.replies + {(s.tasks[t].key, outcome)})
    case Leave(t) =>
      s.(shared := Release(s.shared, s.tasks[t].key),
         tasks := At(s, t, Finished(s.tasks[t].pc.outcome, Some(s.tasks[t].pc.fut))))
    case Wake(t) =>
      var fut := s.tasks[t].pc.fut;
      s.(tasks := At(s, t, Finished(s.shared.futures[fut].outcome.value, Some(fut))))
  }

  predicate Runs(s: State, steps: seq<Step>)
    decreases |steps|
  {
    steps == [] || (Enabled(s, steps[0]) && Runs(Next(s, steps[0]), steps[1..]))
  }

  function After(s: State, steps: seq<Step>): State
    requires Runs(s, steps)
    decreases |steps|
  {
    if steps == [] then s else After(Next(s, steps[0]), steps[1..])
  }

  // ------------------------------------------------------------------
  // The invariant
  // ------------------------------------------------------------------

  /** What a task's program counter says about the shared fields. */
  ghost predicate TaskSound(s: State, t: TaskId)
    requires t < |s.tasks|
  {
    var sh, key := s.shared, s.tasks[t].key;
    match s.tasks[t].pc
    case Begin => true
    case Missed => true
    case Leading(f) => f < |sh.futures| && sh.futures[f] == Future(key, t, None) && key in sh.inflight && sh.inflight[key] == f
    case Settled(f, o) => f < |sh.futures| && sh.futures[f] == Future(key, t, Some(o)) && key in sh.inflight && sh.inflight[key] == f
    case Following(f) => f < |sh.futures| && sh.futures[f].key == key && sh.futures[f].leader != t
    case Finished(o, via) =>
      if via.Some? then via.value < |sh.futures| && sh.futures[via.value].key == key && sh.futures[via.value].outcome == Some(o)
      else o.Ok? && (key, o) in s.replies
  }

  /** What a future says about its leader. */
  ghost predicate FutureSound(s: State, f: FutureId)
    requires f < |s.shared.futures|
  {
    var fut := s.shared.futures[f];
    && fut.leader < |s.tasks|
    && s.tasks[fut.leader].key == fut.key
    && (fut.outcome.None? ==> s.tasks[fut.leader].pc == Leading(f))
    && (fut.outcome.Some? ==>
          && (fut.key, fut.outcome.value) in s.replies
          && (s.tasks[fut.leader].pc == Settled(f, fut.outcome.value) || s.tasks[fut.leader].pc == Finished(fut.outcome.value, Some(f))))
  }

  ghost predicate EntrySound(s: State, key: Key)
    requires key in s.shared.inflight
  {
    var f := s.shared.inflight[key];
    && f < |s.shared.futures|
    && s.shared.futures[f].key == key
    && s.shared.futures[f].leader < |s.tasks|
    && (s.tasks[s.shared.futures[f].leader].pc == Leading(f) || (s.tasks[s.shared.futures[f].leader].pc.Settled? && s.tasks[s.shared.futures[f].leader].pc.fut == f))
  }

  ghost predicate Inv(s: State) {
    && (forall t :: 0 <= t < |s.tasks| ==> TaskSound(s, t))
    && (forall f :: 0 <= f < |s.shared.futures| ==> FutureSound(s, f))
    && (forall key :: key in s.shared.inflight ==> EntrySound(s, key))
    && (forall key :: key in s.shared.cache ==> (key, Ok(s.shared.cache[key])) in s.replies)
  }

  lemma EnterKeepsInv(s: State, t: TaskId)
    requires Inv(s) && Enabled(s, Enter(t))
    ensures Inv(Next(s, Enter(t)))
  {
    var s1 := Next(s, Enter(t));
    assert TaskSound(s, t);
    forall u | 0 <= u < |s1.tasks| ensures TaskSound(s1, u) {
      assert TaskSound(s, u);
      if s.tasks[t].key in s.shared.inflight {
        assert EntrySound(s, s.tasks[t].key);
      }
    }
    forall f | 0 <= f < |s1.shared.futures| ensures FutureSound(s1, f) {
      if f < |s.shared.futures| {
        assert FutureSound(s, f);
      }
    }
    forall key | key in s1.shared.inflight ensures EntrySound(s1, key) {
      if key in s.shared.inflight {
        assert EntrySound(s, key);
      }
    }
  }

  lemma ReplyKeepsInv(s: State, t: TaskId, outcome: Outcome)
    requires Inv(s) && Enabled(s, Reply(t, outcome))
    ensures Inv(Next(s, Reply(t, outcome)))
  {
    var s1 := Next(s, Reply(t, outcome));
    assert TaskSound(s, t);
    forall u | 0 <= u < |s1.tasks| ensures TaskSound(s1, u) {
      assert TaskSound(s, u);
    }
    forall f | 0 <= f < |s1.shared.futures| ensures FutureSound(s1, f) {
      assert FutureSound(s, f);
    }
    forall key | key in s1.shared.inflight ensures EntrySound(s1, key) {
      assert EntrySound(s, key);
    }
  }

  lemma LeaveKeepsInv(s: State, t: TaskId)
    requires Inv(s) && Enabled(s, Leave(t))
    ensures Inv(Next(s, Leave(t)))
  {
    var s1 := Next(s, Leave(t));
    assert TaskSound(s, t);
    forall u | 0 <= u < |s1.tasks| ensures TaskSound(s1, u) {
      assert TaskSound(s, u);
    }
    forall f | 0 <= f < |s1.shared.futures| ensures FutureSound(s1, f) {
      assert FutureSound(s, f);
    }
    forall key | key in s1.shared.inflight ensures EntrySound(s1, key) {
      assert EntrySound(s, key);
    }
  }

  /** Steps that change only one task, or only the cache. */
  lemma LightStepKeepsInv(s: State, step: Step)
    requires Inv(s) && Enabled(s, step)
    requires step.Spawn? || step.Look? || step.Wake? || step.Evict?
    ensures Inv(Next(s, step))
  {
    var s1 := Next(s, step);
    forall u | 0 <= u < |s1.tasks| ensures TaskSound(s1, u) {
      if u < |s.tasks| {
        assert TaskSound(s, u);
      }
    }
    forall f | 0 <= f < |s1.shared.futures| ensures FutureSound(s1, f) {
      assert FutureSound(s, f);
    }
    forall key | key in s1.shared.inflight ensures EntrySound(s1, key) {
      assert EntrySound(s, key);
    }
  }

  lemma NextKeepsInv(s: State, step: Step)
    requires Inv(s) && Enabled(s, step)
    ensures Inv(Next(s, step))
  {
    match step
    case Enter(t) => EnterKeepsInv(s, t);
    case Reply(t, outcome) => ReplyKeepsInv(s, t, outcome);
    case Leave(t) => LeaveKeepsInv(s, t);
    case Spawn(_) => LightStepKeepsInv(s, step);
    case Look(_) => LightStepKeepsInv(s, step);
    case Wake(_) => LightStepKeepsInv(s, step);
    case Evict(_) => LightStepKeepsInv(s, step);
  }

  lemma {:induction false} RunsKeepInv(s: State, steps: seq<Step>)
    requires Inv(s) && Runs(s, steps)
    ensures Inv(After(s, steps))
    decreases |steps|
  {
    if steps != [] {
      NextKeepsInv(s, steps[0]);
      RunsKeepInv(Next(s, steps[0]), steps[1..]);
    }
  }

  // ------------------------------------------------------------------
  // What every run guarantees
  // ------------------------------------------------------------------

  /** At most one upstream call is in flight per key. */
  lemma OneCallPerKey(cached: bool, steps: seq<Step>, t: TaskId, u: TaskId)
    requires Runs(Initial(cached), steps)
    requires var s := After(Initial(cached), steps);
      && t < |s.tasks| && u < |s.tasks| && s.tasks[t].key == s.tasks[u].key
      && s.tasks[t].pc.Leading? && s.tasks[u].pc.Leading?
    ensures t == u
  {
    RunsKeepInv(Initial(cached), steps);
    var s := After(Initial(cached), steps);
    assert TaskSound(s, t) && TaskSound(s, u);
  }

  /** Whenever a leader's call returns, its future is still unresolved, so resolving it cannot raise. */
  lemma ResolvesOnlyPending(cached: bool, steps: seq<Step>, t: TaskId, outcome: Outcome)
    requires Runs(Initial(cached), steps)
    requires Enabled(After(Initial(cached), steps), Reply(t, outcome))
    ensures var s := After(Initial(cached), steps); s.shared.futures[s.tasks[t].pc.fut].outcome.None?
  {
    RunsKeepInv(Initial(cached), steps);
    assert TaskSound(After(Initial(cached), steps), t);
  }

  /** A resolved future keeps its outcome whatever happens next. */
  lemma {:induction false} ResolvedForGood(s: State, steps: seq<Step>, f: FutureId)
    requires Inv(s) && Runs(s, steps) && f < |s.shared.futures| && s.shared.futures[f].outcome.Some?
    ensures f < |After(s, steps).shared.futures| && After(s, steps).shared.futures[f] == s.shared.futures[f]
    decreases |steps|
  {
    if steps != [] {
      if steps[0].Reply? {
        assert TaskSound(s, steps[0].task);
      }
      NextKeepsInv(s, steps[0]);
      ResolvedForGood(Next(s, steps[0]), steps[1..], f);
    }
  }

  /** A follower that has finished ended with exactly the claims or the error its leader ended with,
      and that outcome is one the upstream gave for the follower's own key. */
  lemma FollowerAgreesWithLeader(cached: bool, steps: seq<Step>, t: TaskId)
    requires Runs(Initial(cached), steps)
    requires var s := After(Initial(cached), steps); t < |s.tasks| && s.tasks[t].pc.Finished? && s.tasks[t].pc.via.Some?
    ensures var s := After(Initial(cached), steps);
      var pc := s.tasks[t].pc;
      && pc.via.value < |s.shared.futures|
      && (var leader := s.shared.futures[pc.via.value].leader;
          && leader < |s.tasks|
          && s.tasks[leader].key == s.tasks[t].key
          && (s.tasks[leader].pc == Settled(pc.via.value, pc.outcome) || s.tasks[leader].pc == Finished(pc.outcome, pc.via)))
      && (s.tasks[t].key, pc.outcome) in s.replies
  {
    RunsKeepInv(Initial(cached), steps);
    var s := After(Initial(cached), steps);
    assert TaskSound(s, t);
    assert FutureSound(s, s.tasks[t].pc.via.value);
  }

  /** Errors are never cached: a cache hit returns claims the upstream gave for that key, and a call
      that raised leaves the cache as it was. */
  lemma OnlySuccessesAreCached(cached: bool, steps: seq<Step>, key: Key)
    requires Runs(Initial(cached), steps)
    ensures var s := After(Initial(cached), steps);
      && (Lookup(s.shared, key).Some? ==> (key, Ok(Lookup(s.shared, key).value)) in s.replies)
      && (forall t: TaskId, e: HydraError :: Enabled(s, Reply(t, Raised(e))) ==> Next(s, Reply(t, Raised(e))).shared.cache == s.shared.cache)
  {
    RunsKeepInv(Initial(cached), steps);
  }

  /** The latest success for a key that no eviction has removed since, going by the steps alone. */
  function Held(s: State, steps: seq<Step>, key: Key, held: Option<Claims>): Option<Claims>
    requires Runs(s, steps)
    decreases |steps|
  {
    if steps == [] then held
    else
      var now :=
        match steps[0]
        case Reply(t, Ok(claims)) => if s.tasks[t].key == key then Some(claims) else held
        case Evict(k) => if k == key then None else held
        case _ => held;
      Held(Next(s, steps[0]), steps[1..], key, now)
  }

  lemma {:induction false} CacheIsHeld(s: State, steps: seq<Step>, key: Key, held: Option<Claims>)
    requires Runs(s, steps) && s.shared.cached && held == if key in s.shared.cache then Some(s.shared.cache[key]) else None
    ensures var sh := After(s, steps).shared;
      sh.cached && Held(s, steps, key, held) == if key in sh.cache then Some(sh.cache[key]) else None
    decreases |steps|
  {
    if steps != [] {
      var s1 := Next(s, steps[0]);
      CacheIsHeld(s1, steps[1..], key, if key in s1.shared.cache then Some(s1.shared.cache[key]) else None);
    }
  }

  /** A task that looks finishes at once, with the latest success for its key, if and only if there was one that has not
      been evicted since; otherwise it goes on to the lock. Looking changes nothing else, so a hit calls nobody. */
  lemma HitsExactly(steps: seq<Step>, t: TaskId)
    requires Runs(Initial(true), steps) && Enabled(After(Initial(true), steps), Look(t))
    ensures var s := After(Initial(true), steps);
      var held := Held(Initial(true), steps, s.tasks[t].key, None);
      && Next(s, Look(t)).tasks[t].pc == (if held.Some? then Finished(Ok(held.value), None) else Missed)
      && Next(s, Look(t)) == s.(tasks := Next(s, Look(t)).tasks)
  {
    CacheIsHeld(Initial(true), steps, After(Initial(true), steps).tasks[t].key, None);
  }

  /** Without a cache every task goes on to the lock. */
  lemma {:induction false} NoCacheNoHits(s: State, steps: seq<Step>, t: TaskId)
    requires Runs(s, steps) && !s.shared.cached && Enabled(After(s, steps), Look(t))
    ensures Next(After(s, steps), Look(t)).tasks[t].pc == Missed
    decreases |steps|
  {
    if steps != [] {
      NoCacheNoHits(Next(s, steps[0]), steps[1..], t);
    }
  }

  predicate Quiescent(s: State) {
    forall t :: 0 <= t < |s.tasks| ==> s.tasks[t].pc.Finished?
  }

  /** While any task is unfinished, some task can take a step. */
  lemma NeverStuck(cached: bool, steps: seq<Step>) returns (step: Step)
    requires Runs(Initial(cached), steps)
    requires !Quiescent(After(Initial(cached), steps))
    ensures IsTaskStep(step) && Enabled(After(Initial(cached), steps), step)
  {
    RunsKeepInv(Initial(cached), steps);
    var s := After(Initial(cached), steps);
    var t :| 0 <= t < |s.tasks| && !s.tasks[t].pc.Finished?;
    assert TaskSound(s, t);
    match s.tasks[t].pc
    case Begin => step := Look(t);
    case Missed => step := Enter(t);
    case Leading(f) => step := Reply(t, Raised(Unreachable("")));
    case Settled(f, o) => step := Leave(t);
    case Following(f) =>
      assert FutureSound(s, f);
      if s.shared.futures[f].outcome.Some? {
        step := Wake(t);
      } else {
        step := Reply(s.shared.futures[f].leader, Raised(Unreachable("")));
      }
  }

  /** When every task has finished, nothing is left in flight and no future is left unresolved. */
  lemma QuiescentMeansEmpty(cached: bool, steps: seq<Step>)
    requires Runs(Initial(cached), steps)
    requires Quiescent(After(Initial(cached), steps))
    ensures var sh := After(Initial(cached), steps).shared;
      sh.inflight == map[] && forall f :: 0 <= f < |sh.futures| ==> sh.futures[f].outcome.Some?
  {
    RunsKeepInv(Initial(cached), steps);
    var s := After(Initial(cached), steps);
    forall key | key in s.shared.inflight ensures exists t :: 0 <= t < |s.tasks| && !s.tasks[t].pc.Finished? {
      EntryHasUnfinishedLeader(s, key);
    }
    forall f | 0 <= f < |s.shared.futures| ensures s.shared.futures[f].outcome.Some? {
      assert FutureSound(s, f);
    }
  }

  lemma EntryHasUnfinishedLeader(s: State, key: Key)
    requires Inv(s) && key in s.shared.inflight
    ensures exists t :: 0 <= t < |s.tasks| && !s.tasks[t].pc.Finished?
  {
    assert EntrySound(s, key);
  }

  predicate Resolved(s: State, f: FutureId) { f < |s.shared.futures| && s.shared.futures[f].outcome.Some? }

  /** The step calls `set_result` or `set_exception` on this future. */
  predicate Resolves(s: State, step: Step, f: FutureId)
    requires Enabled(s, step)
  {
    step.Reply? && s.tasks[step.task].pc.fut == f
  }

  function Resolutions(s: State, steps: seq<Step>, f: FutureId): nat
    requires Runs(s, steps)
    decreases |steps|
  {
    if steps == [] then 0
    else (if Resolves(s, steps[0], f) then 1 else 0) + Resolutions(Next(s, steps[0]), steps[1..], f)
  }

  lemma StepResolves(s: State, step: Step, f: FutureId)
    requires Inv(s) && Enabled(s, step)
    ensures Resolves(s, step, f) ==> !Resolved(s, f)
    ensures Resolved(Next(s, step), f) <==> Resolved(s, f) || Resolves(s, step, f)
  {
    if step.Reply? {
      assert TaskSound(s, step.task);
    }
  }

  lemma {:induction false} RunsResolve(s: State, steps: seq<Step>, f: FutureId)
    requires Inv(s) && Runs(s, steps)
    ensures Resolutions(s, steps, f) + (if Resolved(s, f) then 1 else 0) == if Resolved(After(s, steps), f) then 1 else 0
    decreases |steps|
  {
    if steps != [] {
      StepResolves(s, steps[0], f);
      NextKeepsInv(s, steps[0]);
      RunsResolve(Next(s, steps[0]), steps[1..], f);
    }
  }

  /** In every run a future is resolved at most once, and once every task has finished each has been exactly once. */
  lemma ResolvedExactlyOnce(cached: bool, steps: seq<Step>, f: FutureId)
    requires Runs(Initial(cached), steps)
    ensures Resolutions(Initial(cached), steps, f) <= 1
    ensures var s := After(Initial(cached), steps);
      Quiescent(s) && f < |s.shared.futures| ==> Resolutions(Initial(cached), steps, f) == 1
  {
    RunsResolve(Initial(cached), steps, f);
    if Quiescent(After(Initial(cached), steps)) {
      QuiescentMeansEmpty(cached, steps);
    }
  }

  // ------------------------------------------------------------------
  // Every burst of requests drains
  // ------------------------------------------------------------------

  function Rank(pc: Pc): nat {
    match pc
    case Begin => 4
    case Missed => 3
    case Leading(_) => 2
    case Settled(_, _) => 1
    case Following(_) => 1
    case Finished(_, _) => 0
  }

  function Work(tasks: seq<Task>): nat {
    if tasks == [] then 0 else Work(tasks[..|tasks| - 1]) + Rank(tasks[|tasks| - 1].pc)
  }

  lemma {:induction false} WorkAt(tasks: seq<Task>, t: TaskId, task: Task)
    requires t < |tasks|
    ensures Work(tasks[t := task]) + Rank(tasks[t].pc) == Work(tasks) + Rank(task.pc)
  {
    var front := tasks[..|tasks| - 1];
    if t == |tasks| - 1 {
      assert tasks[t := task][..|tasks| - 1] == front;
    } else {
      WorkAt(front, t, task);
      assert tasks[t := task][..|tasks| - 1] == front[t := task];
    }
  }

  /** Without new arrivals a run takes at most four steps per task: each step of a task uses up some of
      its work, however the tasks interleave and whatever the upstream replies. */
  lemma {:induction false} BurstDrains(s: State, steps: seq<Step>)
    requires Runs(s, steps) && forall i :: 0 <= i < |steps| ==> IsTaskStep(steps[i])
    ensures |steps| + Work(After(s, steps).tasks) <= Work(s.tasks)
    decreases |steps|
  {
    if steps != [] {
      assert IsTaskStep(steps[0]);
      var t, s1 := steps[0].task, Next(s, steps[0]);
      WorkAt(s.tasks, t, s1.tasks[t]);
      assert s1.tasks == s.tasks[t := s1.tasks[t]];
      BurstDrains(s1, steps[1..]);
    }
  }

  // ------------------------------------------------------------------
  // The introspector in its own form
  // ------------------------------------------------------------------

  predicate Mine(step: Step, t: TaskId) { IsTaskStep(step) && step.task == t }

  /** A task that has not finished, and a run in which it does. */
  ghost predicate Underway(s: State, run: seq<Step>, t: TaskId) {
    && Inv(s) && Runs(s, run)
    && t < |s.tasks| && !s.tasks[t].pc.Finished?
    && t < |After(s, run).tasks| && After(s, run).tasks[t].pc.Finished?
  }

  lemma OtherStepKeepsTask(s: State, step: Step, t: TaskId)
    requires Enabled(s, step) && t < |s.tasks| && !Mine(step, t)
    ensures t < |Next(s, step).tasks| && Next(s, step).tasks[t] == s.tasks[t]
  {
  }

  /** The task is still underway after a step that does not finish it. */
  lemma StaysUnderway(s: State, run: seq<Step>, t: TaskId)
    requires Underway(s, run, t)
    ensures run != [] && Enabled(s, run[0]) && Next(s, run[0]).shared.cached == s.shared.cached
    ensures After(Next(s, run[0]), run[1..]) == After(s, run)
    ensures t < |Next(s, run[0]).tasks| && !Next(s, run[0]).tasks[t].pc.Finished? ==> Underway(Next(s, run[0]), run[1..], t)
  {
    NextKeepsInv(s, run[0]);
  }

  /** The steps of a run that are the task's own, in order. */
  function Own(run: seq<Step>, t: TaskId): seq<Step> {
    if run == [] then [] else if Mine(run[0], t) then [run[0]] + Own(run[1..], t) else Own(run[1..], t)
  }

  /** What is left to do from each point. */
  predicate Course(own: seq<Step>, pc: Pc, t: TaskId) {
    match pc
    case Finished(_, _) => own == []
    case Settled(_, _) => own == [Leave(t)]
    case Leading(_) => |own| == 2 && own[0].Reply? && own[0].task == t && own[1] == Leave(t)
    case Following(_) => own == [Wake(t)]
    case Missed =>
      || own == [Enter(t), Wake(t)]
      || (|own| == 3 && own[0] == Enter(t) && own[1].Reply? && own[1].task == t && own[2] == Leave(t))
    case Begin =>
      || own == [Look(t)]
      || own == [Look(t), Enter(t), Wake(t)]
      || (|own| == 4 && own[0] == Look(t) && own[1] == Enter(t) && own[2].Reply? && own[2].task == t && own[3] == Leave(t))
  }

  lemma OwnStepCourse(s: State, step: Step, own: seq<Step>, t: TaskId)
    requires Enabled(s, step) && Mine(step, t) && Course(own, Next(s, step).tasks[t].pc, t)
    ensures Course([step] + own, s.tasks[t].pc, t)
  {
    var all := [step] + own;
    assert all[0] == step && forall i :: 0 <= i < |own| ==> all[i + 1] == own[i];
  }

  /** A task that finishes has looked, or has looked, entered and woken, or has looked, entered, got its reply and left. */
  lemma {:induction false} OwnStepsOfTask(s: State, run: seq<Step>, t: TaskId)
    requires Runs(s, run) && t < |s.tasks| && t < |After(s, run).tasks| && After(s, run).tasks[t].pc.Finished?
    ensures Course(Own(run, t), s.tasks[t].pc, t)
    decreases |run|
  {
    if run != [] {
      var s1 := Next(s, run[0]);
      if Mine(run[0], t) {
        OwnStepsOfTask(s1, run[1..], t);
        OwnStepCourse(s, run[0], Own(run[1..], t), t);
      } else {
        OtherStepKeepsTask(s, run[0], t);
        OwnStepsOfTask(s1, run[1..], t);
      }
    }
  }

  class HydraIntrospector {
    const cached: bool
    var cache: map<Key, Claims>
    var inflight: map<Key, FutureId>
    var futures: seq<Future>

    function View(): Shared
      reads this
    {
      Shared(cached, cache, inflight, futures)
    }

    constructor (cached: bool)
      ensures View() == Shared(cached, map[], map[], [])
    {
      this.cached := cached;
      cache, inflight, futures := map[], map[], [];
    }

    method CacheLookup(key: Key) returns (hit: Option<Claims>)
      ensures hit == Lookup(View(), key)
    {
      hit := None;
      if cached && key in cache {
        hit := Some(cache[key]);
      }
    }

    method JoinOrLead(key: Key, task: TaskId) returns (leader: bool, fut: FutureId)
      modifies this
      ensures (View(), leader, fut) == Join(old(View()), key, task)
    {
      if key in inflight {
        leader, fut := false, inflight[key];
      } else {
        fut := |futures|;
        futures := futures + [Future(key, task, None)];
        inflight := inflight[key := fut];
        leader := true;
      }
    }

    /** `set_result` and `set_exception` raise on a future that is already resolved, hence the second
        requirement; `ResolvesOnlyPending` shows every run meets it. */
    method ResolveFuture(key: Key, fut: FutureId, outcome: Outcome)
      requires fut < |futures|
      requires futures[fut].outcome.None?
      modifies this
      ensures View() == Resolve(old(View()), key, fut, outcome)
    {
      if outcome.Ok? && cached {
        cache := cache[key := outcome.claims];
      }
      futures := futures[fut := futures[fut].(outcome := Some(outcome))];
    }

    method ReleaseKey(key: Key)
      modifies this
      ensures View() == Release(old(View()), key)
    {
      inflight := inflight - {key};
    }

    /** `await`: the event loop lets others move, in the order of the run, until it is this task's turn. */
    method Await(t: TaskId, world: State, run: seq<Step>) returns (now: State, rest: seq<Step>)
      requires Underway(world, run, t) && world.shared == View()
      modifies this
      ensures Underway(now, rest, t) && now.shared == View()
      ensures After(now, rest) == After(world, run) && now.tasks[t] == world.tasks[t]
      ensures rest != [] && Enabled(now, rest[0]) && Mine(rest[0], t)
    {
      now, rest := world, run;
      StaysUnderway(now, rest, t);
      while !Mine(rest[0], t)
        invariant Underway(now, rest, t) && now.shared == View()
        invariant After(now, rest) == After(world, run) && now.tasks[t] == world.tasks[t]
        invariant rest != []
        decreases |rest|
      {
        StaysUnderway(now, rest, t);
        OtherStepKeepsTask(now, rest[0], t);
        now, rest := Next(now, rest[0]), rest[1..];
        cache, inflight, futures := now.shared.cache, now.shared.inflight, now.shared.futures;
        StaysUnderway(now, rest, t);
      }
    }

    /** The leader's part: the upstream reply settles the future, and then the entry goes. */
    method Lead(key: Key, t: TaskId, fut: FutureId, world: State, run: seq<Step>) returns (outcome: Outcome, now: State, rest: seq<Step>)
      requires Underway(world, run, t) && world.shared == View() && world.tasks[t] == Task(key, Leading(fut))
      modifies this
      ensures Runs(now, rest) && After(now, rest) == After(world, run) && now.shared == View()
      ensures t < |now.tasks| && now.tasks[t] == Task(key, Finished(outcome, Some(fut)))
    {
      now, rest := Await(t, world, run);
      assert TaskSound(now, t);
      outcome := rest[0].outcome;
      ResolveFuture(key, fut, outcome);
      StaysUnderway(now, rest, t);
      now, rest := Next(now, rest[0]), rest[1..];
      now, rest := Await(t, now, rest);
      ReleaseKey(key);
      StaysUnderway(now, rest, t);
      now, rest := Next(now, rest[0]), rest[1..];
    }

    /** The follower's part: `await fut`. */
    method Follow(key: Key, t: TaskId, fut: FutureId, world: State, run: seq<Step>) returns (outcome: Outcome, now: State, rest: seq<Step>)
      requires Underway(world, run, t) && world.shared == View() && world.tasks[t] == Task(key, Following(fut))
      modifies this
      ensures Runs(now, rest) && After(now, rest) == After(world, run) && now.shared == View()
      ensures t < |now.tasks| && now.tasks[t] == Task(key, Finished(outcome, Some(fut)))
    {
      now, rest := Await(t, world, run);
      outcome := futures[fut].outcome.value;
      StaysUnderway(now, rest, t);
      now, rest := Next(now, rest[0]), rest[1..];
    }

    /** `introspect` by task `t`, beside any others. For every run of the machine in which the task finishes, the code,
        with the others' steps of that run at its awaits and the run's reply from upstream, leaves the fields and
        returns the outcome that the machine has at the moment the task finishes. */
    method Introspect(key: Key, t: TaskId, world: State, run: seq<Step>) returns (outcome: Outcome, now: State, rest: seq<Step>)
      requires Underway(world, run, t) && world.shared == View() && world.tasks[t] == Task(key, Begin)
      modifies this
      ensures Runs(now, rest) && After(now, rest) == After(world, run) && now.shared == View()
      ensures t < |now.tasks| && now.tasks[t].key == key
      ensures now.tasks[t].pc.Finished? && now.tasks[t].pc.outcome == outcome
    {
      now, rest := Await(t, world, run);
      var hit := CacheLookup(key);
      StaysUnderway(now, rest, t);
      now, rest := Next(now, rest[0]), rest[1..];
      if hit.Some? {
        return Ok(hit.value), now, rest;
      }
      now, rest := Await(t, now, rest);
      var leader, fut := JoinOrLead(key, t);
      StaysUnderway(now, rest, t);
      now, rest := Next(now, rest[0]), rest[1..];
      if leader {
        outcome, now, rest := Lead(key, t, fut, now, rest);
      } else {
        outcome, now, rest := Follow(key, t, fut, now, rest);
      }
    }
  }
}
