/** The rate-limit event table and the limiter in front of client registration.
    Models gubbi/oauth/_rate_limit.py and the wrapper in gubbi/oauth/selfhost.py. */
module RateLimit {
  const REGISTER_MAX_ATTEMPTS := 10
  const REGISTER_WINDOW_SECS := 3600
  const RATE_LIMIT_EVENT_RETENTION_SECS := 3600

  datatype Event = Event(key: string, at: int)

  /** `COUNT(*) WHERE event_key = key AND occurred_at >= cutoff` */
  function Count(events: seq<Event>, key: string, cutoff: int): nat {
    if events == [] then 0
    else Count(events[..|events| - 1], key, cutoff)
         + (var e := events[|events| - 1]; if e.key == key && e.at >= cutoff then 1 else 0)
  }

  function Pruned(events: seq<Event>, cutoff: int): seq<Event> {
    if events == [] then []
    else
      var e := events[|events| - 1];
      if e.at < cutoff then Pruned(events[..|events| - 1], cutoff) else Pruned(events[..|events| - 1], cutoff) + [e]
  }

  lemma PrunedPush(events: seq<Event>, e: Event, cutoff: int)
    ensures Pruned(events + [e], cutoff) == if e.at < cutoff then Pruned(events, cutoff) else Pruned(events, cutoff) + [e]
  {
    assert (events + [e])[..|events|] == events;
  }

  lemma {:induction false} PrunedContents(events: seq<Event>, cutoff: int, e: Event)
    ensures multiset(Pruned(events, cutoff))[e] == if e.at < cutoff then 0 else multiset(events)[e]
  {
    if events != [] {
      var front, last := events[..|events| - 1], events[|events| - 1];
      PrunedContents(front, cutoff, e);
      assert events == front + [last];
    }
  }

  /** The later table holds the earlier one's events from the cutoff on, as often as it did, and no other; no count
      that looks back no further than the cutoff tells them apart. */
  ghost predicate KeepsRecent(before: seq<Event>, after: seq<Event>, cutoff: int) {
    && (forall e :: multiset(after)[e] == if e.at < cutoff then 0 else multiset(before)[e])
    && (forall key: string, c: int {:trigger Count(after, key, c)} {:trigger Count(before, key, c)} ::
          c >= cutoff ==> Count(after, key, c) == Count(before, key, c))
  }

  lemma PrunedKeepsRecent(events: seq<Event>, cutoff: int)
    ensures KeepsRecent(events, Pruned(events, cutoff), cutoff)
  {
    forall e ensures multiset(Pruned(events, cutoff))[e] == if e.at < cutoff then 0 else multiset(events)[e] {
      PrunedContents(events, cutoff, e);
    }
    forall key: string, c: int | c >= cutoff ensures Count(Pruned(events, cutoff), key, c) == Count(events, key, c) {
      PruneKeepsCount(events, key, cutoff, c);
    }
  }

  function RegisterKey(ip: string): string { "register:" + ip }

  class RateLimitStorage {
    var events: seq<Event>

    constructor ()
      ensures events == []
    {
      events := [];
    }

    method RecordEvent(key: string, now: int)
      modifies this
      ensures events == old(events) + [Event(key, now)]
    {
      events := events + [Event(key, now)];
    }

    method CountEvents(key: string, windowSecs: int, now: int) returns (count: nat)
      ensures count == Count(events, key, now - windowSecs)
    {
      var cutoff := now - windowSecs;
      count := Count(events, key, cutoff);
    }

    /** Goes once over the table: every event at or after the cutoff stays, in its place among the others, every older
        one goes, and so no count from the cutoff or later changes. */
    method Prune(retentionSecs: int, now: int) returns (deleted: int)
      modifies this
      ensures events == Pruned(old(events), now - retentionSecs)
      ensures KeepsRecent(old(events), events, now - retentionSecs)
      ensures deleted == |old(events)| - |events|
    {
      var cutoff, rows := now - retentionSecs, events;
      events, deleted := [], 0;
      for i := 0 to |rows|
        invariant events == Pruned(rows[..i], cutoff) && deleted == i - |events|
      {
        PrunedPush(rows[..i], rows[i], cutoff);
        assert rows[..i] + [rows[i]] == rows[..i + 1];
        if rows[i].at < cutoff {
          deleted := deleted + 1;
        } else {
          events := events + [rows[i]];
        }
      }
      assert rows[..|rows|] == rows;
      PrunedKeepsRecent(rows, cutoff);
    }

    /** `rate_limited_app`: count, refuse at the limit, otherwise record the attempt and let it through. */
    method Register(ip: string, now: int) returns (admitted: bool)
      modifies this
      ensures admitted <==> Count(old(events), RegisterKey(ip), now - REGISTER_WINDOW_SECS) < REGISTER_MAX_ATTEMPTS
      ensures events == if admitted then old(events) + [Event(RegisterKey(ip), now)] else old(events)
    {
      var count := CountEvents(RegisterKey(ip), REGISTER_WINDOW_SECS, now);
      if count >= REGISTER_MAX_ATTEMPTS {
        return false;
      }
      RecordEvent(RegisterKey(ip), now);
      return true;
    }
  }

  // ------------------------------------------------------------------
  // Sequential runs
  // ------------------------------------------------------------------

  datatype Op =
    | Attempt(ip: string)                     // a registration request
    | Record(key: string)                     // any other recorded event, such as a login failure
    | Ask(key: string, windowSecs: int)       // any other count
    | Retain(retentionSecs: int)              // a prune

  datatype Timed = Timed(now: int, op: Op)

  predicate Admits(events: seq<Event>, ip: string, now: int) {
    Count(events, RegisterKey(ip), now - REGISTER_WINDOW_SECS) < REGISTER_MAX_ATTEMPTS
  }

  function Apply(events: seq<Event>, o: Timed): seq<Event> {
    match o.op
    case Attempt(ip) => if Admits(events, ip, o.now) then events + [Event(RegisterKey(ip), o.now)] else events
    case Record(key) => events + [Event(key, o.now)]
    case Ask(_, _) => events
    case Retain(retention) => Pruned(events, o.now - retention)
  }

  /** What one operation answers: a count, or for a registration 1 when admitted and 0 when refused. */
  function Reply(events: seq<Event>, o: Timed): seq<int> {
    match o.op
    case Attempt(ip) => if Admits(events, ip, o.now) then [1] else [0]
    case Record(_) => []
    case Ask(key, w) => [Count(events, key, o.now - w)]
    case Retain(_) => []
  }

  function Replies(events: seq<Event>, ops: seq<Timed>): seq<int>
    decreases |ops|
  {
    if ops == [] then [] else Reply(events, ops[0]) + Replies(Apply(events, ops[0]), ops[1..])
  }

  /** The times at which `ip` was admitted during the run. */
  function Admitted(events: seq<Event>, ops: seq<Timed>, ip: string): seq<int>
    decreases |ops|
  {
    if ops == [] then []
    else
      (if ops[0].op == Attempt(ip) && Admits(events, ip, ops[0].now) then [ops[0].now] else [])
      + Admitted(Apply(events, ops[0]), ops[1..], ip)
  }

  /** The clock never goes back; every prune retains at least the longest window; every count asks
      for at most that window. */
  predicate Orderly(ops: seq<Timed>, now: int) {
    ops == [] ||
    (&& ops[0].now >= now
     && (ops[0].op.Retain? ==> ops[0].op.retentionSecs >= RATE_LIMIT_EVENT_RETENTION_SECS)
     && (ops[0].op.Ask? ==> ops[0].op.windowSecs <= RATE_LIMIT_EVENT_RETENTION_SECS)
     && Orderly(ops[1..], ops[0].now))
  }

  // ------------------------------------------------------------------
  // Pruning is invisible
  // ------------------------------------------------------------------

  lemma {:induction false} CountAppend(events: seq<Event>, e: Event, key: string, cutoff: int)
    ensures Count(events + [e], key, cutoff) == Count(events, key, cutoff) + (if e.key == key && e.at >= cutoff then 1 else 0)
  {
    assert (events + [e])[..|events|] == events;
  }

  /** Pruning below the cutoff of a count leaves the count as it was. */
  lemma {:induction false} PruneKeepsCount(events: seq<Event>, key: string, pruned: int, cutoff: int)
    requires pruned <= cutoff
    ensures Count(Pruned(events, pruned), key, cutoff) == Count(events, key, cutoff)
  {
    if events != [] {
      var front, e := events[..|events| - 1], events[|events| - 1];
      PruneKeepsCount(front, key, pruned, cutoff);
      if e.at >= pruned {
        CountAppend(Pruned(front, pruned), e, key, cutoff);
      }
    }
  }

  /** Both tables give the same count to every question that can still be asked at `now` or later. */
  ghost predicate SameCounts(s: seq<Event>, t: seq<Event>, now: int) {
    forall key: string, cutoff: int {:trigger Count(s, key, cutoff)} {:trigger Count(t, key, cutoff)} ::
      cutoff >= now - RATE_LIMIT_EVENT_RETENTION_SECS ==> Count(s, key, cutoff) == Count(t, key, cutoff)
  }

  lemma AppendKeepsSameCounts(s: seq<Event>, t: seq<Event>, now: int, e: Event)
    requires SameCounts(s, t, now)
    ensures SameCounts(s + [e], t + [e], now)
  {
    forall key: string, cutoff: int | cutoff >= now - RATE_LIMIT_EVENT_RETENTION_SECS
      ensures Count(s + [e], key, cutoff) == Count(t + [e], key, cutoff)
    {
      CountAppend(s, e, key, cutoff);
      CountAppend(t, e, key, cutoff);
    }
  }

  lemma PruneKeepsSameCounts(s: seq<Event>, t: seq<Event>, now: int, retention: int)
    requires SameCounts(s, t, now) && retention >= RATE_LIMIT_EVENT_RETENTION_SECS
    ensures SameCounts(Pruned(s, now - retention), t, now)
  {
    forall key: string, cutoff: int | cutoff >= now - RATE_LIMIT_EVENT_RETENTION_SECS
      ensures Count(Pruned(s, now - retention), key, cutoff) == Count(t, key, cutoff)
    {
      PruneKeepsCount(s, key, now - retention, cutoff);
    }
  }

  function WithoutPrunes(ops: seq<Timed>): seq<Timed> {
    if ops == [] then []
    else if ops[0].op.Retain? then WithoutPrunes(ops[1..])
    else [ops[0]] + WithoutPrunes(ops[1..])
  }

  lemma OperationAgrees(s: seq<Event>, t: seq<Event>, o: Timed)
    requires SameCounts(s, t, o.now) && !o.op.Retain?
    requires o.op.Ask? ==> o.op.windowSecs <= RATE_LIMIT_EVENT_RETENTION_SECS
    ensures Reply(s, o) == Reply(t, o)
    ensures SameCounts(Apply(s, o), Apply(t, o), o.now)
  {
    if o.op.Record? {
      AppendKeepsSameCounts(s, t, o.now, Event(o.op.key, o.now));
    } else if o.op.Attempt? {
      AppendKeepsSameCounts(s, t, o.now, Event(RegisterKey(o.op.ip), o.now));
    }
  }

  lemma SameCountsLater(s: seq<Event>, t: seq<Event>, now: int, later: int)
    requires SameCounts(s, t, now) && now <= later
    ensures SameCounts(s, t, later)
  {
  }

  lemma {:induction false} PrunedRunAgrees(s: seq<Event>, t: seq<Event>, ops: seq<Timed>, now: int)
    requires SameCounts(s, t, now) && Orderly(ops, now)
    ensures Replies(s, ops) == Replies(t, WithoutPrunes(ops))
    decreases |ops|
  {
    if ops != [] {
      var o := ops[0];
      SameCountsLater(s, t, now, o.now);
      if o.op.Retain? {
        PruneKeepsSameCounts(s, t, o.now, o.op.retentionSecs);
        PrunedRunAgrees(Apply(s, o), t, ops[1..], o.now);
      } else {
        OperationAgrees(s, t, o);
        PrunedRunAgrees(Apply(s, o), Apply(t, o), ops[1..], o.now);
        assert ([o] + WithoutPrunes(ops[1..]))[1..] == WithoutPrunes(ops[1..]);
      }
    }
  }

  /** Pruning at any moment of a run changes no count and no admission the run gives later. */
  lemma PruningIsInvisible(ops: seq<Timed>, start: int)
    requires Orderly(ops, start)
    ensures Replies([], ops) == Replies([], WithoutPrunes(ops))
  {
    PrunedRunAgrees([], [], ops, start);
  }

  // ------------------------------------------------------------------
  // The sliding window
  // ------------------------------------------------------------------

  /** How many of the times lie in the closed window `[lo, hi]`. */
  function Within(times: seq<int>, lo: int, hi: int): nat {
    if times == [] then 0
    else (if lo <= times[|times| - 1] <= hi then 1 else 0) + Within(times[..|times| - 1], lo, hi)
  }

  lemma {:induction false} WithinAppend(times: seq<int>, x: int, lo: int, hi: int)
    ensures Within(times + [x], lo, hi) == Within(times, lo, hi) + (if lo <= x <= hi then 1 else 0)
  {
    assert (times + [x])[..|times|] == times;
  }

  /** A window no wider on either side holds no more. */
  lemma {:induction false} WithinMonotone(times: seq<int>, lo: int, hi: int, lo': int, hi': int)
    requires lo' <= lo && (hi <= hi' || forall i :: 0 <= i < |times| ==> times[i] <= hi')
    ensures Within(times, lo, hi) <= Within(times, lo', hi')
  {
    if times != [] {
      WithinMonotone(times[..|times| - 1], lo, hi, lo', hi');
    }
  }

  /** How many of the times lie in the window that ends at `t`. */
  function WindowAt(times: seq<int>, t: int): nat { Within(times, t - REGISTER_WINDOW_SECS, t) }

  ghost predicate WindowsHold(times: seq<int>) {
    forall t: int :: WindowAt(times, t) <= REGISTER_MAX_ATTEMPTS
  }

  /** Every admission that can still matter at `now` is in the table. */
  ghost predicate Recorded(history: seq<int>, events: seq<Event>, ip: string, now: int) {
    && (forall i :: 0 <= i < |history| ==> history[i] <= now)
    && (forall cutoff: int {:trigger Count(events, RegisterKey(ip), cutoff)} ::
          cutoff >= now - REGISTER_WINDOW_SECS ==> Within(history, cutoff, now) <= Count(events, RegisterKey(ip), cutoff))
  }

  lemma RecordedLater(history: seq<int>, events: seq<Event>, ip: string, now: int, later: int)
    requires Recorded(history, events, ip, now) && now <= later
    ensures Recorded(history, events, ip, later)
  {
    forall cutoff: int | cutoff >= later - REGISTER_WINDOW_SECS
      ensures Within(history, cutoff, later) <= Count(events, RegisterKey(ip), cutoff)
    {
      WithinMonotone(history, cutoff, later, cutoff, now);
    }
  }

  lemma AdmissionKeepsWindows(history: seq<int>, events: seq<Event>, ip: string, now: int)
    requires Recorded(history, events, ip, now) && WindowsHold(history) && Admits(events, ip, now)
    ensures WindowsHold(history + [now])
    ensures Recorded(history + [now], events + [Event(RegisterKey(ip), now)], ip, now)
  {
    var w := REGISTER_WINDOW_SECS;
    forall t: int ensures WindowAt(history + [now], t) <= REGISTER_MAX_ATTEMPTS {
      WithinAppend(history, now, t - w, t);
      assert WindowAt(history, t) <= REGISTER_MAX_ATTEMPTS;
      if t >= now {
        WithinMonotone(history, t - w, t, now - w, now);
        assert Count(events, RegisterKey(ip), now - w) < REGISTER_MAX_ATTEMPTS;
      }
    }
    forall cutoff: int | cutoff >= now - w
      ensures Within(history + [now], cutoff, now) <= Count(events + [Event(RegisterKey(ip), now)], RegisterKey(ip), cutoff)
    {
      WithinAppend(history, now, cutoff, now);
      CountAppend(events, Event(RegisterKey(ip), now), RegisterKey(ip), cutoff);
      assert Within(history, cutoff, now) <= Count(events, RegisterKey(ip), cutoff);
    }
  }

  lemma OtherOpKeepsRecorded(history: seq<int>, events: seq<Event>, ip: string, o: Timed)
    requires Recorded(history, events, ip, o.now)
    requires o.op.Retain? ==> o.op.retentionSecs >= RATE_LIMIT_EVENT_RETENTION_SECS
    ensures Recorded(history, Apply(events, o), ip, o.now)
  {
    forall cutoff: int | cutoff >= o.now - REGISTER_WINDOW_SECS
      ensures Within(history, cutoff, o.now) <= Count(Apply(events, o), RegisterKey(ip), cutoff)
    {
      assert Within(history, cutoff, o.now) <= Count(events, RegisterKey(ip), cutoff);
      if o.op.Retain? {
        PruneKeepsCount(events, RegisterKey(ip), o.now - o.op.retentionSecs, cutoff);
      } else if Apply(events, o) != events {
        CountAppend(events, Apply(events, o)[|events|], RegisterKey(ip), cutoff);
      }
    }
  }

  lemma {:induction false} RunKeepsWindows(history: seq<int>, events: seq<Event>, ops: seq<Timed>, ip: string, now: int)
    requires Recorded(history, events, ip, now) && WindowsHold(history) && Orderly(ops, now)
    ensures WindowsHold(history + Admitted(events, ops, ip))
    decreases |ops|
  {
    if ops == [] {
      assert history + [] == history;
    } else {
      var o, rest := ops[0], ops[1..];
      RecordedLater(history, events, ip, now, o.now);
      var later := Admitted(Apply(events, o), rest, ip);
      if o.op == Attempt(ip) && Admits(events, ip, o.now) {
        AdmissionKeepsWindows(history, events, ip, o.now);
        RunKeepsWindows(history + [o.now], Apply(events, o), rest, ip, o.now);
        assert history + ([o.now] + later) == history + [o.now] + later;
      } else {
        OtherOpKeepsRecorded(history, events, ip, o);
        RunKeepsWindows(history, Apply(events, o), rest, ip, o.now);
        assert [] + later == later;
      }
    }
  }

  /** In every sequential run, whatever is recorded or pruned in between, no closed window of one
      hour holds more than ten admitted registrations of one address. */
  lemma NoWindowOverfills(ops: seq<Timed>, start: int, ip: string, t: int)
    requires Orderly(ops, start)
    ensures WindowAt(Admitted([], ops, ip), t) <= REGISTER_MAX_ATTEMPTS
  {
    RunKeepsWindows([], [], ops, ip, start);
    assert [] + Admitted([], ops, ip) == Admitted([], ops, ip);
  }

  // ------------------------------------------------------------------
  // Who is admitted
  // ------------------------------------------------------------------

  function AfterAll(events: seq<Event>, ops: seq<Timed>): seq<Event>
    decreases |ops|
  {
    if ops == [] then events else AfterAll(Apply(events, ops[0]), ops[1..])
  }

  /** What the run logs for one address: its own registrations that were let through, and any event recorded under
      its name. */
  function Logged(events: seq<Event>, ops: seq<Timed>, ip: string): seq<int>
    decreases |ops|
  {
    if ops == [] then []
    else
      var rest := Logged(Apply(events, ops[0]), ops[1..], ip);
      if ops[0].op == Record("register:" + ip) || (ops[0].op == Attempt(ip) && Reply(events, ops[0]) == [1])
      then [ops[0].now] + rest else rest
  }

  /** The table holds what was logged for the address, as far back as a question can still look. */
  ghost predicate Agrees(history: seq<int>, events: seq<Event>, ip: string, now: int) {
    && (forall i :: 0 <= i < |history| ==> history[i] <= now)
    && (forall cutoff: int {:trigger Count(events, "register:" + ip, cutoff)} ::
          cutoff >= now - 3600 ==> Count(events, "register:" + ip, cutoff) == Within(history, cutoff, now))
  }

  /** A window that ends at or after every time holds the same whenever it ends. */
  lemma {:induction false} WithinLater(times: seq<int>, lo: int, hi: int, later: int)
    requires hi <= later && forall i :: 0 <= i < |times| ==> times[i] <= hi
    ensures Within(times, lo, later) == Within(times, lo, hi)
  {
    if times != [] {
      WithinLater(times[..|times| - 1], lo, hi, later);
    }
  }

  lemma AgreesLater(history: seq<int>, events: seq<Event>, ip: string, now: int, later: int)
    requires Agrees(history, events, ip, now) && now <= later
    ensures Agrees(history, events, ip, later)
  {
    forall cutoff: int | cutoff >= later - 3600
      ensures Count(events, "register:" + ip, cutoff) == Within(history, cutoff, later)
    {
      WithinLater(history, cutoff, now, later);
    }
  }

  lemma OwnEventAgrees(history: seq<int>, events: seq<Event>, ip: string, now: int)
    requires Agrees(history, events, ip, now)
    ensures Agrees(history + [now], events + [Event("register:" + ip, now)], ip, now)
  {
    forall cutoff: int | cutoff >= now - 3600
      ensures Count(events + [Event("register:" + ip, now)], "register:" + ip, cutoff) == Within(history + [now], cutoff, now)
    {
      CountAppend(events, Event("register:" + ip, now), "register:" + ip, cutoff);
      WithinAppend(history, now, cutoff, now);
      assert Count(events, "register:" + ip, cutoff) == Within(history, cutoff, now);
    }
  }

  lemma OtherEventAgrees(history: seq<int>, events: seq<Event>, ip: string, now: int, e: Event)
    requires Agrees(history, events, ip, now) && e.key != "register:" + ip
    ensures Agrees(history, events + [e], ip, now)
  {
    forall cutoff: int | cutoff >= now - 3600
      ensures Count(events + [e], "register:" + ip, cutoff) == Within(history, cutoff, now)
    {
      CountAppend(events, e, "register:" + ip, cutoff);
      assert Count(events, "register:" + ip, cutoff) == Within(history, cutoff, now);
    }
  }

  lemma PruneAgrees(history: seq<int>, events: seq<Event>, ip: string, now: int, retention: int)
    requires Agrees(history, events, ip, now) && retention >= 3600
    ensures Agrees(history, Pruned(events, now - retention), ip, now)
  {
    forall cutoff: int | cutoff >= now - 3600
      ensures Count(Pruned(events, now - retention), "register:" + ip, cutoff) == Within(history, cutoff, now)
    {
      PruneKeepsCount(events, "register:" + ip, now - retention, cutoff);
      assert Count(events, "register:" + ip, cutoff) == Within(history, cutoff, now);
    }
  }

  lemma KeysDiffer(a: string, b: string)
    ensures "register:" + a == "register:" + b ==> a == b
  {
    assert ("register:" + a)[9..] == a && ("register:" + b)[9..] == b;
  }

  lemma StepAgrees(history: seq<int>, events: seq<Event>, ip: string, o: Timed)
    requires Agrees(history, events, ip, o.now) && (o.op.Retain? ==> o.op.retentionSecs >= 3600)
    ensures var own := o.op == Record("register:" + ip) || (o.op == Attempt(ip) && Reply(events, o) == [1]);
      Agrees(if own then history + [o.now] else history, Apply(events, o), ip, o.now)
  {
    match o.op
    case Retain(retention) => PruneAgrees(history, events, ip, o.now, retention);
    case Ask(_, _) =>
    case Record(key) =>
      if key == "register:" + ip {
        OwnEventAgrees(history, events, ip, o.now);
      } else {
        OtherEventAgrees(history, events, ip, o.now, Event(key, o.now));
      }
    case Attempt(other) =>
      KeysDiffer(other, ip);
      if other == ip {
        OwnEventAgrees(history, events, ip, o.now);
      } else {
        OtherEventAgrees(history, events, ip, o.now, Event("register:" + other, o.now));
      }
  }

  lemma {:induction false} RunAgrees(history: seq<int>, events: seq<Event>, ops: seq<Timed>, ip: string, now: int) returns (end: int)
    requires Agrees(history, events, ip, now) && Orderly(ops, now)
    ensures end == (if ops == [] then now else ops[|ops| - 1].now) && Agrees(history + Logged(events, ops, ip), AfterAll(events, ops), ip, end)
    decreases |ops|
  {
    if ops == [] {
      assert history + [] == history;
      end := now;
    } else {
      var o, rest := ops[0], ops[1..];
      AgreesLater(history, events, ip, now, o.now);
      StepAgrees(history, events, ip, o);
      var own := o.op == Record("register:" + ip) || (o.op == Attempt(ip) && Reply(events, o) == [1]);
      var later := Logged(Apply(events, o), rest, ip);
      if own {
        end := RunAgrees(history + [o.now], Apply(events, o), rest, ip, o.now);
        assert history + ([o.now] + later) == (history + [o.now]) + later;
      } else {
        end := RunAgrees(history, Apply(events, o), rest, ip, o.now);
      }
    }
  }

  lemma AgreesAfter(ops: seq<Timed>, start: int, ip: string, history: seq<int>, events: seq<Event>) returns (end: int)
    requires Orderly(ops, start) && history == Logged([], ops, ip) && events == AfterAll([], ops)
    ensures end == (if ops == [] then start else ops[|ops| - 1].now) && Agrees(history, events, ip, end)
  {
    end := RunAgrees([], [], ops, ip, start);
    assert [] + history == history;
  }

  lemma AgreedReply(history: seq<int>, events: seq<Event>, ip: string, now: int)
    requires Agrees(history, events, ip, now)
    ensures Reply(events, Timed(now, Attempt(ip))) == if Within(history, now - 3600, now) < 10 then [1] else [0]
  {
    assert Count(events, "register:" + ip, now - 3600) == Within(history, now - 3600, now);
  }

  /** In every sequential run a registration is let through if and only if fewer than ten events were logged for its own
      address in the hour before it; what other addresses do is of no account. */
  lemma AdmittedExactly(ops: seq<Timed>, start: int, now: int, ip: string)
    requires Orderly(ops, start) && start <= now && (ops != [] ==> ops[|ops| - 1].now <= now)
    ensures var answer := Reply(AfterAll([], ops), Timed(now, Attempt(ip)));
      answer == (if Within(Logged([], ops, ip), now - 3600, now) < 10 then [1] else [0])
  {
    var history, events := Logged([], ops, ip), AfterAll([], ops);
    var end := AgreesAfter(ops, start, ip, history, events);
    AgreesLater(history, events, ip, end, now);
    AgreedReply(history, events, ip, now);
  }
}
