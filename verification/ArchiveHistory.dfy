/** The archive's rows, files and scheduled deletions, told from the steps that were taken.
    Beside Archive, which says what is never lost, this says exactly what there is. */
module ArchiveHistory {
  import opened Prelude
  import opened Archive

  /** A step that was taken, with the steps before it. */
  type Told = (seq<Step>, Step) -> bool

  ghost predicate Never(steps: seq<Step>, c: nat, ends: Told) {
    forall m: nat :: c < m < |steps| ==> !ends(steps[..m], steps[m])
  }

  /** At some step it began, and at none since has it ended. */
  ghost predicate Since(steps: seq<Step>, begins: Told, ends: Told) {
    exists c: nat :: c < |steps| && begins(steps[..c], steps[c]) && Never(steps, c, ends)
  }

  lemma NeverPush(before: seq<Step>, e: Step, c: nat, ends: Told)
    requires c < |before|
    ensures Never(before + [e], c, ends) <==> Never(before, c, ends) && !ends(before, e)
  {
    var steps := before + [e];
    assert forall m: nat :: m < |before| ==> steps[..m] == before[..m] && steps[m] == before[m];
    assert steps[..|before|] == before && steps[|before|] == e;
  }

  lemma SincePush(before: seq<Step>, e: Step, begins: Told, ends: Told)
    ensures Since(before + [e], begins, ends) <==> begins(before, e) || (Since(before, begins, ends) && !ends(before, e))
  {
    var steps := before + [e];
    assert steps[..|before|] == before && steps[|before|] == e;
    if Since(before, begins, ends) && !ends(before, e) {
      var c: nat :| c < |before| && begins(before[..c], before[c]) && Never(before, c, ends);
      NeverPush(before, e, c, ends);
      assert steps[..c] == before[..c] && steps[c] == before[c];
    }
    if begins(before, e) {
      assert Never(steps, |before|, ends);
    }
    if Since(steps, begins, ends) {
      var c: nat :| c < |steps| && begins(steps[..c], steps[c]) && Never(steps, c, ends);
      if c < |before| {
        NeverPush(before, e, c, ends);
        assert steps[..c] == before[..c] && steps[c] == before[c];
      }
    }
  }

  // ------------------------------------------------------------------
  // What the steps tell
  // ------------------------------------------------------------------

  /** The row committed under `key` after these steps. */
  ghost predicate RowWas(steps: seq<Step>, key: Key, prev: Option<FileId>) {
    Runs(START, steps) &&
    var rows := After(START, steps).rows;
    prev == if key in rows then Some(rows[key]) else None
  }

  /** Saver `i` reads the row of `key` and finds `prev`; it writes `id`; its save is over. */
  ghost function Looks(i: nat, key: Key, prev: Option<FileId>): Told { (past: seq<Step>, e: Step) => e == Look(i, key) && RowWas(past, key, prev) }
  ghost function Writes(i: nat, id: FileId): Told { (past: seq<Step>, e: Step) => e == Write(i, id) }
  ghost function Ends(i: nat): Told { (past: seq<Step>, e: Step) => e == Commit(i) || e == Rollback(i) || e == Crash(i) }

  ghost predicate Saving(past: seq<Step>, i: nat, key: Key, prev: Option<FileId>) { Since(past, Looks(i, key, prev), Ends(i)) }
  ghost predicate Holding(past: seq<Step>, i: nat, id: FileId) { Since(past, Writes(i, id), Ends(i)) }

  /** A commit of `id` under `key`. */
  ghost predicate CommitsTo(past: seq<Step>, e: Step, key: Key, id: FileId) {
    e.Commit? && Holding(past, e.saver, id) && exists prev :: Saving(past, e.saver, key, prev)
  }

  ghost function Stores(key: Key, id: FileId): Told { (past: seq<Step>, e: Step) => CommitsTo(past, e, key, id) }
  ghost function StoresAny(key: Key): Told { (past: seq<Step>, e: Step) => exists id :: CommitsTo(past, e, key, id) }

  /** A commit of saver `i` that had found `id` in its row. */
  ghost predicate CommitsOver(past: seq<Step>, e: Step, i: nat, id: FileId) {
    e == Commit(i) && exists key :: Saving(past, i, key, Some(id))
  }

  ghost function Replaces(i: nat, id: FileId): Told { (past: seq<Step>, e: Step) => CommitsOver(past, e, i, id) }
  ghost function Forgets(i: nat, id: FileId): Told { (past: seq<Step>, e: Step) => e == Crash(i) || (e.Delete? && e.saver == i && e.id == id) }

  ghost function Creates(id: FileId): Told { (past: seq<Step>, e: Step) => e.Write? && e.id == id }
  ghost function Unlinks(id: FileId): Told { (past: seq<Step>, e: Step) => e.Delete? && e.id == id && e.unlinked }

  // ------------------------------------------------------------------
  // The state is what the steps tell
  // ------------------------------------------------------------------

  ghost predicate PcTold(steps: seq<Step>, s: State, i: nat) {
    && (forall key, prev :: Saving(steps, i, key, prev) <==>
          i < |s.savers| && !s.savers[i].pc.Idle? && s.savers[i].pc.key == key && s.savers[i].pc.prev == prev)
    && (forall id :: Holding(steps, i, id) <==> i < |s.savers| && InFlight(s.savers[i], id))
  }

  ghost predicate DebtsTold(steps: seq<Step>, s: State, i: nat) {
    forall id :: Since(steps, Replaces(i, id), Forgets(i, id)) <==> i < |s.savers| && id in s.savers[i].superseded
  }

  ghost predicate RowsTold(steps: seq<Step>, s: State) {
    forall key, id :: Since(steps, Stores(key, id), StoresAny(key)) <==> key in s.rows && s.rows[key] == id
  }

  ghost predicate DiskTold(steps: seq<Step>, s: State) {
    forall id :: Since(steps, Creates(id), Unlinks(id)) <==> id in s.disk
  }

  /** A save that found a row is an update of it, to a file of its own. */
  ghost predicate Updates(s: State, i: nat)
    requires i < |s.savers|
  {
    var pc := s.savers[i].pc;
    pc.Upserted? && pc.prev.Some? ==> pc.isUpdate && pc.prev.value != pc.id
  }

  lemma NextUpdates(s: State, step: Step, i: nat)
    requires Inv(s) && Enabled(s, step) && i < |Next(s, step).savers| && (i < |s.savers| ==> Updates(s, i))
    ensures Updates(Next(s, step), i)
  {
    if i < |s.savers| {
      assert SaverSound(s, i);
    }
  }

  lemma PcStaysTold(before: seq<Step>, s: State, e: Step, i: nat)
    requires Runs(START, before) && s == After(START, before) && Enabled(s, e) && PcTold(before, s, i)
    ensures PcTold(before + [e], Next(s, e), i)
  {
    var steps, s1 := before + [e], Next(s, e);
    forall key, prev ensures Saving(steps, i, key, prev) <==>
      i < |s1.savers| && !s1.savers[i].pc.Idle? && s1.savers[i].pc.key == key && s1.savers[i].pc.prev == prev
    {
      SincePush(before, e, Looks(i, key, prev), Ends(i));
      assert Saving(before, i, key, prev) <==> i < |s.savers| && !s.savers[i].pc.Idle? && s.savers[i].pc.key == key && s.savers[i].pc.prev == prev;
    }
    forall id ensures Holding(steps, i, id) <==> i < |s1.savers| && InFlight(s1.savers[i], id) {
      SincePush(before, e, Writes(i, id), Ends(i));
      assert Holding(before, i, id) <==> i < |s.savers| && InFlight(s.savers[i], id);
    }
  }

  lemma DebtsStayTold(before: seq<Step>, s: State, e: Step, i: nat)
    requires Enabled(s, e) && PcTold(before, s, i) && DebtsTold(before, s, i) && (i < |s.savers| ==> Updates(s, i))
    ensures DebtsTold(before + [e], Next(s, e), i)
  {
    var steps, s1 := before + [e], Next(s, e);
    forall id ensures Since(steps, Replaces(i, id), Forgets(i, id)) <==> i < |s1.savers| && id in s1.savers[i].superseded {
      SincePush(before, e, Replaces(i, id), Forgets(i, id));
      if e == Commit(i) {
        assert CommitsOver(before, e, i, id) <==> id in Superseded(s.savers[i].pc) by {
          if CommitsOver(before, e, i, id) {
            var key :| Saving(before, i, key, Some(id));
          }
          if id in Superseded(s.savers[i].pc) {
            assert Saving(before, i, s.savers[i].pc.key, Some(id));
          }
        }
      }
    }
  }

  lemma RowsStayTold(before: seq<Step>, s: State, e: Step)
    requires Enabled(s, e) && RowsTold(before, s) && (e.Commit? ==> PcTold(before, s, e.saver))
    ensures RowsTold(before + [e], Next(s, e))
  {
    var steps, s1 := before + [e], Next(s, e);
    forall key, id ensures CommitsTo(before, e, key, id) <==> e.Commit? && key == s.savers[e.saver].pc.key && id == s.savers[e.saver].pc.id {
      if e.Commit? {
        CommitTold(before, s, e, key, id);
      }
    }
    forall key, id ensures Since(steps, Stores(key, id), StoresAny(key)) <==> key in s1.rows && s1.rows[key] == id {
      SincePush(before, e, Stores(key, id), StoresAny(key));
      assert e.Commit? && key == s.savers[e.saver].pc.key ==> CommitsTo(before, e, key, s.savers[e.saver].pc.id);
      assert Since(before, Stores(key, id), StoresAny(key)) <==> key in s.rows && s.rows[key] == id;
    }
  }

  lemma CommitTold(before: seq<Step>, s: State, e: Step, key: Key, id: FileId)
    requires Enabled(s, e) && e.Commit? && PcTold(before, s, e.saver)
    ensures CommitsTo(before, e, key, id) <==> key == s.savers[e.saver].pc.key && id == s.savers[e.saver].pc.id
  {
    var pc := s.savers[e.saver].pc;
    assert Holding(before, e.saver, id) <==> InFlight(s.savers[e.saver], id);
    if CommitsTo(before, e, key, id) {
      var prev :| Saving(before, e.saver, key, prev);
    }
    if key == pc.key && id == pc.id {
      assert Saving(before, e.saver, key, pc.prev);
    }
  }

  lemma DiskStaysTold(before: seq<Step>, s: State, e: Step)
    requires Enabled(s, e) && DiskTold(before, s)
    ensures DiskTold(before + [e], Next(s, e))
  {
    forall id ensures Since(before + [e], Creates(id), Unlinks(id)) <==> id in Next(s, e).disk {
      SincePush(before, e, Creates(id), Unlinks(id));
      assert Since(before, Creates(id), Unlinks(id)) <==> id in s.disk;
    }
  }

  lemma {:induction false} RunIsTold(steps: seq<Step>)
    requires Runs(START, steps)
    ensures var s := After(START, steps);
      && RowsTold(steps, s) && DiskTold(steps, s)
      && (forall i: nat :: PcTold(steps, s, i)) && (forall i: nat :: DebtsTold(steps, s, i))
      && (forall i: nat :: i < |s.savers| ==> Updates(s, i))
    decreases |steps|
  {
    if steps != [] {
      var before, e := steps[..|steps| - 1], steps[|steps| - 1];
      assert steps == before + [e];
      RunsSplit(START, before, [e]);
      RunIsTold(before);
      var s := After(START, before);
      RunsKeepInv(START, before);
      assert After(s, [e]) == Next(s, e);
      RowsStayTold(before, s, e);
      DiskStaysTold(before, s, e);
      forall i: nat ensures PcTold(steps, Next(s, e), i) {
        PcStaysTold(before, s, e, i);
      }
      forall i: nat ensures DebtsTold(steps, Next(s, e), i) {
        DebtsStayTold(before, s, e, i);
      }
      forall i: nat | i < |Next(s, e).savers| ensures Updates(Next(s, e), i) {
        NextUpdates(s, e, i);
      }
    }
  }

  /** After every run: a row names the file of the last save committed under its key; a file is on disk if and only if it
      was written and no deletion has unlinked it; and a file is scheduled for deletion by a saver if and only if that
      saver committed over a row in which it had found the file, and has neither deleted it nor crashed since. */
  lemma ArchiveToldExactly(steps: seq<Step>)
    requires Runs(START, steps)
    ensures var s := After(START, steps);
      && (forall key, id :: key in s.rows && s.rows[key] == id <==> Since(steps, Stores(key, id), StoresAny(key)))
      && (forall id :: id in s.disk <==> Since(steps, Creates(id), Unlinks(id)))
      && (forall i: nat, id :: i < |s.savers| && id in s.savers[i].superseded <==> Since(steps, Replaces(i, id), Forgets(i, id)))
  {
    RunIsTold(steps);
    var s := After(START, steps);
    forall i: nat, id ensures i < |s.savers| && id in s.savers[i].superseded <==> Since(steps, Replaces(i, id), Forgets(i, id)) {
      assert DebtsTold(steps, s, i);
    }
  }
}
