/** The JSON archive beside the conversations table.
    Models `save_conversation`, `_write_conversation_json`, `_upsert_conversation_record` and
    `delete_superseded_json_archive` in gubbi/storage/repositories/conversations.py, and their
    callers' duty to delete superseded files only after commit. */
module Archive {
  import opened Prelude

  type FileId = string   // the UUID an archive file is named after
  type Key = string      // the (topic, slug) of a conversation row

  const DIRECTORY := "conversations_json/"

  function FileName(id: FileId): string { id + ".json" }

  /** The relative path stored in the `json_path` column. */
  function JsonPath(id: FileId): string { DIRECTORY + FileName(id) }

  /** `Path(p).name`: what follows the last slash. */
  function BaseName(path: string): string {
    if path == [] then []
    else if '/' in path then BaseName(path[1..])
    else path
  }

  lemma {:induction false} BaseNameDropsDirectories(prefix: string, name: string)
    requires '/' !in name && (prefix == [] || prefix[|prefix| - 1] == '/')
    ensures BaseName(prefix + name) == name
  {
    if prefix == [] {
      assert prefix + name == name;
    } else {
      assert (prefix + name)[|prefix| - 1] == '/';
      assert (prefix + name)[1..] == prefix[1..] + name;
      BaseNameDropsDirectories(prefix[1..], name);
    }
  }

  /** The stored path leads back to exactly the file that was written for it. */
  lemma StoredPathNamesItsFile(id: FileId)
    requires '/' !in id
    ensures BaseName(JsonPath(id)) == FileName(id)
  {
    BaseNameDropsDirectories(DIRECTORY, FileName(id));
  }

  class ArchiveDirectory {
    var files: set<string>
    const symlinks: set<string>

    constructor (symlinks: set<string>)
      ensures files == {} && this.symlinks == symlinks
    {
      this.symlinks := symlinks;
      files := {};
    }

    method WriteConversationJson(id: FileId) returns (path: string)
      modifies this
      ensures files == old(files) + {FileName(id)}
      ensures path == JsonPath(id)
      ensures '/' !in id ==> BaseName(path) in files
    {
      var outPath := FileName(id);
      files := files + {outPath};
      path := DIRECTORY + outPath;
      if '/' !in id {
        StoredPathNamesItsFile(id);
      }
    }

    /** Best effort: only the base name is used, symlinks are left alone, an operating-system error is swallowed. */
    method DeleteSupersededArchive(path: string, osError: bool)
      modifies this
      ensures files == old(files) || files == old(files) - {BaseName(path)}
      ensures !osError && BaseName(path) !in symlinks ==> files == old(files) - {BaseName(path)}
      ensures osError || BaseName(path) in symlinks ==> files == old(files)
      ensures forall id :: path == JsonPath(id) && '/' !in id ==> old(files) - {FileName(id)} <= files
    {
      var candidate := BaseName(path);
      if candidate !in symlinks && !osError {
        files := files - {candidate};
      }
      forall id | path == JsonPath(id) && '/' !in id ensures candidate == FileName(id) {
        StoredPathNamesItsFile(id);
      }
    }
  }

  /** The table beside the directory, as one undisturbed request sees it. */
  class ConversationStore {
    const directory: ArchiveDirectory
    var rows: map<Key, FileId>

    constructor (directory: ArchiveDirectory)
      ensures this.directory == directory && rows == map[]
    {
      this.directory := directory;
      rows := map[];
    }

    /** Every row's file is on disk, and no two rows share one. */
    ghost predicate Valid()
      reads this, directory
    {
      && (forall key :: key in rows ==> '/' !in rows[key] && FileName(rows[key]) in directory.files)
      && (forall k, l :: k in rows && l in rows && k != l ==> rows[k] != rows[l])
    }

    /** File first, then the row; the path the row moves away from is handed to the caller. */
    method SaveConversation(key: Key, id: FileId) returns (superseded: Option<FileId>)
      requires Valid() && '/' !in id && FileName(id) !in directory.files
      modifies this, directory
      ensures Valid()
      ensures rows == old(rows)[key := id]
      ensures directory.files == old(directory.files) + {FileName(id)}
      ensures superseded == if key in old(rows) && old(rows)[key] != id then Some(old(rows)[key]) else None
      ensures superseded.Some? ==> '/' !in superseded.value && forall k :: k in rows ==> rows[k] != superseded.value
    {
      var oldPath := if key in rows then Some(rows[key]) else None;
      var _ := directory.WriteConversationJson(id);
      assert forall k :: k in rows ==> rows[k] != id;
      rows := rows[key := id];
      superseded := if oldPath.Some? && oldPath.value != id then oldPath else None;
    }

    /** After the commit: deleting superseded files leaves every row its file. */
    method DeleteSuperseded(paths: seq<FileId>, failing: set<FileId>)
      requires Valid()
      requires forall i :: 0 <= i < |paths| ==> '/' !in paths[i] && forall k :: k in rows ==> rows[k] != paths[i]
      modifies directory
      ensures Valid() && rows == old(rows)
      ensures directory.files <= old(directory.files)
      ensures forall f :: f in old(directory.files) && f !in directory.files ==> exists i :: 0 <= i < |paths| && f == FileName(paths[i])
      ensures forall i :: 0 <= i < |paths| && paths[i] !in failing && FileName(paths[i]) !in directory.symlinks ==>
        FileName(paths[i]) !in directory.files
    {
      for i := 0 to |paths|
        invariant Valid() && rows == old(rows) && directory.files <= old(directory.files)
        invariant forall f :: f in old(directory.files) && f !in directory.files ==> exists j :: 0 <= j < i && f == FileName(paths[j])
        invariant forall j :: 0 <= j < i && paths[j] !in failing && FileName(paths[j]) !in directory.symlinks ==>
          FileName(paths[j]) !in directory.files
      {
        DeleteOne(paths[i], paths[i] in failing);
      }
    }

    method DeleteOne(path: FileId, osError: bool)
      requires Valid() && '/' !in path && forall k :: k in rows ==> rows[k] != path
      modifies directory
      ensures Valid() && rows == old(rows)
      ensures directory.files == if osError || FileName(path) in directory.symlinks then old(directory.files)
                                 else old(directory.files) - {FileName(path)}
    {
      StoredPathNamesItsFile(path);
      forall k | k in rows ensures FileName(rows[k]) != FileName(path) {
        FileNamesDiffer(rows[k], path);
      }
      directory.DeleteSupersededArchive(JsonPath(path), osError);
    }
  }

  lemma FileNamesDiffer(a: FileId, b: FileId)
    requires a != b
    ensures FileName(a) != FileName(b)
  {
    assert FileName(a)[..|FileName(a)| - 5] == a && FileName(b)[..|FileName(b)| - 5] == b;
  }

  // ------------------------------------------------------------------
  // Concurrent savers, rollbacks and crashes
  // ------------------------------------------------------------------

  datatype Pc =
    | Idle
    | Looked(key: Key, prev: Option<FileId>)                                   // the row's committed path has been read
    | Wrote(key: Key, prev: Option<FileId>, id: FileId)                        // the new file is on disk
    | Upserted(key: Key, prev: Option<FileId>, id: FileId, isUpdate: bool)     // the row is written and locked, not committed

  /** A request: where it is in a save, and the files it will delete later. */
  datatype Saver = Saver(pc: Pc, superseded: set<FileId>)

  /** `rows` is the committed table. `issued` remembers for which row each file was written. */
  datatype State = State(rows: map<Key, FileId>, disk: set<FileId>, savers: seq<Saver>, issued: map<FileId, Key>)

  const START := State(map[], {}, [], map[])

  datatype Step =
    | Arrive
    | Look(saver: nat, key: Key)
    | Write(saver: nat, id: FileId)
    | Upsert(saver: nat)
    | Commit(saver: nat)
    | Rollback(saver: nat)
    | Delete(saver: nat, id: FileId, unlinked: bool)
    | Crash(saver: nat)

  predicate HoldsRow(s: State, i: nat, key: Key) {
    i < |s.savers| && s.savers[i].pc.Upserted? && s.savers[i].pc.key == key
  }

  predicate Enabled(s: State, step: Step) {
    match step
    case Arrive => true
    case Look(i, _) => i < |s.savers| && s.savers[i].pc.Idle?
    case Write(i, id) => i < |s.savers| && s.savers[i].pc.Looked? && id !in s.issued
    case Upsert(i) => i < |s.savers| && s.savers[i].pc.Wrote?
                      && forall j :: 0 <= j < |s.savers| ==> !HoldsRow(s, j, s.savers[i].pc.key)
    case Commit(i) => i < |s.savers| && s.savers[i].pc.Upserted?
    case Rollback(i) => i < |s.savers| && !s.savers[i].pc.Idle?
    case Delete(i, id, _) => i < |s.savers| && id in s.savers[i].superseded
    case Crash(i) => i < |s.savers|
  }

  function Put(s: State, i: nat, saver: Saver): State
    requires i < |s.savers|
  {
    s.(savers := s.savers[i := saver])
  }

  /** The previous path is handed to the caller only when the row really was updated from it. */
  function Superseded(pc: Pc): set<FileId>
    requires pc.Upserted?
  {
    if pc.isUpdate && pc.prev.Some? && pc.prev.value != pc.id then {pc.prev.value} else {}
  }

  function Next(s: State, step: Step): State
    requires Enabled(s, step)
  {
    match step
    case Arrive => s.(savers := s.savers + [Saver(Idle, {})])
    case Look(i, key) =>
      Put(s, i, s.savers[i].(pc := Looked(key, if key in s.rows then Some(s.rows[key]) else None)))
    case Write(i, id) =>
      var pc := s.savers[i].pc;
      Put(s, i, s.savers[i].(pc := Wrote(pc.key, pc.prev, id)))
      .(disk := s.disk + {id}, issued := s.issued[id := pc.key])
    case Upsert(i) =>
      var pc := s.savers[i].pc;
      Put(s, i, s.savers[i].(pc := Upserted(pc.key, pc.prev, pc.id, pc.key in s.rows)))
    case Commit(i) =>
      var pc := s.savers[i].pc;
      Put(s, i, Saver(Idle, s.savers[i].superseded + Superseded(pc))).(rows := s.rows[pc.key := pc.id])
    case Rollback(i) => Put(s, i, s.savers[i].(pc := Idle))
    case Delete(i, id, unlinked) =>
      Put(s, i, s.savers[i].(superseded := s.savers[i].superseded - {id}))
      .(disk := if unlinked then s.disk - {id} else s.disk)
    case Crash(i) => Put(s, i, Saver(Idle, {}))
  }

  predicate Runs(s: State, steps: seq<Step>)
    decreases |steps|
  {
    steps == [] || (Enabled(s, steps[0]) && Runs(Next(s, steps[0]), steps[1..]))
  }

  function After(s: State, steps: seq<Step>): State
    requires Runs(s, steps)
    decreases |steps|
  {
    if steps == [] then s else After(Next(s, steps[0]), steps[1..])
  }

  // ------------------------------------------------------------------
  // The invariant
  // ------------------------------------------------------------------

  predicate InFlight(saver: Saver, id: FileId) {
    (saver.pc.Wrote? || saver.pc.Upserted?) && saver.pc.id == id
  }

  predicate NotInFlight(s: State, id: FileId) {
    forall j :: 0 <= j < |s.savers| ==> !InFlight(s.savers[j], id)
  }

  /** No committed row uses the file, and none ever will again. */
  predicate Retired(s: State, id: FileId) {
    && id in s.issued
    && s.issued[id] in s.rows && s.rows[s.issued[id]] != id
    && NotInFlight(s, id)
  }

  ghost predicate RowsBacked(s: State) {
    forall key :: key in s.rows ==>
      s.rows[key] in s.disk && s.rows[key] in s.issued && s.issued[s.rows[key]] == key && NotInFlight(s, s.rows[key])
  }

  ghost predicate SaverSound(s: State, i: nat)
    requires i < |s.savers|
  {
    var pc := s.savers[i].pc;
    && (forall id :: id in s.savers[i].superseded ==> Retired(s, id))
    && (!pc.Idle? && pc.prev.Some? ==>
          pc.prev.value in s.issued && s.issued[pc.prev.value] == pc.key && pc.key in s.rows && NotInFlight(s, pc.prev.value))
    && (pc.Wrote? || pc.Upserted? ==> pc.id in s.disk && pc.id in s.issued && s.issued[pc.id] == pc.key)
    && (forall j :: 0 <= j < |s.savers| && j != i && (pc.Wrote? || pc.Upserted?) ==> !InFlight(s.savers[j], pc.id))
  }

  ghost predicate Inv(s: State) {
    && RowsBacked(s)
    && (forall i :: 0 <= i < |s.savers| ==> SaverSound(s, i))
    && s.disk <= s.issued.Keys
  }

  /** A retired file stays retired: rows only ever move to files that are in flight, and those are new. */
  lemma RetiredStaysRetired(s: State, step: Step, id: FileId)
    requires Inv(s) && Enabled(s, step) && Retired(s, id)
    ensures Retired(Next(s, step), id)
  {
    match step
    case Commit(i) =>
      assert !InFlight(s.savers[i], id);
    case Upsert(i) =>
      assert !InFlight(s.savers[i], id);
    case _ =>
  }

  lemma CommitKeepsInv(s: State, i: nat)
    requires Inv(s) && Enabled(s, Commit(i))
    ensures Inv(Next(s, Commit(i)))
  {
    var s1, pc := Next(s, Commit(i)), s.savers[i].pc;
    assert SaverSound(s, i);
    forall id | NotInFlight(s, id) ensures NotInFlight(s1, id) {
    }
    forall id | id in Superseded(pc) ensures Retired(s1, id) {
      assert !InFlight(s.savers[i], id);
    }
    forall j | 0 <= j < |s1.savers| ensures SaverSound(s1, j) {
      assert SaverSound(s, j);
      forall id | id in s.savers[j].superseded ensures Retired(s1, id) {
        RetiredStaysRetired(s, Commit(i), id);
      }
    }
  }

  lemma WriteKeepsInv(s: State, i: nat, id: FileId)
    requires Inv(s) && Enabled(s, Write(i, id))
    ensures Inv(Next(s, Write(i, id)))
  {
    var s1 := Next(s, Write(i, id));
    forall k | 0 <= k < |s.savers| ensures !InFlight(s.savers[k], id) {
      assert SaverSound(s, k);
    }
    forall other | other in s.issued && NotInFlight(s, other) ensures NotInFlight(s1, other) {
    }
    forall j | 0 <= j < |s1.savers| ensures SaverSound(s1, j) {
      assert SaverSound(s, j);
      forall gone | gone in s.savers[j].superseded ensures Retired(s1, gone) {
        RetiredStaysRetired(s, Write(i, id), gone);
      }
      var pc := s1.savers[j].pc;
      forall k | 0 <= k < |s1.savers| && k != j && (pc.Wrote? || pc.Upserted?) ensures !InFlight(s1.savers[k], pc.id) {
        assert !InFlight(s.savers[k], pc.id);
      }
    }
  }

  lemma DeleteKeepsInv(s: State, i: nat, id: FileId, unlinked: bool)
    requires Inv(s) && Enabled(s, Delete(i, id, unlinked))
    ensures Inv(Next(s, Delete(i, id, unlinked)))
  {
    var step := Delete(i, id, unlinked);
    var s1 := Next(s, step);
    assert SaverSound(s, i);
    assert Retired(s, id);
    forall k, other | 0 <= k < |s.savers| ensures InFlight(s1.savers[k], other) == InFlight(s.savers[k], other) {
    }
    forall other | NotInFlight(s, other) ensures NotInFlight(s1, other) {
    }
    forall j | 0 <= j < |s1.savers| ensures SaverSound(s1, j) {
      assert SaverSound(s, j);
      assert !InFlight(s.savers[j], id);
      var pc := s1.savers[j].pc;
      forall k | 0 <= k < |s1.savers| && k != j && (pc.Wrote? || pc.Upserted?) ensures !InFlight(s1.savers[k], pc.id) {
        assert !InFlight(s.savers[k], pc.id);
      }
    }
  }

  /** Steps that touch neither the table nor the disk. */
  lemma LocalStepKeepsInv(s: State, step: Step)
    requires Inv(s) && Enabled(s, step)
    requires step.Arrive? || step.Look? || step.Upsert? || step.Rollback? || step.Crash?
    ensures Inv(Next(s, step))
  {
    var s1 := Next(s, step);
    forall id | NotInFlight(s, id) ensures NotInFlight(s1, id) {
      if step.Upsert? {
        assert !InFlight(s.savers[step.saver], id);
      }
    }
    forall j | 0 <= j < |s1.savers| ensures SaverSound(s1, j) {
      if j < |s.savers| {
        assert SaverSound(s, j);
      }
    }
  }

  lemma NextKeepsInv(s: State, step: Step)
    requires Inv(s) && Enabled(s, step)
    ensures Inv(Next(s, step))
  {
    match step
    case Commit(i) => CommitKeepsInv(s, i);
    case Write(i, id) => WriteKeepsInv(s, i, id);
    case Delete(i, id, unlinked) => DeleteKeepsInv(s, i, id, unlinked);
    case Arrive => LocalStepKeepsInv(s, step);
    case Look(_, _) => LocalStepKeepsInv(s, step);
    case Upsert(_) => LocalStepKeepsInv(s, step);
    case Rollback(_) => LocalStepKeepsInv(s, step);
    case Crash(_) => LocalStepKeepsInv(s, step);
  }

  lemma {:induction false} RunsKeepInv(s: State, steps: seq<Step>)
    requires Inv(s) && Runs(s, steps)
    ensures Inv(After(s, steps))
    decreases |steps|
  {
    if steps != [] {
      NextKeepsInv(s, steps[0]);
      RunsKeepInv(Next(s, steps[0]), steps[1..]);
    }
  }

  // ------------------------------------------------------------------
  // What every run guarantees
  // ------------------------------------------------------------------

  /** At every point of every run, each committed row's path names a file on disk. */
  lemma CommittedRowsHaveFiles(steps: seq<Step>)
    requires Runs(START, steps)
    ensures var s := After(START, steps); forall key :: key in s.rows ==> s.rows[key] in s.disk
  {
    RunsKeepInv(START, steps);
  }

  lemma {:induction false} RetiredForEver(s: State, steps: seq<Step>, id: FileId)
    requires Inv(s) && Runs(s, steps) && Retired(s, id)
    ensures Retired(After(s, steps), id)
    decreases |steps|
  {
    if steps != [] {
      RetiredStaysRetired(s, steps[0], id);
      NextKeepsInv(s, steps[0]);
      RetiredForEver(Next(s, steps[0]), steps[1..], id);
    }
  }

  lemma {:induction false} RunsSplit(s: State, before: seq<Step>, after: seq<Step>)
    requires Runs(s, before + after)
    ensures Runs(s, before) && Runs(After(s, before), after)
    ensures After(s, before + after) == After(After(s, before), after)
    decreases |before|
  {
    if before == [] {
      assert before + after == after;
    } else {
      assert (before + after)[1..] == before[1..] + after;
      RunsSplit(Next(s, before[0]), before[1..], after);
    }
  }

  /** A path scheduled for deletion at any point is not any row's path then, nor at any later point. */
  lemma ScheduledPathsNeverReturn(before: seq<Step>, after: seq<Step>, i: nat, id: FileId)
    requires Runs(START, before + after)
    requires Runs(START, before) && i < |After(START, before).savers| && id in After(START, before).savers[i].superseded
    ensures var s := After(START, before + after); forall key :: key in s.rows ==> s.rows[key] != id
  {
    RunsSplit(START, before, after);
    RunsKeepInv(START, before);
    var mid := After(START, before);
    assert SaverSound(mid, i);
    RetiredForEver(mid, after, id);
    RunsKeepInv(START, before + after);
  }

  lemma {:induction false} RunsPush(s: State, steps: seq<Step>, step: Step)
    requires Runs(s, steps) && Enabled(After(s, steps), step)
    ensures Runs(s, steps + [step]) && After(s, steps + [step]) == Next(After(s, steps), step)
    decreases |steps|
  {
    if steps != [] {
      assert (steps + [step])[1..] == steps[1..] + [step];
      RunsPush(Next(s, steps[0]), steps[1..], step);
    }
  }

  /** Why the caller must wait for the commit: a run reaches an uncommitted re-save that, had it deleted
      the superseded file already, would roll back to a committed row whose file is gone. */
  lemma DeletingBeforeCommitLosesTheFile(key: Key, a: FileId, b: FileId) returns (steps: seq<Step>)
    requires a != b
    ensures Runs(START, steps) && After(START, steps).savers != []
    ensures var s := After(START, steps);
      && s.savers[0].pc.Upserted? && Superseded(s.savers[0].pc) == {a}
      && (var early := s.(disk := s.disk - {a});
          && Enabled(early, Rollback(0))
          && (var t := Next(early, Rollback(0)); key in t.rows && t.rows[key] !in t.disk))
  {
    steps := [];
    RunsPush(START, steps, Arrive);
    steps := steps + [Arrive];
    RunsPush(START, steps, Look(0, key));
    steps := steps + [Look(0, key)];
    RunsPush(START, steps, Write(0, a));
    steps := steps + [Write(0, a)];
    RunsPush(START, steps, Upsert(0));
    steps := steps + [Upsert(0)];
    RunsPush(START, steps, Commit(0));
    steps := steps + [Commit(0)];
    assert After(START, steps).rows == map[key := a];
    RunsPush(START, steps, Look(0, key));
    steps := steps + [Look(0, key)];
    RunsPush(START, steps, Write(0, b));
    steps := steps + [Write(0, b)];
    RunsPush(START, steps, Upsert(0));
    steps := steps + [Upsert(0)];
  }
}
