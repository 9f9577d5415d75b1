/** RelayBlobUploadStore: the sessions in memory, the index snapshot and the chunk files. */
module UploadStore {
  import opened JsText
  import opened RelayUploads
  import opened FileSystem
  import opened UploadStorage
  import opened UploadCrashes
  import opened UploadLives
  import opened UploadMigration

  /** A file being replaced, from the state in which that began. */
  datatype Job = Job(start: UploadFs, temporary: Name, target: Name, doc: Doc, directory: set<Name>) {
    ghost predicate At(t: nat, state: UploadFs) {
      t <= REPLACE_STEPS && state == Replacing(start, temporary, target, doc, directory, t)
    }
  }

  ghost predicate Between(job: Job, state: UploadFs) {
    exists t: nat :: job.At(t, state)
  }

  /** A state on the way of writing a chunk file. */
  ghost predicate WritingAt(start: UploadFs, key: Str, i: int, bytes: Bytes, t: nat, state: UploadFs) {
    t <= REPLACE_STEPS && state == WritingChunk(start, key, i, bytes, t)
  }

  ghost predicate InWriting(start: UploadFs, key: Str, i: int, bytes: Bytes, state: UploadFs) {
    exists t: nat :: WritingAt(start, key, i, bytes, t, state)
  }

  lemma UnlinkOne(fs: UploadFs, key: Str, files: seq<int>, n: nat)
    requires n < |files|
    ensures Unlinking(fs, key, files[..n + 1]) == Unlink(Unlinking(fs, key, files[..n]), Chunk(key, files[n]))
  {
    assert files[..n + 1][..n] == files[..n];
  }

  /** The index has been saved without the session. */
  ghost predicate IndexDropped(start: UploadFs, before: Uploads, key: Str, fs: UploadFs) {
    fs == SavingIndex(start, before - {key}, REPLACE_STEPS)
  }

  lemma UnlinkedPasses(start: UploadFs, before: Uploads, key: Str, files: seq<int>, n: nat, saved: UploadFs,
                       state: UploadFs)
    requires n <= |files| && key in before && IndexDropped(start, before, key, saved)
    requires state == Unlinking(saved, key, files[..n])
    ensures Passes(start, before, DropSession(key, files), state)
  {
    assert PassesDrop(start, before, DropSession(key, files), n, state);
  }

  lemma Listed(m: Uploads, key: Str, order: seq<int>, n: nat)
    requires Lists(m, key, order) && n < |order|
    ensures order[n] in m[key].chunks && Lists(m, key, order[..n + 1])
  {
    var i := order[n];
    assert i in order;
    assert forall i' :: i' in order[..n + 1] ==> i' in order;
  }

  class RelayBlobUploadStore {
    var sessions: Uploads
    var fs: UploadFs

    /** Every state the file system went through. */
    ghost var trail: seq<UploadFs>

    /** Every chunk in memory has its file. */
    ghost predicate Valid()
      reads this
    {
      Loose(fs, sessions)
    }

    /** And the index names no others. */
    ghost predicate IsSettled()
      reads this
    {
      Good(fs, sessions)
    }

    ghost predicate Passed(from: nat, start: UploadFs, m: Uploads, op: UploadOp)
      reads this`trail
    {
      forall j :: from <= j < |trail| ==> Passes(start, m, op, trail[j])
    }

    /** The first t steps of the job are done, and every state noted since `from` is one of its states. */
    ghost predicate Reached(job: Job, t: nat, from: nat)
      reads this`fs, this`trail
    {
      job.At(t, fs) && forall j :: from <= j < |trail| ==> Between(job, trail[j])
    }

    ghost method Note(job: Job, t: nat, from: nat)
      requires from <= |trail| && job.At(t, fs) && forall j :: from <= j < |trail| ==> Between(job, trail[j])
      modifies this`trail
      ensures trail == old(trail) + [fs] && Reached(job, t, from)
    {
      trail := trail + [fs];
    }

    method CreateTemporary(temporary: Name, ghost job: Job, ghost from: nat)
      requires job.temporary == temporary && from <= |trail| && Reached(job, 0, from)
      modifies this`fs, this`trail
      ensures |trail| == |old(trail)| + 2 && old(trail) <= trail && Reached(job, 2, from)
    {
      fs := Create(fs, temporary);
      Note(job, 1, from);
      fs := Write(fs, temporary, Torn);
      Note(job, 2, from);
    }

    method FillTemporary(temporary: Name, doc: Doc, ghost job: Job, ghost from: nat)
      requires job.temporary == temporary && job.doc == doc && from <= |trail| && Reached(job, 2, from)
      modifies this`fs, this`trail
      ensures |trail| == |old(trail)| + 2 && old(trail) <= trail && Reached(job, 4, from)
    {
      fs := Write(fs, temporary, Whole(doc));
      Note(job, 3, from);
      fs := SyncFile(fs, temporary);
      Note(job, 4, from);
    }

    method PublishTemporary(temporary: Name, target: Name, directory: set<Name>, ghost job: Job, ghost from: nat)
      requires job.temporary == temporary && job.target == target && job.directory == directory
      requires from <= |trail| && Reached(job, 4, from)
      modifies this`fs, this`trail
      ensures |trail| == |old(trail)| + 2 && old(trail) <= trail && Reached(job, 6, from)
    {
      fs := Rename(fs, temporary, target);
      Note(job, 5, from);
      fs := SyncDirectory(fs, directory);
      Note(job, 6, from);
    }

    /** Temporary file, fsync, rename, fsync of the directory. */
    method ReplaceFile(temporary: Name, target: Name, doc: Doc, directory: set<Name>, ghost job: Job)
      requires job == Job(fs, temporary, target, doc, directory)
      modifies this`fs, this`trail
      ensures old(trail) <= trail && Reached(job, REPLACE_STEPS, |old(trail)|)
    {
      ghost var from := |trail|;
      CreateTemporary(temporary, job, from);
      FillTemporary(temporary, doc, job, from);
      PublishTemporary(temporary, target, directory, job, from);
    }

    /** #writeChunk. */
    method WriteChunk(key: Str, i: int, bytes: Bytes)
      modifies this`fs, this`trail
      ensures fs == WritingChunk(old(fs), key, i, bytes, REPLACE_STEPS) && old(trail) <= trail
      ensures forall j :: |old(trail)| <= j < |trail| ==> InWriting(old(fs), key, i, bytes, trail[j])
    {
      ghost var start, from := fs, |trail|;
      var directory := SessionDirectory(fs, key, i);
      ghost var job := Job(fs, ChunkTemporary(key, i), Chunk(key, i), Payload(bytes), directory);
      ReplaceFile(ChunkTemporary(key, i), Chunk(key, i), Payload(bytes), directory, job);
      forall j | from <= j < |trail| ensures InWriting(start, key, i, bytes, trail[j]) {
        var t: nat :| job.At(t, trail[j]);
        assert WritingAt(start, key, i, bytes, t, trail[j]);
      }
    }

    /** storeChunk. */
    method StoreChunk(key: Str, i: int, bytes: Bytes, ghost op: UploadOp)
      requires op.PutChunk? && op.key == key && op.i == i && op.bytes == bytes
      modifies this`fs, this`trail
      ensures fs == WritingChunk(old(fs), key, i, bytes, REPLACE_STEPS)
      ensures old(trail) <= trail && Passed(|old(trail)|, old(fs), sessions, op)
    {
      ghost var start, from := fs, |trail|;
      WriteChunk(key, i, bytes);
      forall j | from <= j < |trail| ensures Passes(start, sessions, op, trail[j]) {
        var t: nat :| WritingAt(start, key, i, bytes, t, trail[j]);
        assert PassesChunk(start, sessions, op, t, trail[j]);
      }
    }

    /** #save. */
    method SaveIndex(ghost from: nat, ghost start: UploadFs, ghost before: Uploads, ghost op: UploadOp)
      requires from <= |trail| && Passed(from, start, before, op) && sessions == Effect(before, op)
      requires op.PutChunk? ==> fs == WritingChunk(start, op.key, op.i, op.bytes, REPLACE_STEPS)
      requires op.DropSession? ==> fs == start && op.key in before
      modifies this`fs, this`trail
      ensures fs == SavingIndex(old(fs), sessions, REPLACE_STEPS)
      ensures old(trail) <= trail && Passed(from, start, before, op)
    {
      ghost var was, saved := fs, |trail|;
      ghost var job := Job(fs, IndexTemporary, Index, Encode(sessions), {Index, IndexTemporary});
      ReplaceFile(IndexTemporary, Index, Encode(sessions), {Index, IndexTemporary}, job);
      forall j | saved <= j < |trail| ensures Passes(start, before, op, trail[j]) {
        var t: nat :| job.At(t, trail[j]);
        if op.PutChunk? {
          assert PassesChunk(start, before, op, t, trail[j]);
        } else {
          assert PassesDrop(start, before, op, t, trail[j]);
        }
      }
    }

    /** What the chunk handler does with the store: the chunk's file, then the index that names it. */
    method PutChunk(key: Str, meta: Meta, now: int, i: int, bytes: Bytes)
      requires Valid()
      modifies this
      ensures Valid() && IsSettled() && old(trail) <= trail
      ensures var op := UploadOp.PutChunk(key, meta, now, i, bytes);
        sessions == Effect(old(sessions), op) && Passed(|old(trail)|, old(fs), old(sessions), op)
    {
      ghost var op := UploadOp.PutChunk(key, meta, now, i, bytes);
      ghost var start, before, from := fs, sessions, |trail|;
      var upload := if key in sessions then sessions[key] else Upload(meta, map[], now);
      StoreChunk(key, i, bytes, op);
      sessions := sessions[key := upload.(chunks := upload.chunks[i := bytes])];
      SaveIndex(from, start, before, op);
      SavedIsSettled(start, before, op);
      GoodIsLoose(fs, sessions);
    }

    /** rmSync of the session's directory, file by file. */
    method RemoveFiles(key: Str, files: seq<int>, ghost from: nat, ghost start: UploadFs, ghost before: Uploads)
      requires from <= |trail| && Passed(from, start, before, DropSession(key, files)) && key in before
      requires IndexDropped(start, before, key, fs)
      modifies this`fs, this`trail
      ensures fs == Unlinking(old(fs), key, files)
      ensures old(trail) <= trail && Passed(from, start, before, DropSession(key, files))
    {
      ghost var saved := fs;
      for n := 0 to |files|
        invariant fs == Unlinking(saved, key, files[..n])
        invariant old(trail) <= trail && Passed(from, start, before, DropSession(key, files))
      {
        fs := Unlink(fs, Chunk(key, files[n]));
        UnlinkOne(saved, key, files, n);
        trail := trail + [fs];
        UnlinkedPasses(start, before, key, files, n + 1, saved, fs);
      }
      assert files[..|files|] == files;
    }

    /** delete: the index forgets the session before its files are removed. */
    method Delete(key: Str, files: seq<int>) returns (deleted: bool)
      requires Valid()
      modifies this
      ensures Valid() && old(trail) <= trail && deleted == (key in old(sessions))
      ensures sessions == old(sessions) - {key}
      ensures deleted || old(IsSettled()) ==> IsSettled()
      ensures Passed(|old(trail)|, old(fs), old(sessions), DropSession(key, files))
      ensures deleted ==> forall i :: i in files ==> Current(fs, Chunk(key, i)).Absent?
      ensures !deleted ==> fs == old(fs) && trail == old(trail)
    {
      ghost var op := DropSession(key, files);
      ghost var start, before, from := fs, sessions, |trail|;
      deleted := key in sessions;
      sessions := sessions - {key};
      if deleted {
        SaveIndex(from, start, before, op);
        AllRemoved(fs, key, files);
        RemoveFiles(key, files, from, start, before);
      } else {
        assert before - {key} == before;
      }
      DoneIsLoose(start, before, op);
      if deleted { SavedIsSettled(start, before, op); }
    }

    /** Every state noted since `from` is one that the migration of the session passes through. */
    ghost predicate MidSessions(from: nat, start: UploadFs, m: Uploads, key: Str, order: seq<int>)
      requires Lists(m, key, order)
      reads this`trail
    {
      from <= |trail| && forall j :: from <= j < |trail| ==> MidSession(start, m, key, order, trail[j])
    }

    /** The chunks of one session go to files, then the index is saved. */
    method MigrateSession(key: Str, order: seq<int>)
      requires Lists(sessions, key, order)
      modifies this`fs, this`trail
      ensures fs == MigratingKey(old(fs), sessions, key, order)
      ensures old(trail) <= trail && MidSessions(|old(trail)|, old(fs), sessions, key, order)
    {
      ghost var start, from := fs, |trail|;
      for n := 0 to |order|
        invariant Lists(sessions, key, order[..n]) && fs == WritingChunks(start, sessions, key, order[..n])
        invariant old(trail) <= trail && MidSessions(from, start, sessions, key, order)
      {
        assert order[..n + 1][..n] == order[..n];
        Listed(sessions, key, order, n);
        ghost var noted := |trail|;
        WriteChunk(key, order[n], sessions[key].chunks[order[n]]);
        forall j | noted <= j < |trail| ensures MidSession(start, sessions, key, order, trail[j]) {
          WritingIsMid(start, sessions, key, order, n, trail[j]);
        }
      }
      assert order[..|order|] == order;
      ghost var written, noted := fs, |trail|;
      ghost var job := Job(fs, IndexTemporary, Index, Encode(sessions), {Index, IndexTemporary});
      ReplaceFile(IndexTemporary, Index, Encode(sessions), {Index, IndexTemporary}, job);
      forall j | noted <= j < |trail| ensures MidSession(start, sessions, key, order, trail[j]) {
        var t: nat :| job.At(t, trail[j]);
        assert MidIndex(start, sessions, key, order, t, trail[j]);
      }
    }

    /** Startup: load, then migrate the sessions of an old snapshot one after another. */
    constructor (disk: Found, keys: seq<Str>, orders: map<Str, seq<int>>)
      requires StartDisk(disk) && Plan(disk, keys, orders)
      ensures keys != [] || NamedChunksComplete(disk) ==> IsSettled()
      ensures sessions == Reload(disk) && Valid() && ListsAll(Reload(disk), keys, orders)
      ensures forall i :: 0 <= i < |trail| ==> InMigration(disk, keys, orders, trail[i])
    {
      sessions, fs, trail := Reload(disk), Boot(disk), [];
      new;
      PlanLists(disk, keys, orders);
      for n := 0 to |keys|
        invariant sessions == Reload(disk) && ListsAll(sessions, keys[..n], orders)
        invariant fs == Migrating(Boot(disk), sessions, keys[..n], orders)
        invariant forall i :: 0 <= i < |trail| ==> InMigration(disk, keys, orders, trail[i])
      {
        NextSession(disk, keys, orders, n);
        ghost var noted, before := |trail|, fs;
        MigrateSession(keys[n], orders[keys[n]]);
        forall i | noted <= i < |trail| ensures InMigration(disk, keys, orders, trail[i]) {
          SessionIsMidKey(disk, keys, orders, n, before, trail[i]);
        }
      }
      assert keys[..|keys|] == keys;
      MigrationKeepsAll(disk, keys, orders);
    }
  }

  lemma NextSession(disk: Found, keys: seq<Str>, orders: map<Str, seq<int>>, n: nat)
    requires ListsAll(Reload(disk), keys, orders) && n < |keys|
    ensures keys[n] in keys && keys[n] in orders && Lists(Reload(disk), keys[n], orders[keys[n]])
    ensures ListsAll(Reload(disk), keys[..n], orders) && ListsAll(Reload(disk), keys[..n + 1], orders)
    ensures Migrating(Boot(disk), Reload(disk), keys[..n + 1], orders) ==
      MigratingKey(Migrating(Boot(disk), Reload(disk), keys[..n], orders), Reload(disk), keys[n], orders[keys[n]])
  {
    assert keys[n] in keys && keys[..n + 1][..n] == keys[..n];
    assert forall k :: k in keys[..n + 1] ==> k in keys;
  }

  lemma WritingIsMid(start: UploadFs, m: Uploads, key: Str, order: seq<int>, n: nat, state: UploadFs)
    requires Lists(m, key, order) && n < |order| && Lists(m, key, order[..n]) && order[n] in m[key].chunks
    requires InWriting(WritingChunks(start, m, key, order[..n]), key, order[n], m[key].chunks[order[n]], state)
    ensures MidSession(start, m, key, order, state)
  {
    var t: nat :| WritingAt(WritingChunks(start, m, key, order[..n]), key, order[n], m[key].chunks[order[n]], t, state);
    assert order[n] in order;
    assert MidChunk(start, m, key, order, n, t, state);
  }

  lemma SessionIsMidKey(disk: Found, keys: seq<Str>, orders: map<Str, seq<int>>, n: nat, before: UploadFs,
                        state: UploadFs)
    requires ListsAll(Reload(disk), keys, orders) && n < |keys| && ListsAll(Reload(disk), keys[..n], orders)
    requires keys[n] in keys && before == Migrating(Boot(disk), Reload(disk), keys[..n], orders)
    requires MidSession(before, Reload(disk), keys[n], orders[keys[n]], state)
    ensures InMigration(disk, keys, orders, state)
  {
    assert MidKey(Boot(disk), Reload(disk), keys, orders, n, state);
  }

  /** A state the migration of the disk passes through. */
  ghost predicate InMigration(disk: Found, keys: seq<Str>, orders: map<Str, seq<int>>, state: UploadFs)
    requires ListsAll(Reload(disk), keys, orders)
  {
    exists j: nat :: MidKey(Boot(disk), Reload(disk), keys, orders, j, state)
  }
}
