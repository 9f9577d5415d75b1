/** Startup on a snapshot written before version 1.7.7: embedded chunks are moved to files, session by
    session, and after each session the index is saved. */
module UploadMigration {
  import opened JsText
  import opened RelayUploads
  import opened FileSystem
  import opened UploadStorage
  import opened UploadCrashes

  /** A disk as an old process, a migration or a crash may have left it: there may be no snapshot, or one
      that cannot be read, or one that names chunks without files; a file that is named and there is
      complete, and no chunk is both named and embedded. */
  ghost predicate StartDisk(disk: Found) {
    PresentChunksComplete(disk) &&
    forall k :: k in SessionsOn(disk) ==> SessionsOn(disk)[k].indexes !! SessionsOn(disk)[k].embedded.Keys
  }

  predicate Legacy(d: SessionDoc) {
    d.embedded != map[]
  }

  /** The sessions to migrate and, for each, its chunks, in the order the maps yield them. */
  ghost predicate Plan(disk: Found, keys: seq<Str>, orders: map<Str, seq<int>>) {
    && (forall i, j :: 0 <= i < j < |keys| ==> keys[i] != keys[j])
    && (forall k :: k in keys <==> k in SessionsOn(disk) && Legacy(SessionsOn(disk)[k]))
    && (forall k :: k in keys ==> k in orders)
    && (forall k, i :: k in keys ==> (i in orders[k] <==> i in Reload(disk)[k].chunks))
  }

  /** Listed chunk indexes are chunks of the session. */
  ghost predicate Lists(m: Uploads, k: Str, order: seq<int>) {
    k in m && forall i :: i in order ==> i in m[k].chunks
  }

  function WritingChunks(fs: UploadFs, m: Uploads, k: Str, order: seq<int>): UploadFs
    requires Lists(m, k, order)
  {
    if order == [] then fs else
      var n := |order| - 1;
      assert order[n] in order && forall i :: i in order[..n] ==> i in order;
      WritingChunk(WritingChunks(fs, m, k, order[..n]), k, order[n], m[k].chunks[order[n]], REPLACE_STEPS)
  }

  function MigratingKey(fs: UploadFs, m: Uploads, k: Str, order: seq<int>): UploadFs
    requires Lists(m, k, order)
  {
    SavingIndex(WritingChunks(fs, m, k, order), m, REPLACE_STEPS)
  }

  ghost predicate ListsAll(m: Uploads, keys: seq<Str>, orders: map<Str, seq<int>>) {
    forall k :: k in keys ==> k in orders && Lists(m, k, orders[k])
  }

  function Migrating(fs: UploadFs, m: Uploads, keys: seq<Str>, orders: map<Str, seq<int>>): UploadFs
    requires ListsAll(m, keys, orders)
  {
    if keys == [] then fs else
      var n := |keys| - 1;
      assert keys[n] in keys && forall k :: k in keys[..n] ==> k in keys;
      MigratingKey(Migrating(fs, m, keys[..n], orders), m, keys[n], orders[keys[n]])
  }

  // ----- the states in between -----

  ghost predicate MidChunk(fs: UploadFs, m: Uploads, k: Str, order: seq<int>, n: nat, t: nat, state: UploadFs)
    requires Lists(m, k, order)
  {
    n < |order| && t <= REPLACE_STEPS && Lists(m, k, order[..n]) && order[n] in order &&
    state == WritingChunk(WritingChunks(fs, m, k, order[..n]), k, order[n], m[k].chunks[order[n]], t)
  }

  ghost predicate MidIndex(fs: UploadFs, m: Uploads, k: Str, order: seq<int>, t: nat, state: UploadFs)
    requires Lists(m, k, order)
  {
    t <= REPLACE_STEPS && state == SavingIndex(WritingChunks(fs, m, k, order), m, t)
  }

  /** A state passed through while the j-th session is migrated. */
  ghost predicate MidKey(fs: UploadFs, m: Uploads, keys: seq<Str>, orders: map<Str, seq<int>>, j: nat, state: UploadFs)
    requires ListsAll(m, keys, orders)
  {
    j < |keys| && ListsAll(m, keys[..j], orders) && keys[j] in keys &&
    MidSession(Migrating(fs, m, keys[..j], orders), m, keys[j], orders[keys[j]], state)
  }

  ghost predicate MidSession(before: UploadFs, m: Uploads, k: Str, order: seq<int>, state: UploadFs)
    requires Lists(m, k, order)
  {
    (exists n, t :: MidChunk(before, m, k, order, n, t, state)) || (exists t :: MidIndex(before, m, k, order, t, state))
  }

  // ----- nothing is lost without a crash -----

  ghost predicate ChunkSolid(fs: UploadFs, m: Uploads, k: Str, i: int)
    requires k in m && i in m[k].chunks
  {
    Solid(fs, Chunk(k, i), Payload(m[k].chunks[i]))
  }

  /** Writing a chunk with its own bytes settles it and unsettles no other chunk or index. */
  lemma WritingSettles(fs: UploadFs, m: Uploads, k: Str, i: int, t: nat, k': Str, i': int)
    requires k in m && i in m[k].chunks && k' in m && i' in m[k'].chunks
    requires t == REPLACE_STEPS && ((k', i') == (k, i) || ChunkSolid(fs, m, k', i'))
    ensures ChunkSolid(WritingChunk(fs, k, i, m[k].chunks[i], t), m, k', i')
  {
    if (k', i') == (k, i) {
      ReplaceTarget(fs, ChunkTemporary(k, i), Chunk(k, i), Payload(m[k].chunks[i]), SessionDirectory(fs, k, i), t);
    } else {
      ReplaceKeepsOthers(fs, ChunkTemporary(k, i), Chunk(k, i), Payload(m[k].chunks[i]), SessionDirectory(fs, k, i), t,
                         Chunk(k', i'));
    }
  }

  lemma {:induction false} WritingAllSettles(fs: UploadFs, m: Uploads, k: Str, order: seq<int>, k': Str, i': int)
    requires Lists(m, k, order) && k' in m && i' in m[k'].chunks
    requires ChunkSolid(fs, m, k', i') || (k' == k && i' in order)
    ensures ChunkSolid(WritingChunks(fs, m, k, order), m, k', i')
  {
    if order != [] {
      var n := |order| - 1;
      assert order == order[..n] + [order[n]];
      if (k', i') != (k, order[n]) { WritingAllSettles(fs, m, k, order[..n], k', i'); }
      WritingSettles(WritingChunks(fs, m, k, order[..n]), m, k, order[n], REPLACE_STEPS, k', i');
    }
  }

  /** Settled names other than the chunks written keep their entry: the index, chunks of other
      sessions, missing files. */
  lemma {:induction false} WritingAllKeeps(fs: UploadFs, m: Uploads, k: Str, order: seq<int>, n: Name)
    requires Lists(m, k, order) && |Slot(fs, n)| == 1 && (n == Index || (n.Chunk? && !(n.key == k && n.i in order)))
    ensures Slot(WritingChunks(fs, m, k, order), n) == Slot(fs, n)
  {
    if order != [] {
      var last := |order| - 1;
      assert order == order[..last] + [order[last]];
      WritingAllKeeps(fs, m, k, order[..last], n);
      var fs1, i := WritingChunks(fs, m, k, order[..last]), order[last];
      ReplaceKeepsOthers(fs1, ChunkTemporary(k, i), Chunk(k, i), Payload(m[k].chunks[i]), SessionDirectory(fs1, k, i),
                         REPLACE_STEPS, n);
    }
  }

  lemma SavingSettles(fs: UploadFs, m: Uploads, t: nat, k: Str, i: int)
    requires t <= REPLACE_STEPS && k in m && i in m[k].chunks && ChunkSolid(fs, m, k, i)
    ensures ChunkSolid(SavingIndex(fs, m, t), m, k, i)
  {
    SavingIndexSlots(fs, m, t, Chunk(k, i));
  }

  lemma {:induction false} MigratingSettles(fs: UploadFs, m: Uploads, keys: seq<Str>, orders: map<Str, seq<int>>,
                                            k: Str, i: int)
    requires ListsAll(m, keys, orders) && k in m && i in m[k].chunks
    requires ChunkSolid(fs, m, k, i) || (k in keys && i in orders[k])
    ensures ChunkSolid(Migrating(fs, m, keys, orders), m, k, i)
    ensures keys != [] ==> Solid(Migrating(fs, m, keys, orders), Index, Encode(m))
  {
    if keys != [] {
      var n := |keys| - 1;
      var before := Migrating(fs, m, keys[..n], orders);
      assert keys == keys[..n] + [keys[n]];
      if ChunkSolid(fs, m, k, i) || k in keys[..n] { MigratingSettles(fs, m, keys[..n], orders, k, i); }
      WritingAllSettles(before, m, keys[n], orders[keys[n]], k, i);
      SavingSettles(WritingChunks(before, m, keys[n], orders[keys[n]]), m, REPLACE_STEPS, k, i);
      ReplaceTarget(WritingChunks(before, m, keys[n], orders[keys[n]]), IndexTemporary, Index, Encode(m),
                    {Index, IndexTemporary}, REPLACE_STEPS);
    }
  }

  lemma PlanLists(disk: Found, keys: seq<Str>, orders: map<Str, seq<int>>)
    requires Plan(disk, keys, orders)
    ensures ListsAll(Reload(disk), keys, orders)
  {
  }

  /** Chunks named by the old snapshot are settled from the start. */
  lemma NamedIsSolid(disk: Found, k: Str, i: int)
    requires StartDisk(disk) && k in SessionsOn(disk) && i in SessionsOn(disk)[k].indexes && Chunk(k, i) in disk
    ensures i in Reload(disk)[k].chunks && ChunkSolid(Boot(disk), Reload(disk), k, i)
  {
    assert ChunkComplete(disk, k, i);
  }

  /** Without a crash the migration loses nothing: it ends on exactly what was loaded, and settled unless
      there was nothing to migrate and the index names missing files. */
  lemma MigrationKeepsAll(disk: Found, keys: seq<Str>, orders: map<Str, seq<int>>)
    requires StartDisk(disk) && Plan(disk, keys, orders)
    ensures ListsAll(Reload(disk), keys, orders)
    ensures Loose(Migrating(Boot(disk), Reload(disk), keys, orders), Reload(disk))
    ensures keys != [] || NamedChunksComplete(disk) ==>
      Good(Migrating(Boot(disk), Reload(disk), keys, orders), Reload(disk))
  {
    var m, docs := Reload(disk), SessionsOn(disk);
    PlanLists(disk, keys, orders);
    var end := Migrating(Boot(disk), m, keys, orders);
    forall k, i | k in m && i in m[k].chunks ensures ChunkSolid(end, m, k, i) {
      if i in docs[k].indexes && Chunk(k, i) in disk { NamedIsSolid(disk, k, i); }
      MigratingSettles(Boot(disk), m, keys, orders, k, i);
    }
    if keys == [] {
      forall k | k in docs ensures docs[k].embedded == map[] { assert k !in keys; }
      LooseBoots(disk);
      if NamedChunksComplete(disk) { BootIsGood(disk); }
    } else {
      MigratingIndex(Boot(disk), m, keys, orders);
      GoodIsLoose(end, m);
    }
  }

  lemma {:induction false} MigratingIndex(fs: UploadFs, m: Uploads, keys: seq<Str>, orders: map<Str, seq<int>>)
    requires ListsAll(m, keys, orders) && keys != []
    ensures Solid(Migrating(fs, m, keys, orders), Index, Encode(m))
  {
    var n := |keys| - 1;
    assert ListsAll(m, keys[..n], orders) && Lists(m, keys[n], orders[keys[n]]) by {
      assert keys[n] in keys && forall k :: k in keys[..n] ==> k in keys;
    }
    MigratedIndex(Migrating(fs, m, keys[..n], orders), m, keys[n], orders[keys[n]]);
  }

  lemma MigratedIndex(fs: UploadFs, m: Uploads, k: Str, order: seq<int>)
    requires Lists(m, k, order)
    ensures Solid(MigratingKey(fs, m, k, order), Index, Encode(m))
  {
    ReplaceTarget(WritingChunks(fs, m, k, order), IndexTemporary, Index, Encode(m), {Index, IndexTemporary},
                  REPLACE_STEPS);
  }

  // ----- crashes during the migration -----

  /** The sessions are found as they were, no chunk file that is named and there is incomplete, and none is
      missing that was not missing before. */
  ghost predicate Keeps(disk: Found, found: Found) {
    Reload(found) == Reload(disk) && PresentChunksComplete(found) &&
    (NamedChunksComplete(disk) ==> NamedChunksComplete(found))
  }

  /** A disk with the old index and all chunks it names that were there reloads to what was loaded first. */
  lemma OldIndexReloads(disk: Found, found: Found)
    requires StartDisk(disk) && SessionsOn(found) == SessionsOn(disk)
    requires forall k, i :: k in SessionsOn(disk) && i in SessionsOn(disk)[k].indexes ==> SameFile(disk, found, k, i)
    ensures Keeps(disk, found)
  {
    var docs := SessionsOn(disk);
    forall k, i | k in docs && i in docs[k].indexes && Chunk(k, i) in found ensures ChunkComplete(found, k, i) {
      assert SameFile(disk, found, k, i) && ChunkComplete(disk, k, i);
    }
    forall k | k in docs ensures LoadChunks(found, k, docs[k]) == LoadChunks(disk, k, docs[k]) {
      assert forall i :: i in docs[k].indexes ==> SameFile(disk, found, k, i);
    }
    if NamedChunksComplete(disk) {
      forall k, i | k in docs && i in docs[k].indexes ensures ChunkComplete(found, k, i) {
        assert SameFile(disk, found, k, i) && ChunkComplete(disk, k, i);
      }
    }
  }

  /** The chunk's file is as it was, or still missing. */
  predicate SameFile(disk: Found, found: Found, k: Str, i: int) {
    (Chunk(k, i) in disk <==> Chunk(k, i) in found) && (Chunk(k, i) in disk ==> found[Chunk(k, i)] == disk[Chunk(k, i)])
  }

  /** A named chunk without a file is not in memory, so no write of a chunk touches its name. */
  lemma MissingStays(disk: Found, k: Str, order: seq<int>, k': Str, i': int)
    requires StartDisk(disk) && Lists(Reload(disk), k, order)
    requires k' in SessionsOn(disk) && i' in SessionsOn(disk)[k'].indexes && Chunk(k', i') !in disk
    ensures Slot(WritingChunks(Boot(disk), Reload(disk), k, order), Chunk(k', i')) == [Absent]
    ensures i' !in Reload(disk)[k'].chunks
  {
    assert i' !in SessionsOn(disk)[k'].embedded;
    WritingAllKeeps(Boot(disk), Reload(disk), k, order, Chunk(k', i'));
  }

  lemma SolidChunkFound(disk: Found, state: UploadFs, found: Found, k: Str, i: int)
    requires StartDisk(disk) && k in SessionsOn(disk) && i in SessionsOn(disk)[k].indexes && Chunk(k, i) in disk
    requires i in Reload(disk)[k].chunks && ChunkSolid(state, Reload(disk), k, i) && Survives(state, found)
    ensures Chunk(k, i) in found && found[Chunk(k, i)] == disk[Chunk(k, i)]
  {
    assert ChunkComplete(disk, k, i);
    SolidIsFound(state, Chunk(k, i), Payload(Reload(disk)[k].chunks[i]), found);
  }

  /** While the chunk files of the first session are written the old snapshot is in force. */
  lemma MidChunkReloads(disk: Found, k: Str, order: seq<int>, n: nat, t: nat, state: UploadFs, found: Found)
    requires StartDisk(disk) && Lists(Reload(disk), k, order)
    requires MidChunk(Boot(disk), Reload(disk), k, order, n, t, state) && Survives(state, found)
    ensures Keeps(disk, found) && SessionsOn(found) == SessionsOn(disk)
  {
    var m, fs := Reload(disk), Boot(disk);
    var before, i := WritingChunks(fs, m, k, order[..n]), order[n];
    assert k in SessionsOn(disk) && Slot(fs, Index) == [File(disk[Index], true)];
    WritingAllKeeps(fs, m, k, order[..n], Index);
    ReplaceKeepsOthers(before, ChunkTemporary(k, i), Chunk(k, i), Payload(m[k].chunks[i]),
      SessionDirectory(before, k, i), t, Index);
    SolidIsFound(state, Index, disk[Index].doc, found);
    forall k', i' | k' in SessionsOn(disk) && i' in SessionsOn(disk)[k'].indexes
      ensures SameFile(disk, found, k', i')
    {
      MidChunkNamed(disk, k, order, n, t, state, found, k', i');
    }
    OldIndexReloads(disk, found);
  }

  lemma MidChunkNamed(disk: Found, k: Str, order: seq<int>, n: nat, t: nat, state: UploadFs, found: Found, k': Str,
                      i': int)
    requires StartDisk(disk) && Lists(Reload(disk), k, order)
    requires MidChunk(Boot(disk), Reload(disk), k, order, n, t, state) && Survives(state, found)
    requires k' in SessionsOn(disk) && i' in SessionsOn(disk)[k'].indexes
    ensures SameFile(disk, found, k', i')
  {
    var m, fs := Reload(disk), Boot(disk);
    var before, i := WritingChunks(fs, m, k, order[..n]), order[n];
    if Chunk(k', i') in disk {
      NamedIsSolid(disk, k', i');
      WritingAllSettles(fs, m, k, order[..n], k', i');
      OwnBytesFound(before, m, k, i, t, k', i', found);
      assert ChunkComplete(disk, k', i');
    } else {
      MissingStays(disk, k, order[..n], k', i');
      ReplaceKeepsOthers(before, ChunkTemporary(k, i), Chunk(k, i), Payload(m[k].chunks[i]),
                         SessionDirectory(before, k, i), t, Chunk(k', i'));
      assert Possible(state, Chunk(k', i'), found);
    }
  }

  /** A settled chunk is found with its bytes even while it is being rewritten with the same bytes. */
  lemma OwnBytesFound(fs: UploadFs, m: Uploads, k: Str, i: int, t: nat, k': Str, i': int, found: Found)
    requires k in m && i in m[k].chunks && k' in m && i' in m[k'].chunks && t <= REPLACE_STEPS
    requires ChunkSolid(fs, m, k', i') && Survives(WritingChunk(fs, k, i, m[k].chunks[i], t), found)
    ensures Chunk(k', i') in found && found[Chunk(k', i')] == Whole(Payload(m[k'].chunks[i']))
  {
    var after := WritingChunk(fs, k, i, m[k].chunks[i], t);
    if (k', i') == (k, i) {
      ReplaceTarget(fs, ChunkTemporary(k, i), Chunk(k, i), Payload(m[k].chunks[i]), SessionDirectory(fs, k, i), t);
    } else {
      ReplaceKeepsOthers(fs, ChunkTemporary(k, i), Chunk(k, i), Payload(m[k].chunks[i]), SessionDirectory(fs, k, i), t,
                         Chunk(k', i'));
    }
    assert Possible(after, Chunk(k', i'), found);
  }

  /** The embedded chunk has a complete file with its bytes already, as an earlier migration that was cut
      short may have left it. */
  ghost predicate Filed(disk: Found, k: Str, i: int)
    requires k in SessionsOn(disk) && i in SessionsOn(disk)[k].embedded
  {
    Chunk(k, i) in disk && disk[Chunk(k, i)] == Whole(Payload(SessionsOn(disk)[k].embedded[i]))
  }

  /** So have the embedded chunks of every session but the first one to be migrated. */
  ghost predicate OthersFiled(disk: Found, keys: seq<Str>) {
    forall k, i :: !Unfiled(disk, keys, k, i)
  }

  ghost predicate Unfiled(disk: Found, keys: seq<Str>, k: Str, i: int) {
    k in SessionsOn(disk) && i in SessionsOn(disk)[k].embedded && (keys == [] || k != keys[0]) && !Filed(disk, k, i)
  }

  /** Whatever is not embedded in the first session is settled from the start. */
  lemma OthersAreSolid(disk: Found, keys: seq<Str>, k: Str, i: int)
    requires StartDisk(disk) && OthersFiled(disk, keys) && keys != []
    requires k in Reload(disk) && i in Reload(disk)[k].chunks
    requires k != keys[0] || i !in SessionsOn(disk)[k].embedded
    ensures ChunkSolid(Boot(disk), Reload(disk), k, i)
  {
    if i in SessionsOn(disk)[k].indexes { NamedIsSolid(disk, k, i); } else { assert !Unfiled(disk, keys, k, i); }
  }

  /** After the files of the first session are written every chunk in memory has its file. */
  lemma FirstSessionWritten(disk: Found, keys: seq<Str>, orders: map<Str, seq<int>>, t: nat)
    requires StartDisk(disk) && Plan(disk, keys, orders) && keys != [] && OthersFiled(disk, keys) && t <= REPLACE_STEPS
    requires Lists(Reload(disk), keys[0], orders[keys[0]])
    ensures var written := WritingChunks(Boot(disk), Reload(disk), keys[0], orders[keys[0]]);
      ChunksSolid(SavingIndex(written, Reload(disk), t), Reload(disk))
  {
    var m, fs, k := Reload(disk), Boot(disk), keys[0];
    var written := WritingChunks(fs, m, k, orders[k]);
    forall k', i' | k' in m && i' in m[k'].chunks ensures ChunkSolid(SavingIndex(written, m, t), m, k', i') {
      assert k in keys;
      if k' != k || i' !in SessionsOn(disk)[k'].embedded { OthersAreSolid(disk, keys, k', i'); }
      WritingAllSettles(fs, m, k, orders[k], k', i');
      SavingSettles(written, m, t, k', i');
    }
  }

  /** Either index is found: the old one or the new one. */
  lemma OldOrNewIndex(disk: Found, k: Str, order: seq<int>, t: nat, found: Found)
    requires StartDisk(disk) && Lists(Reload(disk), k, order) && t <= REPLACE_STEPS
    requires Survives(SavingIndex(WritingChunks(Boot(disk), Reload(disk), k, order), Reload(disk), t), found)
    ensures SessionsOn(found) == SessionsOn(disk) || SessionsOn(found) == Encode(Reload(disk)).sessions
  {
    var m, fs := Reload(disk), Boot(disk);
    assert k in SessionsOn(disk) && Slot(fs, Index) == [File(disk[Index], true)];
    WritingAllKeeps(fs, m, k, order, Index);
    EitherIndex(WritingChunks(fs, m, k, order), disk[Index].doc, m, t, found);
  }

  /** The snapshot is the old one or the new one. */
  ghost predicate EitherSnapshot(disk: Found, found: Found) {
    SessionsOn(found) == SessionsOn(disk) || SessionsOn(found) == Encode(Reload(disk)).sessions
  }

  /** While the index is saved after the first session, both indexes are backed by files. */
  lemma MidIndexReloads(disk: Found, keys: seq<Str>, orders: map<Str, seq<int>>, t: nat, state: UploadFs, found: Found)
    requires StartDisk(disk) && Plan(disk, keys, orders) && keys != [] && OthersFiled(disk, keys)
    requires Lists(Reload(disk), keys[0], orders[keys[0]]) && Survives(state, found)
    requires MidIndex(Boot(disk), Reload(disk), keys[0], orders[keys[0]], t, state)
    ensures Keeps(disk, found) && EitherSnapshot(disk, found)
  {
    FirstSessionWritten(disk, keys, orders, t);
    ChunksFound(state, Reload(disk), found);
    OldOrNewIndex(disk, keys[0], orders[keys[0]], t, found);
    if SessionsOn(found) == Encode(Reload(disk)).sessions {
      FoundReloads(found, Reload(disk));
    } else {
      forall k', i' | k' in SessionsOn(disk) && i' in SessionsOn(disk)[k'].indexes
        ensures SameFile(disk, found, k', i')
      {
        if Chunk(k', i') in disk {
          NamedIsSolid(disk, k', i');
          SolidChunkFound(disk, state, found, k', i');
        } else {
          MissingStays(disk, keys[0], orders[keys[0]], k', i');
          SavingIndexSlots(WritingChunks(Boot(disk), Reload(disk), keys[0], orders[keys[0]]), Reload(disk), t,
                           Chunk(k', i'));
          assert Possible(state, Chunk(k', i'), found);
        }
      }
      OldIndexReloads(disk, found);
    }
  }

  // ----- the sessions after the first -----

  /** From then on the store is settled at every turn. */
  lemma LaterIsGood(disk: Found, keys: seq<Str>, orders: map<Str, seq<int>>, j: nat)
    requires StartDisk(disk) && Plan(disk, keys, orders) && OthersFiled(disk, keys) && 0 < j <= |keys|
    requires ListsAll(Reload(disk), keys[..j], orders)
    ensures Good(Migrating(Boot(disk), Reload(disk), keys[..j], orders), Reload(disk))
  {
    var m := Reload(disk);
    MigratingIndex(Boot(disk), m, keys[..j], orders);
    forall k, i | k in m && i in m[k].chunks ensures ChunkSolid(Migrating(Boot(disk), m, keys[..j], orders), m, k, i) {
      assert keys[0] in keys && keys[..j][0] == keys[0];
      if k != keys[0] || i !in SessionsOn(disk)[k].embedded { OthersAreSolid(disk, keys, k, i); }
      MigratingSettles(Boot(disk), m, keys[..j], orders, k, i);
    }
  }

  lemma {:induction false} RewritingKeepsGood(fs: UploadFs, m: Uploads, k: Str, order: seq<int>)
    requires Good(fs, m) && Lists(m, k, order)
    ensures Good(WritingChunks(fs, m, k, order), m)
  {
    WritingIndexSlot(fs, m, k, order);
    forall k', i' | k' in m && i' in m[k'].chunks ensures ChunkSolid(WritingChunks(fs, m, k, order), m, k', i') {
      assert ChunkSolid(fs, m, k', i');
      WritingAllSettles(fs, m, k, order, k', i');
    }
  }

  lemma WritingIndexSlot(fs: UploadFs, m: Uploads, k: Str, order: seq<int>)
    requires Good(fs, m) && Lists(m, k, order)
    ensures Slot(WritingChunks(fs, m, k, order), Index) == Slot(fs, Index)
  {
    WritingAllKeeps(fs, m, k, order, Index);
  }

  /** A chunk of a settled store is rewritten with its own bytes. */
  lemma RewritingChunkReloads(fs: UploadFs, m: Uploads, k: Str, i: int, t: nat, found: Found)
    requires Good(fs, m) && k in m && i in m[k].chunks && t <= REPLACE_STEPS
    requires Survives(WritingChunk(fs, k, i, m[k].chunks[i], t), found)
    ensures Reload(found) == m && NamedChunksComplete(found) && SessionsOn(found) == Encode(m).sessions
  {
    OldIndexFound(fs, m, k, i, m[k].chunks[i], t, found);
    forall k', i' | k' in m && i' in m[k'].chunks
      ensures Chunk(k', i') in found && found[Chunk(k', i')] == Whole(Payload(m[k'].chunks[i']))
    {
      assert ChunkSolid(fs, m, k', i');
      OwnBytesFound(fs, m, k, i, t, k', i', found);
    }
    FoundReloads(found, m);
  }

  /** Its index is replaced by itself. */
  lemma ResavingReloads(fs: UploadFs, m: Uploads, t: nat, found: Found)
    requires Good(fs, m) && t <= REPLACE_STEPS && Survives(SavingIndex(fs, m, t), found)
    ensures Reload(found) == m && NamedChunksComplete(found) && SessionsOn(found) == Encode(m).sessions
  {
    SavingKeepsChunks(fs, m, m, t);
    ChunksFound(SavingIndex(fs, m, t), m, found);
    IndexChoice(fs, m, m, t, found);
    FoundReloads(found, m);
  }

  lemma LaterSessionReloads(before: UploadFs, m: Uploads, k: Str, order: seq<int>, state: UploadFs, found: Found)
    requires Good(before, m) && Lists(m, k, order) && MidSession(before, m, k, order, state) && Survives(state, found)
    ensures Reload(found) == m && NamedChunksComplete(found) && SessionsOn(found) == Encode(m).sessions
  {
    if n: nat, t: nat :| MidChunk(before, m, k, order, n, t, state) {
      RewritingKeepsGood(before, m, k, order[..n]);
      RewritingChunkReloads(WritingChunks(before, m, k, order[..n]), m, k, order[n], t, found);
    } else {
      var t: nat :| MidIndex(before, m, k, order, t, state);
      RewritingKeepsGood(before, m, k, order);
      ResavingReloads(WritingChunks(before, m, k, order), m, t, found);
    }
  }

  /** The current entries, as a disk. */
  function Settled(fs: UploadFs): Found {
    map n | n in fs && Current(fs, n).File? :: Current(fs, n).content
  }

  lemma SettledSurvives(fs: UploadFs)
    ensures Survives(fs, Settled(fs))
  {
    forall n ensures Possible(fs, n, Settled(fs)) {
      assert FoundAs(Slot(fs, n)[|Slot(fs, n)| - 1], Settled(fs), n);
    }
  }

  /** The state in which the first session has been migrated. */
  function FirstMigrated(disk: Found, keys: seq<Str>, orders: map<Str, seq<int>>): UploadFs
    requires ListsAll(Reload(disk), keys, orders) && keys != []
  {
    assert keys[0] in keys;
    MigratingKey(Boot(disk), Reload(disk), keys[0], orders[keys[0]])
  }

  lemma FirstMigratedIsPassed(disk: Found, keys: seq<Str>, orders: map<Str, seq<int>>)
    requires ListsAll(Reload(disk), keys, orders) && keys != []
    ensures MidKey(Boot(disk), Reload(disk), keys, orders, 0, FirstMigrated(disk, keys, orders))
  {
    assert keys[0] in keys && ListsAll(Reload(disk), keys[..0], orders);
    assert Migrating(Boot(disk), Reload(disk), keys[..0], orders) == Boot(disk);
    assert MidIndex(Boot(disk), Reload(disk), keys[0], orders[keys[0]], REPLACE_STEPS,
      FirstMigrated(disk, keys, orders));
    assert MidSession(Boot(disk), Reload(disk), keys[0], orders[keys[0]], FirstMigrated(disk, keys, orders));
  }

  /** That moment is fatal to an embedded chunk of another session without its file: the saved index names
      it, and what is found under its name is not it. */
  lemma UnfiledIsLost(disk: Found, keys: seq<Str>, orders: map<Str, seq<int>>, k: Str, i: int)
    requires StartDisk(disk) && Plan(disk, keys, orders) && keys != [] && ListsAll(Reload(disk), keys, orders)
    requires k in SessionsOn(disk) && i in SessionsOn(disk)[k].embedded && k != keys[0] && !Filed(disk, k, i)
    ensures var found := Settled(FirstMigrated(disk, keys, orders));
      Reload(found) != Reload(disk) || !PresentChunksComplete(found)
  {
    var m, fs, first := Reload(disk), Boot(disk), keys[0];
    assert first in keys && i in m[k].chunks;
    var written := WritingChunks(fs, m, first, orders[first]);
    assert |Slot(fs, Chunk(k, i))| == 1;
    WritingAllKeeps(fs, m, first, orders[first], Chunk(k, i));
    SavingIndexSlots(written, m, REPLACE_STEPS, Chunk(k, i));
    ReplaceTarget(written, IndexTemporary, Index, Encode(m), {Index, IndexTemporary}, REPLACE_STEPS);
    NamedButWrong(FirstMigrated(disk, keys, orders), m, k, i);
  }

  lemma NamedButWrong(state: UploadFs, m: Uploads, k: Str, i: int)
    requires Solid(state, Index, Encode(m)) && k in m && i in m[k].chunks
    requires Slot(state, Chunk(k, i)) == [Absent] ||
      (|Slot(state, Chunk(k, i))| == 1 && Slot(state, Chunk(k, i))[0].File? &&
       Slot(state, Chunk(k, i))[0].content != Whole(Payload(m[k].chunks[i])))
    ensures Reload(Settled(state)) != m || !PresentChunksComplete(Settled(state))
  {
    var found := Settled(state);
    assert found[Index] == Whole(Encode(m)) && i in SessionsOn(found)[k].indexes;
    if PresentChunksComplete(found) && Chunk(k, i) in found {
      assert ChunkComplete(found, k, i);
      assert Reload(found)[k].chunks[i] != m[k].chunks[i];
    } else {
      assert Chunk(k, i) !in found ==> i !in Reload(found)[k].chunks;
    }
  }

  /** A crash in this state can lose something, or leave a named chunk with an incomplete file. */
  ghost predicate Loses(disk: Found, keys: seq<Str>, orders: map<Str, seq<int>>, j: nat, state: UploadFs, found: Found)
    requires ListsAll(Reload(disk), keys, orders)
  {
    MidKey(Boot(disk), Reload(disk), keys, orders, j, state) && Survives(state, found) &&
    !Keeps(disk, found)
  }

  /** No crash during the migration does. */
  ghost predicate CrashSafe(disk: Found, keys: seq<Str>, orders: map<Str, seq<int>>)
    requires ListsAll(Reload(disk), keys, orders)
  {
    forall j, state, found :: !Loses(disk, keys, orders, j, state, found)
  }

  lemma MidKeyReloads(disk: Found, keys: seq<Str>, orders: map<Str, seq<int>>, j: nat, state: UploadFs, found: Found)
    requires StartDisk(disk) && Plan(disk, keys, orders) && OthersFiled(disk, keys) &&
      ListsAll(Reload(disk), keys, orders)
    requires MidKey(Boot(disk), Reload(disk), keys, orders, j, state) && Survives(state, found)
    ensures Keeps(disk, found) && EitherSnapshot(disk, found)
  {
    var m, fs := Reload(disk), Boot(disk);
    if j > 0 {
      LaterIsGood(disk, keys, orders, j);
      LaterSessionReloads(Migrating(fs, m, keys[..j], orders), m, keys[j], orders[keys[j]], state, found);
    } else {
      assert keys[0] in keys && Migrating(fs, m, keys[..0], orders) == fs;
      var k, order := keys[0], orders[keys[0]];
      if n, t :| MidChunk(fs, m, k, order, n, t, state) {
        MidChunkReloads(disk, k, order, n, t, state, found);
      } else {
        var t :| MidIndex(fs, m, k, order, t, state);
        MidIndexReloads(disk, keys, orders, t, state, found);
      }
    }
  }

  /** The files that were there keep their bytes. */
  lemma StillFiled(disk: Found, keys: seq<Str>, orders: map<Str, seq<int>>, j: nat, state: UploadFs, found: Found,
                   k: Str, i: int)
    requires StartDisk(disk) && Plan(disk, keys, orders) && OthersFiled(disk, keys)
    requires Dies(disk, keys, orders, j, state, found) && SessionsOn(found) == SessionsOn(disk)
    requires k in SessionsOn(disk) && i in SessionsOn(disk)[k].embedded && k != keys[0]
    ensures Filed(found, k, i)
  {
    var m, fs, first := Reload(disk), Boot(disk), keys[0];
    assert keys[0] in keys && i in m[k].chunks;
    if j > 0 {
      LaterIsGood(disk, keys, orders, j);
      LaterSessionReloads(Migrating(fs, m, keys[..j], orders), m, keys[j], orders[keys[j]], state, found);
    } else {
      assert Migrating(fs, m, keys[..0], orders) == fs;
      if n: nat, t: nat :| MidChunk(fs, m, first, orders[first], n, t, state) {
        OthersAreSolid(disk, keys, k, i);
        WritingAllSettles(fs, m, first, orders[first][..n], k, i);
        OwnBytesFound(WritingChunks(fs, m, first, orders[first][..n]), m, first, orders[first][n], t, k, i, found);
      } else {
        var t: nat :| MidIndex(fs, m, first, orders[first], t, state);
        FirstSessionWritten(disk, keys, orders, t);
        ChunksFound(state, m, found);
      }
    }
  }

  /** A crash in the turn of the j-th session. */
  ghost predicate Dies(disk: Found, keys: seq<Str>, orders: map<Str, seq<int>>, j: nat, state: UploadFs, found: Found) {
    ListsAll(Reload(disk), keys, orders) && MidKey(Boot(disk), Reload(disk), keys, orders, j, state) &&
    Survives(state, found)
  }

  /** What a crash leaves then is a disk the next startup can migrate, again without loss. */
  lemma InterruptedIsOld(disk: Found, keys: seq<Str>, orders: map<Str, seq<int>>, j: nat, state: UploadFs, found: Found)
    requires StartDisk(disk) && Plan(disk, keys, orders) && OthersFiled(disk, keys)
    requires Dies(disk, keys, orders, j, state, found)
    ensures StartDisk(found) && Keeps(disk, found) && OthersFiled(found, keys)
  {
    MidKeyReloads(disk, keys, orders, j, state, found);
    forall k, i ensures !Unfiled(found, keys, k, i) {
      if Unfiled(found, keys, k, i) { StillFiled(disk, keys, orders, j, state, found, k, i); }
    }
  }

  datatype Death = Death(turn: nat, state: UploadFs, found: Found)

  /** Startups that die in the migration, each on what the one before left, in the same order. */
  ghost predicate Deaths(disk: Found, keys: seq<Str>, orders: map<Str, seq<int>>, deaths: seq<Death>)
    decreases |deaths|
  {
    deaths == [] ||
    (Plan(disk, keys, orders) && Dies(disk, keys, orders, deaths[0].turn, deaths[0].state, deaths[0].found) &&
     Deaths(deaths[0].found, keys, orders, deaths[1..]))
  }

  /** What the last of them left. */
  function Left(disk: Found, deaths: seq<Death>): Found
    decreases |deaths|
  {
    if deaths == [] then disk else Left(deaths[0].found, deaths[1..])
  }

  /** A disk that can be migrated without loss, with these sessions. */
  ghost predicate Migratable(disk: Found, keys: seq<Str>, m: Uploads) {
    StartDisk(disk) && OthersFiled(disk, keys) && Reload(disk) == m
  }

  lemma FirstDeath(disk: Found, keys: seq<Str>, orders: map<Str, seq<int>>, deaths: seq<Death>, m: Uploads)
    requires Migratable(disk, keys, m) && Deaths(disk, keys, orders, deaths) && deaths != []
    ensures Migratable(deaths[0].found, keys, m) && Deaths(deaths[0].found, keys, orders, deaths[1..])
    ensures NamedChunksComplete(disk) ==> NamedChunksComplete(deaths[0].found)
  {
    InterruptedIsOld(disk, keys, orders, deaths[0].turn, deaths[0].state, deaths[0].found);
  }

  /** However often the migration is cut short, the sessions are found as they were. */
  lemma {:induction false} DeathsLoseNothing(disk: Found, keys: seq<Str>, orders: map<Str, seq<int>>,
                                             deaths: seq<Death>, m: Uploads)
    requires Migratable(disk, keys, m) && Deaths(disk, keys, orders, deaths)
    ensures Migratable(Left(disk, deaths), keys, m)
    ensures NamedChunksComplete(disk) ==> NamedChunksComplete(Left(disk, deaths))
    decreases |deaths|
  {
    if deaths != [] {
      FirstDeath(disk, keys, orders, deaths, m);
      DeathsLoseNothing(deaths[0].found, keys, orders, deaths[1..], m);
    }
  }

  lemma FiledLosesNothing(disk: Found, keys: seq<Str>, orders: map<Str, seq<int>>, j: nat, state: UploadFs,
                          found: Found)
    requires StartDisk(disk) && Plan(disk, keys, orders) && OthersFiled(disk, keys) &&
      ListsAll(Reload(disk), keys, orders)
    ensures !Loses(disk, keys, orders, j, state, found)
  {
    if Loses(disk, keys, orders, j, state, found) {
      MidKeyReloads(disk, keys, orders, j, state, found);
    }
  }

  lemma FiledIsSafe(disk: Found, keys: seq<Str>, orders: map<Str, seq<int>>)
    requires StartDisk(disk) && Plan(disk, keys, orders) && OthersFiled(disk, keys) &&
      ListsAll(Reload(disk), keys, orders)
    ensures CrashSafe(disk, keys, orders)
  {
    forall j: nat, state, found ensures !Loses(disk, keys, orders, j, state, found) {
      FiledLosesNothing(disk, keys, orders, j, state, found);
    }
  }

  lemma UnfiledLoses(disk: Found, keys: seq<Str>, orders: map<Str, seq<int>>, k: Str, i: int)
    requires StartDisk(disk) && Plan(disk, keys, orders) && ListsAll(Reload(disk), keys, orders) && keys != []
    requires k in SessionsOn(disk) && i in SessionsOn(disk)[k].embedded && k != keys[0] && !Filed(disk, k, i)
    ensures var state := FirstMigrated(disk, keys, orders); Loses(disk, keys, orders, 0, state, Settled(state))
  {
    UnfiledIsLost(disk, keys, orders, k, i);
    FirstMigratedIsPassed(disk, keys, orders);
    SettledSurvives(FirstMigrated(disk, keys, orders));
  }

  /** The migration is crash-safe exactly when the embedded chunks of every session but the first to be
      migrated already have files with their bytes; so in particular when one session embeds chunks. */
  lemma MigrationCrashSafeIff(disk: Found, keys: seq<Str>, orders: map<Str, seq<int>>)
    requires StartDisk(disk) && Plan(disk, keys, orders)
    ensures ListsAll(Reload(disk), keys, orders)
    ensures CrashSafe(disk, keys, orders) <==> OthersFiled(disk, keys)
    ensures |keys| <= 1 ==> CrashSafe(disk, keys, orders)
  {
    PlanLists(disk, keys, orders);
    OneSessionIsFiled(disk, keys, orders);
    if OthersFiled(disk, keys) {
      FiledIsSafe(disk, keys, orders);
    } else {
      var k, i :| Unfiled(disk, keys, k, i);
      assert k in keys by { assert Legacy(SessionsOn(disk)[k]); }
      UnfiledLoses(disk, keys, orders, k, i);
    }
  }

  lemma OneSessionIsFiled(disk: Found, keys: seq<Str>, orders: map<Str, seq<int>>)
    requires Plan(disk, keys, orders)
    ensures |keys| <= 1 ==> OthersFiled(disk, keys)
  {
    forall k, i | k in SessionsOn(disk) && i in SessionsOn(disk)[k].embedded ensures k in keys {
      assert Legacy(SessionsOn(disk)[k]);
    }
  }
}
