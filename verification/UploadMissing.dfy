/** Crashes of an upload store whose index names chunks that have no file, as it may after a startup that
    could not load them. */
module UploadMissing {
  import opened JsText
  import opened RelayUploads
  import opened FileSystem
  import opened UploadStorage
  import opened UploadCrashes

  type Docs = map<Str, SessionDoc>

  /** While chunk files are written the index stays. */
  lemma ListedIndexFound(fs: UploadFs, docs: Docs, m: Uploads, after: UploadFs, disk: Found)
    requires IndexLists(fs, docs, m) && Slot(after, Index) == Slot(fs, Index) && Survives(after, disk)
    ensures SessionsOn(disk) == docs
  {
    assert Possible(after, Index, disk);
  }

  lemma MissingStaysOut(fs: UploadFs, docs: Docs, m: Uploads, k: Str, i: int, bytes: Bytes, t: nat, k': Str, i': int)
    requires IndexLists(fs, docs, m) && Missing(docs, m, k', i') && (k', i') != (k, i)
    ensures Slot(WritingChunk(fs, k, i, bytes, t), Chunk(k', i')) == [Absent]
  {
    ReplaceKeepsOthers(fs, ChunkTemporary(k, i), Chunk(k, i), Payload(bytes), SessionDirectory(fs, k, i), t,
                       Chunk(k', i'));
  }

  lemma AbsentIsOut(fs: UploadFs, n: Name, disk: Found)
    requires Slot(fs, n) == [Absent] && Survives(fs, disk)
    ensures n !in disk
  {
    assert Possible(fs, n, disk);
  }

  /** What is found beside the chunk that is being written. */
  lemma OthersFound(fs: UploadFs, docs: Docs, m: Uploads, k: Str, i: int, bytes: Bytes, t: nat, disk: Found)
    requires ChunksSolid(fs, m) && IndexLists(fs, docs, m) && Survives(WritingChunk(fs, k, i, bytes, t), disk)
    ensures SessionsOn(disk) == docs
    ensures forall k', i' :: k' in m && i' in m[k'].chunks && (k', i') != (k, i) ==>
              Chunk(k', i') in disk && disk[Chunk(k', i')] == Whole(Payload(m[k'].chunks[i']))
    ensures forall k', i' :: Missing(docs, m, k', i') && (k', i') != (k, i) ==> Chunk(k', i') !in disk
  {
    var after := WritingChunk(fs, k, i, bytes, t);
    WritingKeepsGood(fs, m, k, i, bytes, t);
    ListedIndexFound(fs, docs, m, after, disk);
    forall k', i' | k' in m && i' in m[k'].chunks && (k', i') != (k, i)
      ensures Chunk(k', i') in disk && disk[Chunk(k', i')] == Whole(Payload(m[k'].chunks[i']))
    {
      SolidIsFound(after, Chunk(k', i'), Payload(m[k'].chunks[i']), disk);
    }
    forall k', i' | Missing(docs, m, k', i') && (k', i') != (k, i) ensures Chunk(k', i') !in disk {
      MissingStaysOut(fs, docs, m, k, i, bytes, t, k', i');
      AbsentIsOut(after, Chunk(k', i'), disk);
    }
  }

  /** The chunk that was missing is still missing, or there. */
  lemma MissingChunkCrash(fs: UploadFs, docs: Docs, m: Uploads, k: Str, i: int, bytes: Bytes, t: nat, disk: Found)
    requires IndexLists(fs, docs, m) && Missing(docs, m, k, i) && t <= REPLACE_STEPS
    requires Survives(WritingChunk(fs, k, i, bytes, t), disk)
    ensures Chunk(k, i) in disk ==> disk[Chunk(k, i)] == Whole(Payload(bytes))
  {
    ReplaceTarget(fs, ChunkTemporary(k, i), Chunk(k, i), Payload(bytes), SessionDirectory(fs, k, i), t);
    assert Possible(WritingChunk(fs, k, i, bytes, t), Chunk(k, i), disk);
  }

  /** A crash while a chunk file is written: the sessions before, or those after if the chunk was named. */
  lemma ChunkFileLoose(fs: UploadFs, docs: Docs, m: Uploads, k: Str, session: Upload, i: int, bytes: Bytes, t: nat,
                       disk: Found)
    requires ChunksSolid(fs, m) && IndexLists(fs, docs, m) && Continues(m, k, session) && t <= REPLACE_STEPS
    requires Survives(WritingChunk(fs, k, i, bytes, t), disk)
    ensures Reload(disk) == m || Reload(disk) == WithChunk(m, k, session, i, bytes)
    ensures LooseDisk(disk)
  {
    OthersFound(fs, docs, m, k, i, bytes, t, disk);
    if k in m && i in m[k].chunks {
      NamedChunkCrash(fs, m, k, i, bytes, t, disk);
      NamedAgain(docs, m, k, i, disk[Chunk(k, i)].doc.bytes);
      SameIndex(m, k, i, disk[Chunk(k, i)].doc.bytes);
      LooseFound(disk, WithChunk(m, k, m[k], i, disk[Chunk(k, i)].doc.bytes));
    } else if Missing(docs, m, k, i) && Chunk(k, i) in disk {
      MissingChunkCrash(fs, docs, m, k, i, bytes, t, disk);
      NamedAgain(docs, m, k, i, bytes);
      LooseFound(disk, WithChunk(m, k, m[k], i, bytes));
    } else {
      LooseFound(disk, m);
    }
  }

  /** A named chunk that arrives leaves the index fitting, and no new chunk missing. */
  lemma NamedAgain(docs: Docs, m: Uploads, k: Str, i: int, bytes: Bytes)
    requires Names(docs, m) && k in m && i in docs[k].indexes
    ensures var m' := WithChunk(m, k, m[k], i, bytes);
      Names(docs, m') && forall k', i' :: Missing(docs, m', k', i') <==> Missing(docs, m, k', i') && (k', i') != (k, i)
  {
    var m' := WithChunk(m, k, m[k], i, bytes);
    forall k' | k' in m' ensures NamesSession(docs[k'], m'[k']) { assert NamesSession(docs[k'], m[k']); }
  }

  lemma ListedChoice(fs: UploadFs, docs: Docs, m: Uploads, before: UploadFs, m': Uploads, t: nat, disk: Found)
    requires IndexLists(before, docs, m) && Slot(fs, Index) == Slot(before, Index) && t <= REPLACE_STEPS
    requires Survives(SavingIndex(fs, m', t), disk)
    ensures SessionsOn(disk) == docs || SessionsOn(disk) == Encode(m').sessions
  {
    SavingIndexSlots(fs, m', t, Index);
    assert Possible(SavingIndex(fs, m', t), Index, disk);
  }

  /** The new index embeds nothing and names only what is there. */
  lemma NewIndexIsLoose(disk: Found, m: Uploads)
    requires SessionsOn(disk) == Encode(m).sessions && NamedChunksComplete(disk)
    ensures LooseDisk(disk)
  {
  }

  /** A crash while the index is saved after the chunk. */
  lemma ChunkIndexLoose(fs: UploadFs, docs: Docs, m: Uploads, k: Str, session: Upload, i: int, bytes: Bytes, t: nat,
                        disk: Found)
    requires ChunksSolid(fs, m) && IndexLists(fs, docs, m) && Continues(m, k, session) && t <= REPLACE_STEPS
    requires Survives(SavingIndex(WritingChunk(fs, k, i, bytes, REPLACE_STEPS), WithChunk(m, k, session, i, bytes), t),
                      disk)
    ensures Reload(disk) == m || Reload(disk) == WithChunk(m, k, session, i, bytes)
    ensures LooseDisk(disk)
  {
    var m' := WithChunk(m, k, session, i, bytes);
    var fs1 := WritingChunk(fs, k, i, bytes, REPLACE_STEPS);
    ChunkWritten(fs, m, k, session, i, bytes);
    SavingKeepsChunks(fs1, m', m', t);
    ChunksFound(SavingIndex(fs1, m', t), m', disk);
    ListedChoice(fs1, docs, m, fs, m', t, disk);
    if SessionsOn(disk) == Encode(m').sessions {
      FoundReloads(disk, m');
      NewIndexIsLoose(disk, m');
    } else {
      forall k', i' | Missing(docs, m, k', i') && (k', i') != (k, i) ensures Chunk(k', i') !in disk {
        MissingStaysOut(fs, docs, m, k, i, bytes, REPLACE_STEPS, k', i');
        SavingIndexSlots(fs1, m', t, Chunk(k', i'));
        AbsentIsOut(SavingIndex(fs1, m', t), Chunk(k', i'), disk);
      }
      if k in m && i in docs[k].indexes {
        NamedAgain(docs, m, k, i, bytes);
        LooseFound(disk, m');
      } else {
        if k in m { assert NamesSession(docs[k], m[k]); }
        LooseFound(disk, m);
      }
    }
  }

  /** A crash while the index is saved without a session. */
  lemma DeleteIndexLoose(fs: UploadFs, docs: Docs, m: Uploads, k: Str, t: nat, disk: Found)
    requires ChunksSolid(fs, m) && IndexLists(fs, docs, m) && t <= REPLACE_STEPS
    requires Survives(SavingIndex(fs, m - {k}, t), disk)
    ensures Reload(disk) == m || Reload(disk) == m - {k}
    ensures LooseDisk(disk)
  {
    SavingKeepsChunks(fs, m, m - {k}, t);
    ChunksFound(SavingIndex(fs, m - {k}, t), m, disk);
    ListedChoice(fs, docs, m, fs, m - {k}, t, disk);
    if SessionsOn(disk) == Encode(m - {k}).sessions {
      FoundReloads(disk, m - {k});
      NewIndexIsLoose(disk, m - {k});
    } else {
      forall k', i' | Missing(docs, m, k', i') ensures Chunk(k', i') !in disk {
        SavingIndexSlots(fs, m - {k}, t, Chunk(k', i'));
        AbsentIsOut(SavingIndex(fs, m - {k}, t), Chunk(k', i'), disk);
      }
      LooseFound(disk, m);
    }
  }
}
