/** Crashes of the upload store: while a chunk arrives, while a session is deleted, and while sessions
    of an old snapshot are moved to chunk files at startup. */
module UploadCrashes {
  import opened JsText
  import opened RelayUploads
  import opened FileSystem
  import opened UploadStorage

  /** #writeChunk, first t steps. A chunk file and its temporary share the session's directory. */
  function WritingChunk(fs: UploadFs, k: Str, i: int, bytes: Bytes, t: nat): UploadFs {
    Replacing(fs, ChunkTemporary(k, i), Chunk(k, i), Payload(bytes), SessionDirectory(fs, k, i), t)
  }

  function SessionDirectory(fs: UploadFs, k: Str, i: int): set<Name> {
    (set n | n in fs && (n.Chunk? || n.ChunkTemporary?) && n.key == k) + {Chunk(k, i), ChunkTemporary(k, i)}
  }

  /** #save of the index snapshot, first t steps. */
  function SavingIndex(fs: UploadFs, m: Uploads, t: nat): UploadFs {
    Replacing(fs, IndexTemporary, Index, Encode(m), {Index, IndexTemporary}, t)
  }

  // ----- a chunk arrives -----

  function WithChunk(m: Uploads, k: Str, session: Upload, i: int, bytes: Bytes): Uploads {
    m[k := session.(chunks := session.chunks[i := bytes])]
  }

  /** The handler continues the session in memory, or opens one without chunks. */
  ghost predicate Continues(m: Uploads, k: Str, session: Upload) {
    if k in m then session == m[k] else session.chunks == map[]
  }

  /** Every chunk of the map except possibly one has its file. */
  ghost predicate ChunksSolidBut(fs: UploadFs, m: Uploads, k: Str, i: int) {
    forall k', i' :: k' in m && i' in m[k'].chunks && (k', i') != (k, i) ==>
      Solid(fs, Chunk(k', i'), Payload(m[k'].chunks[i']))
  }

  lemma WritingKeepsGood(fs: UploadFs, m: Uploads, k: Str, i: int, bytes: Bytes, t: nat)
    requires ChunksSolid(fs, m) && |Slot(fs, Index)| == 1
    ensures var after := WritingChunk(fs, k, i, bytes, t);
      Slot(after, Index) == Slot(fs, Index) && ChunksSolidBut(after, m, k, i)
  {
    ReplaceKeepsOthers(fs, ChunkTemporary(k, i), Chunk(k, i), Payload(bytes), SessionDirectory(fs, k, i), t, Index);
    var after := WritingChunk(fs, k, i, bytes, t);
    forall k', i' | k' in m && i' in m[k'].chunks && (k', i') != (k, i)
      ensures Solid(after, Chunk(k', i'), Payload(m[k'].chunks[i']))
    {
      assert Solid(fs, Chunk(k', i'), Payload(m[k'].chunks[i']));
      ReplaceKeepsOthers(fs, ChunkTemporary(k, i), Chunk(k, i), Payload(bytes), SessionDirectory(fs, k, i), t,
        Chunk(k', i'));
    }
  }

  /** While the chunk file is being written the old index is found, with its other chunks. */
  lemma OldIndexFound(fs: UploadFs, m: Uploads, k: Str, i: int, bytes: Bytes, t: nat, disk: Found)
    requires Good(fs, m) && Survives(WritingChunk(fs, k, i, bytes, t), disk)
    ensures SessionsOn(disk) == Encode(m).sessions
    ensures forall k', i' :: k' in m && i' in m[k'].chunks && (k', i') != (k, i) ==>
              Chunk(k', i') in disk && disk[Chunk(k', i')] == Whole(Payload(m[k'].chunks[i']))
  {
    var after := WritingChunk(fs, k, i, bytes, t);
    WritingKeepsGood(fs, m, k, i, bytes, t);
    assert Possible(after, Index, disk);
    forall k', i' | k' in m && i' in m[k'].chunks && (k', i') != (k, i)
      ensures Chunk(k', i') in disk && disk[Chunk(k', i')] == Whole(Payload(m[k'].chunks[i']))
    {
      SolidIsFound(after, Chunk(k', i'), Payload(m[k'].chunks[i']), disk);
    }
  }

  /** Replacing the bytes of a chunk that is already named does not change the index. */
  lemma SameIndex(m: Uploads, k: Str, i: int, bytes: Bytes)
    requires k in m && i in m[k].chunks
    ensures Encode(WithChunk(m, k, m[k], i, bytes)) == Encode(m)
    ensures bytes == m[k].chunks[i] ==> WithChunk(m, k, m[k], i, bytes) == m
  {
    var m' := WithChunk(m, k, m[k], i, bytes);
    assert m'[k].chunks.Keys == m[k].chunks.Keys;
    if bytes == m[k].chunks[i] { assert m'[k].chunks == m[k].chunks; }
  }

  /** So the reloaded sessions are those before or, when the chunk replaces one already named,
      possibly those after. */
  lemma ChunkFileCrash(fs: UploadFs, m: Uploads, k: Str, session: Upload, i: int, bytes: Bytes, t: nat, disk: Found)
    requires Good(fs, m) && Continues(m, k, session) && t <= REPLACE_STEPS
    requires Survives(WritingChunk(fs, k, i, bytes, t), disk)
    ensures Reload(disk) == m || Reload(disk) == WithChunk(m, k, session, i, bytes)
    ensures NamedChunksComplete(disk)
  {
    OldIndexFound(fs, m, k, i, bytes, t, disk);
    if k in m && i in m[k].chunks {
      NamedChunkCrash(fs, m, k, i, bytes, t, disk);
      var b := disk[Chunk(k, i)].doc.bytes;
      SameIndex(m, k, i, b);
      FoundReloads(disk, WithChunk(m, k, m[k], i, b));
    } else {
      FoundReloads(disk, m);
    }
  }

  lemma NamedChunkCrash(fs: UploadFs, m: Uploads, k: Str, i: int, bytes: Bytes, t: nat, disk: Found)
    requires ChunksSolid(fs, m) && k in m && i in m[k].chunks && t <= REPLACE_STEPS
    requires Survives(WritingChunk(fs, k, i, bytes, t), disk)
    ensures Chunk(k, i) in disk &&
      (disk[Chunk(k, i)] == Whole(Payload(m[k].chunks[i])) || disk[Chunk(k, i)] == Whole(Payload(bytes)))
  {
    assert Solid(fs, Chunk(k, i), Payload(m[k].chunks[i]));
    ReplaceTarget(fs, ChunkTemporary(k, i), Chunk(k, i), Payload(bytes), SessionDirectory(fs, k, i), t);
    assert Possible(WritingChunk(fs, k, i, bytes, t), Chunk(k, i), disk);
  }

  /** With all chunk files of the new map in place, an index save reloads the old index or the new. */
  lemma SavingIndexSlots(fs: UploadFs, m: Uploads, t: nat, n: Name)
    requires t <= REPLACE_STEPS && (n == Index || (n != IndexTemporary && |Slot(fs, n)| == 1))
    ensures var s, s' := Slot(fs, n), Slot(SavingIndex(fs, m, t), n);
      s' == if n != Index || t < 5 then s
            else if t == 5 then s + [File(Whole(Encode(m)), true)]
            else [File(Whole(Encode(m)), true)]
  {
    if n == Index {
      ReplaceTarget(fs, IndexTemporary, Index, Encode(m), {Index, IndexTemporary}, t);
    } else {
      ReplaceKeepsOthers(fs, IndexTemporary, Index, Encode(m), {Index, IndexTemporary}, t, n);
    }
  }

  lemma SavingKeepsChunks(fs: UploadFs, m: Uploads, m': Uploads, t: nat)
    requires t <= REPLACE_STEPS && ChunksSolid(fs, m)
    ensures ChunksSolid(SavingIndex(fs, m', t), m)
  {
    forall k, i | k in m && i in m[k].chunks
      ensures Solid(SavingIndex(fs, m', t), Chunk(k, i), Payload(m[k].chunks[i]))
    {
      assert Solid(fs, Chunk(k, i), Payload(m[k].chunks[i]));
      SavingIndexSlots(fs, m', t, Chunk(k, i));
    }
  }

  /** The state after a chunk file has been written: it serves the new map. */
  lemma ChunkWritten(fs: UploadFs, m: Uploads, k: Str, session: Upload, i: int, bytes: Bytes)
    requires ChunksSolid(fs, m) && |Slot(fs, Index)| == 1 && Continues(m, k, session)
    ensures var fs1, m' := WritingChunk(fs, k, i, bytes, REPLACE_STEPS), WithChunk(m, k, session, i, bytes);
      ChunksSolid(fs1, m') && Slot(fs1, Index) == Slot(fs, Index)
  {
    WritingKeepsGood(fs, m, k, i, bytes, REPLACE_STEPS);
    ReplaceTarget(fs, ChunkTemporary(k, i), Chunk(k, i), Payload(bytes), SessionDirectory(fs, k, i), REPLACE_STEPS);
  }

  /** While an index is being saved over another one, one of the two is found. */
  lemma EitherIndex(fs: UploadFs, d: Doc, m: Uploads, t: nat, disk: Found)
    requires Solid(fs, Index, d) && t <= REPLACE_STEPS && Survives(SavingIndex(fs, m, t), disk)
    ensures Index in disk && (disk[Index] == Whole(d) || disk[Index] == Whole(Encode(m)))
  {
    SavingIndexSlots(fs, m, t, Index);
    assert Possible(SavingIndex(fs, m, t), Index, disk);
  }

  lemma FirstIndex(fs: UploadFs, m: Uploads, t: nat, disk: Found)
    requires NoIndex(fs) && t <= REPLACE_STEPS && Survives(SavingIndex(fs, m, t), disk)
    ensures SessionsOn(disk) == map[] || SessionsOn(disk) == Encode(m).sessions
  {
    SavingIndexSlots(fs, m, t, Index);
    assert Possible(SavingIndex(fs, m, t), Index, disk);
  }

  lemma IndexChoice(fs: UploadFs, m: Uploads, m': Uploads, t: nat, disk: Found)
    requires IndexIs(fs, m) && t <= REPLACE_STEPS && Survives(SavingIndex(fs, m', t), disk)
    ensures SessionsOn(disk) == Encode(m).sessions || SessionsOn(disk) == Encode(m').sessions
  {
    if Solid(fs, Index, Encode(m)) { EitherIndex(fs, Encode(m), m', t, disk); } else { FirstIndex(fs, m', t, disk); }
  }

  /** While the new index is being saved every chunk either index names is complete. */
  lemma ChunkIndexCrash(fs: UploadFs, m: Uploads, k: Str, session: Upload, i: int, bytes: Bytes, t: nat, disk: Found)
    requires Good(fs, m) && Continues(m, k, session) && t <= REPLACE_STEPS
    requires Survives(SavingIndex(WritingChunk(fs, k, i, bytes, REPLACE_STEPS), WithChunk(m, k, session, i, bytes), t),
      disk)
    ensures Reload(disk) == m || Reload(disk) == WithChunk(m, k, session, i, bytes)
    ensures NamedChunksComplete(disk)
  {
    var m' := WithChunk(m, k, session, i, bytes);
    var fs1 := WritingChunk(fs, k, i, bytes, REPLACE_STEPS);
    ChunkWritten(fs, m, k, session, i, bytes);
    SavingKeepsChunks(fs1, m', m', t);
    ChunksFound(SavingIndex(fs1, m', t), m', disk);
    IndexChoice(fs1, m, m', t, disk);
    if k in m && i in m[k].chunks { SameIndex(m, k, i, bytes); }
    if SessionsOn(disk) == Encode(m').sessions {
      FoundReloads(disk, m');
    } else {
      FoundReloads(disk, m);
    }
  }

  lemma ChunksFound(fs: UploadFs, m: Uploads, disk: Found)
    requires ChunksSolid(fs, m) && Survives(fs, disk)
    ensures forall k, i :: k in m && i in m[k].chunks ==>
      Chunk(k, i) in disk && disk[Chunk(k, i)] == Whole(Payload(m[k].chunks[i]))
  {
    forall k, i | k in m && i in m[k].chunks
      ensures Chunk(k, i) in disk && disk[Chunk(k, i)] == Whole(Payload(m[k].chunks[i]))
    {
      SolidIsFound(fs, Chunk(k, i), Payload(m[k].chunks[i]), disk);
    }
  }

  /** After both phases the store is settled on the new sessions. */
  lemma ChunkStored(fs: UploadFs, m: Uploads, k: Str, session: Upload, i: int, bytes: Bytes)
    requires ChunksSolid(fs, m) && |Slot(fs, Index)| == 1 && Continues(m, k, session)
    ensures var m' := WithChunk(m, k, session, i, bytes);
      Good(SavingIndex(WritingChunk(fs, k, i, bytes, REPLACE_STEPS), m', REPLACE_STEPS), m')
  {
    var m' := WithChunk(m, k, session, i, bytes);
    var fs1 := WritingChunk(fs, k, i, bytes, REPLACE_STEPS);
    ChunkWritten(fs, m, k, session, i, bytes);
    SavingKeepsChunks(fs1, m', m', REPLACE_STEPS);
    SavingIndexSlots(fs1, m', REPLACE_STEPS, Index);
  }

  // ----- a session is deleted -----

  /** The index is saved without the session first. */
  lemma DeleteIndexCrash(fs: UploadFs, m: Uploads, k: Str, t: nat, disk: Found)
    requires Good(fs, m) && t <= REPLACE_STEPS && Survives(SavingIndex(fs, m - {k}, t), disk)
    ensures Reload(disk) == m || Reload(disk) == m - {k}
    ensures NamedChunksComplete(disk)
  {
    SavingKeepsChunks(fs, m, m - {k}, t);
    ChunksFound(SavingIndex(fs, m - {k}, t), m, disk);
    IndexChoice(fs, m, m - {k}, t, disk);
    if SessionsOn(disk) == Encode(m).sessions {
      FoundReloads(disk, m);
    } else {
      FoundReloads(disk, m - {k});
    }
  }

  /** Then its chunk files go, in any order. */
  function Unlinking(fs: UploadFs, k: Str, files: seq<int>): UploadFs {
    if files == [] then fs else Unlink(Unlinking(fs, k, files[..|files| - 1]), Chunk(k, files[|files| - 1]))
  }

  lemma IndexDroppedIsGood(fs: UploadFs, m: Uploads, k: Str)
    requires ChunksSolid(fs, m)
    ensures Good(SavingIndex(fs, m - {k}, REPLACE_STEPS), m - {k})
  {
    SavingKeepsChunks(fs, m, m - {k}, REPLACE_STEPS);
    SavingIndexSlots(fs, m - {k}, REPLACE_STEPS, Index);
    var fs1 := SavingIndex(fs, m - {k}, REPLACE_STEPS);
    forall k', i | k' in m - {k} && i in m[k'].chunks ensures Solid(fs1, Chunk(k', i), Payload(m[k'].chunks[i])) {}
  }

  /** Removing a file of a session that is not in the map changes nothing the map needs. */
  /** The files are gone, and no others. */
  lemma {:induction false} UnlinkingRemoves(fs: UploadFs, k: Str, files: seq<int>, n: Name)
    ensures Current(Unlinking(fs, k, files), n) ==
      if n.Chunk? && n.key == k && n.i in files then Absent else Current(fs, n)
  {
    if files != [] {
      var last := |files| - 1;
      assert files == files[..last] + [files[last]];
      UnlinkingRemoves(fs, k, files[..last], n);
    }
  }

  lemma AllRemoved(fs: UploadFs, k: Str, files: seq<int>)
    ensures forall i :: i in files ==> Current(Unlinking(fs, k, files), Chunk(k, i)).Absent?
  {
    forall i | i in files ensures Current(Unlinking(fs, k, files), Chunk(k, i)).Absent? {
      UnlinkingRemoves(fs, k, files, Chunk(k, i));
    }
  }

  lemma {:induction false} UnlinkingGood(fs: UploadFs, m: Uploads, k: Str, files: seq<int>)
    requires Good(fs, m) && k !in m
    ensures Good(Unlinking(fs, k, files), m)
  {
    if files != [] {
      var rest := Unlinking(fs, k, files[..|files| - 1]);
      UnlinkingGood(fs, m, k, files[..|files| - 1]);
      forall k', i | k' in m && i in m[k'].chunks
        ensures Solid(Unlink(rest, Chunk(k, files[|files| - 1])), Chunk(k', i), Payload(m[k'].chunks[i]))
      {
        assert Solid(rest, Chunk(k', i), Payload(m[k'].chunks[i]));
      }
    }
  }

  /** Wherever the removal stops, the store is settled on the remaining sessions. */
  lemma DeleteFilesGood(fs: UploadFs, m: Uploads, k: Str, files: seq<int>)
    requires ChunksSolid(fs, m)
    ensures Good(Unlinking(SavingIndex(fs, m - {k}, REPLACE_STEPS), k, files), m - {k})
  {
    IndexDroppedIsGood(fs, m, k);
    UnlinkingGood(SavingIndex(fs, m - {k}, REPLACE_STEPS), m - {k}, k, files);
  }
}
