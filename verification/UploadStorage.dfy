/** The upload store on disk: an index snapshot that names the chunks of every session, and one file
    per chunk. A chunk is written to its file before the index that names it. */
module UploadStorage {
  import opened JsText
  import opened RelayUploads
  import opened FileSystem

  /** The directory of a session is named by a hash of its key; the key stands for the hash. */
  datatype Name = Index | IndexTemporary | Chunk(key: Str, i: int) | ChunkTemporary(key: Str, i: int)

  /** A session in the snapshot: the indexes of chunks kept in files and, in snapshots written before
      version 1.7.7, chunks embedded in the snapshot itself. */
  datatype SessionDoc = SessionDoc(meta: Meta, insertedAtMs: int, indexes: set<int>, embedded: map<int, Bytes>)

  datatype Doc = Sessions(sessions: map<Str, SessionDoc>) | Payload(bytes: Bytes)

  type UploadFs = Fs<Name, Doc>
  type Found = Disk<Name, Doc>
  type Uploads = map<Str, Upload>

  function Encode(m: Uploads): Doc {
    Sessions(map k | k in m :: SessionDoc(m[k].meta, m[k].insertedAtMs, m[k].chunks.Keys, map[]))
  }

  /** Reading a chunk file yields whatever bytes it has; those of a torn file are unknown. */
  function BytesIn(content: Content<Doc>): Bytes {
    if content.Whole? && content.doc.Payload? then content.doc.bytes else []
  }

  /** Chunks whose file is missing are skipped. */
  function LoadChunks(disk: Found, key: Str, d: SessionDoc): map<int, Bytes> {
    (map i | i in d.indexes && Chunk(key, i) in disk :: BytesIn(disk[Chunk(key, i)])) + d.embedded
  }

  function SessionsOn(disk: Found): map<Str, SessionDoc> {
    if Index in disk && disk[Index].Whole? && disk[Index].doc.Sessions? then disk[Index].doc.sessions else map[]
  }

  function Reload(disk: Found): Uploads {
    var docs := SessionsOn(disk);
    map k | k in docs :: Upload(docs[k].meta, LoadChunks(disk, k, docs[k]), docs[k].insertedAtMs)
  }

  /** What is loaded for a session in the snapshot: an embedded chunk as it is, the others from their files, as
      far as these exist; sessions that are not in it are not loaded. */
  lemma ReloadReads(disk: Found, sessions: map<Str, SessionDoc>, k: Str, i: int)
    requires Index in disk && disk[Index] == Whole(Sessions(sessions))
    ensures k in Reload(disk) <==> k in sessions
    ensures k in sessions ==>
      var d, loaded := sessions[k], Reload(disk)[k];
      loaded.meta == d.meta && loaded.insertedAtMs == d.insertedAtMs &&
      (i in loaded.chunks <==> i in d.embedded || (i in d.indexes && Chunk(k, i) in disk)) &&
      (i in d.embedded ==> loaded.chunks[i] == d.embedded[i]) &&
      (i !in d.embedded && ChunkComplete(disk, k, i) && i in d.indexes ==>
        loaded.chunks[i] == disk[Chunk(k, i)].doc.bytes)
  {
  }

  /** Without a readable snapshot there are no sessions. */
  lemma ReloadsNothing(disk: Found)
    requires Index in disk ==> disk[Index].Torn?
    ensures Reload(disk) == map[]
  {
  }

  /** Every chunk the snapshot names has a complete file. */
  ghost predicate NamedChunksComplete(disk: Found) {
    var docs := SessionsOn(disk);
    forall k, i :: k in docs && i in docs[k].indexes ==> ChunkComplete(disk, k, i)
  }

  ghost predicate ChunkComplete(disk: Found, k: Str, i: int) {
    Chunk(k, i) in disk && disk[Chunk(k, i)].Whole? && disk[Chunk(k, i)].doc.Payload?
  }

  // ----- settled states -----

  /** The name is durable with exactly this content. */
  ghost predicate Solid(fs: UploadFs, n: Name, doc: Doc) {
    Slot(fs, n) == [File(Whole(doc), true)]
  }

  lemma SolidIsFound(fs: UploadFs, n: Name, doc: Doc, disk: Found)
    requires Solid(fs, n, doc) && Survives(fs, disk)
    ensures n in disk && disk[n] == Whole(doc)
  {
    assert Possible(fs, n, disk);
  }

  ghost predicate ChunksSolid(fs: UploadFs, m: Uploads) {
    forall k, i :: k in m && i in m[k].chunks ==> Solid(fs, Chunk(k, i), Payload(m[k].chunks[i]))
  }

  /** The entry is read as a snapshot without sessions: it is missing or not a snapshot at all. */
  ghost predicate ReadsEmpty(e: Entry<Doc>) {
    e.File? ==> e.synced && !(e.content.Whole? && e.content.doc.Sessions?)
  }

  ghost predicate NoIndex(fs: UploadFs) {
    |Slot(fs, Index)| == 1 && ReadsEmpty(Slot(fs, Index)[0])
  }

  /** The index on disk is that of the map. */
  ghost predicate IndexIs(fs: UploadFs, m: Uploads) {
    Solid(fs, Index, Encode(m)) || (NoIndex(fs) && m == map[])
  }

  /** Nothing in flight: the index names exactly the chunks in memory, and each has its file. */
  ghost predicate Good(fs: UploadFs, m: Uploads) {
    IndexIs(fs, m) && ChunksSolid(fs, m)
  }

  /** What the snapshot and the chunk files of a map reload to. */
  lemma FoundReloads(disk: Found, m: Uploads)
    requires SessionsOn(disk) == Encode(m).sessions
    requires forall k, i :: k in m && i in m[k].chunks ==>
      Chunk(k, i) in disk && disk[Chunk(k, i)] == Whole(Payload(m[k].chunks[i]))
    ensures Reload(disk) == m && NamedChunksComplete(disk)
  {
    var docs := SessionsOn(disk);
    forall k | k in m ensures LoadChunks(disk, k, docs[k]) == m[k].chunks {
      forall i | i in m[k].chunks ensures BytesIn(disk[Chunk(k, i)]) == m[k].chunks[i] {}
    }
    forall k | k in m ensures Reload(disk)[k] == m[k] {}
  }

  lemma GoodReloads(fs: UploadFs, m: Uploads, disk: Found)
    requires Good(fs, m) && Survives(fs, disk)
    ensures Reload(disk) == m && NamedChunksComplete(disk)
  {
    if Solid(fs, Index, Encode(m)) {
      SolidIsFound(fs, Index, Encode(m), disk);
    } else {
      assert Possible(fs, Index, disk);
    }
    forall k, i | k in m && i in m[k].chunks
      ensures Chunk(k, i) in disk && disk[Chunk(k, i)] == Whole(Payload(m[k].chunks[i]))
    {
      SolidIsFound(fs, Chunk(k, i), Payload(m[k].chunks[i]), disk);
    }
    FoundReloads(disk, m);
  }

  /** A restarted process starts from a settled state with what it reloaded. */
  lemma BootIsGood(disk: Found)
    requires NamedChunksComplete(disk)
    requires forall k :: k in SessionsOn(disk) ==> SessionsOn(disk)[k].embedded == map[]
    ensures Good(Boot(disk), Reload(disk))
  {
    var docs, m := SessionsOn(disk), Reload(disk);
    forall k | k in docs ensures docs[k] == SessionDoc(m[k].meta, m[k].insertedAtMs, m[k].chunks.Keys, map[]) {
      assert forall i :: i in docs[k].indexes ==> ChunkComplete(disk, k, i);
      assert m[k].chunks.Keys == docs[k].indexes;
    }
    assert Encode(m).sessions == docs;
    forall k, i | k in m && i in m[k].chunks ensures Solid(Boot(disk), Chunk(k, i), Payload(m[k].chunks[i])) {
      assert ChunkComplete(disk, k, i);
    }
  }

  // ----- indexes that name missing files -----

  ghost predicate NamesSession(d: SessionDoc, u: Upload) {
    d.meta == u.meta && d.insertedAtMs == u.insertedAtMs && d.embedded == map[] && u.chunks.Keys <= d.indexes
  }

  /** The sessions of the snapshot are those of the map, and name its chunks, perhaps among others. */
  ghost predicate Names(docs: map<Str, SessionDoc>, m: Uploads) {
    docs.Keys == m.Keys && forall k :: k in m ==> NamesSession(docs[k], m[k])
  }

  /** A chunk that the snapshot names and the map does not have. */
  ghost predicate Missing(docs: map<Str, SessionDoc>, m: Uploads, k: Str, i: int) {
    k in docs && k in m && i in docs[k].indexes && i !in m[k].chunks
  }

  /** These are the sessions of the index on disk, and the files of the missing chunks are not there. */
  ghost predicate IndexLists(fs: UploadFs, docs: map<Str, SessionDoc>, m: Uploads) {
    (Solid(fs, Index, Sessions(docs)) || (NoIndex(fs) && docs == map[])) && Names(docs, m) &&
    forall k, i :: Missing(docs, m, k, i) ==> Slot(fs, Chunk(k, i)) == [Absent]
  }

  /** Nothing in flight, and every chunk in memory has its file; the index may also name chunks that have
      none. */
  ghost predicate Loose(fs: UploadFs, m: Uploads) {
    ChunksSolid(fs, m) && exists docs :: IndexLists(fs, docs, m)
  }

  lemma GoodIsLoose(fs: UploadFs, m: Uploads)
    requires Good(fs, m)
    ensures Loose(fs, m)
  {
    assert IndexLists(fs, Encode(m).sessions, m);
  }

  /** Nothing is embedded, and every chunk file that is named and there is complete. */
  ghost predicate LooseDisk(disk: Found) {
    var docs := SessionsOn(disk);
    (forall k :: k in docs ==> docs[k].embedded == map[]) && PresentChunksComplete(disk)
  }

  ghost predicate PresentChunksComplete(disk: Found) {
    var docs := SessionsOn(disk);
    forall k, i :: k in docs && i in docs[k].indexes && Chunk(k, i) in disk ==> ChunkComplete(disk, k, i)
  }

  lemma LooseFound(disk: Found, m: Uploads)
    requires Names(SessionsOn(disk), m)
    requires forall k, i :: k in m && i in m[k].chunks ==>
      Chunk(k, i) in disk && disk[Chunk(k, i)] == Whole(Payload(m[k].chunks[i]))
    requires forall k, i :: Missing(SessionsOn(disk), m, k, i) ==> Chunk(k, i) !in disk
    ensures Reload(disk) == m && LooseDisk(disk)
  {
    var docs := SessionsOn(disk);
    forall k | k in m ensures LoadChunks(disk, k, docs[k]) == m[k].chunks {
      assert NamesSession(docs[k], m[k]);
      forall i | i in docs[k].indexes ensures Chunk(k, i) in disk <==> i in m[k].chunks {
        if i !in m[k].chunks { assert Missing(docs, m, k, i); }
      }
      forall i | i in m[k].chunks ensures BytesIn(disk[Chunk(k, i)]) == m[k].chunks[i] {}
    }
    forall k | k in m ensures Reload(disk)[k] == m[k] { assert NamesSession(docs[k], m[k]); }
    forall k, i | k in docs && i in docs[k].indexes && Chunk(k, i) in disk ensures ChunkComplete(disk, k, i) {
      assert !Missing(docs, m, k, i);
    }
    forall k | k in docs ensures docs[k].embedded == map[] { assert NamesSession(docs[k], m[k]); }
  }

  /** A process started on such a disk has what it could load; the next save of the index settles it. */
  lemma LooseBoots(disk: Found)
    requires LooseDisk(disk)
    ensures Loose(Boot(disk), Reload(disk))
  {
    var docs, m, fs := SessionsOn(disk), Reload(disk), Boot(disk);
    forall k, i | k in m && i in m[k].chunks ensures Solid(fs, Chunk(k, i), Payload(m[k].chunks[i])) {
      assert ChunkComplete(disk, k, i);
    }
    forall k | k in m ensures NamesSession(docs[k], m[k]) {}
    forall k, i | Missing(docs, m, k, i) ensures Slot(fs, Chunk(k, i)) == [Absent] {}
    assert IndexLists(fs, docs, m);
  }
}
