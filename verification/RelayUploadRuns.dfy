/** Chunked uploads over whole runs of the relay. */
module RelayUploadRuns {
  import opened JsText
  import opened RelayTypes
  import opened RelayUploads
  import opened RelayMachine

  // ----- sessions of reachable states -----

  /** Indexes in range, and a chunk count within the limit. */
  ghost predicate SoundSessions(f: Files) {
    SessionsInRange(f) && forall k :: k in f.uploads ==> 0 < f.uploads[k].meta.totalChunks <= MAX_CHUNKS
  }

  lemma {:induction false} ReachableSessions(c: Config, run: seq<Entry>)
    ensures SoundSessions(After(c, EMPTY, run).files)
  {
    if run != [] {
      ReachableSessions(c, run[..|run| - 1]);
      StepKeepsSessions(c, After(c, EMPTY, run[..|run| - 1]), run[|run| - 1]);
    }
  }

  lemma StepKeepsSessions(c: Config, s: State, entry: Entry)
    requires SoundSessions(s.files)
    ensures SoundSessions(StepFiles(c, s, entry))
  {
    match entry.event
    case UploadChunk(req) => ChunkKeepsRange(s.files, req, entry.now);
    case _ =>
  }

  // ----- what a run does to one chunk of one session -----

  datatype ChunkOutcome = Wrote(bytes: Bytes) | Ended | Untouched

  function ChunkAt(f: Files, key: Str, i: int): Option<Bytes> {
    if key in f.uploads && i in f.uploads[key].chunks then Some(f.uploads[key].chunks[i]) else None
  }

  /** An accepted chunk request writes its bytes; completion and expiry end the session. */
  function ChunkOutcomeOf(c: Config, s: State, entry: Entry, key: Str, i: int): ChunkOutcome {
    if entry.event.UploadChunk? && KeyOf(entry.event.chunk.meta) == key && entry.event.chunk.chunkIndex == i &&
       TakesChunk(s.files, entry.event.chunk)
    then Wrote(entry.event.chunk.payload)
    else if entry.event.CompleteUpload? && KeyOf(entry.event.complete.meta) == key &&
            !CompleteReply(s.files, c, entry.event.complete).Failed?
    then Ended
    else if entry.event.Sweep? && key in s.files.uploads &&
            s.files.uploads[key].insertedAtMs < entry.now - c.uploadTtlSeconds * 1000
    then Ended
    else Untouched
  }

  function ObserveChunk(bytes: Option<Bytes>, o: ChunkOutcome): Option<Bytes> {
    match o
    case Wrote(b) => Some(b)
    case Ended => None
    case Untouched => bytes
  }

  lemma ChunkStep(c: Config, s: State, entry: Entry, key: Str, i: int)
    ensures ChunkAt(StepFiles(c, s, entry), key, i) ==
      ObserveChunk(ChunkAt(s.files, key, i), ChunkOutcomeOf(c, s, entry, key, i))
  {
  }

  function ChunkLog(c: Config, run: seq<Entry>, key: Str, i: int): (log: seq<ChunkOutcome>)
    ensures |log| == |run|
  {
    if run == [] then [] else
      var n := |run| - 1;
      ChunkLog(c, run[..n], key, i) + [ChunkOutcomeOf(c, After(c, EMPTY, run[..n]), run[n], key, i)]
  }

  /** Entry n wrote the bytes and nothing later touched that chunk or ended the session. */
  ghost predicate LastWrite(log: seq<ChunkOutcome>, n: nat, bytes: Bytes) {
    n < |log| && log[n] == Wrote(bytes) && forall m :: n < m < |log| ==> log[m].Untouched?
  }

  ghost predicate WrittenLast(c: Config, run: seq<Entry>, key: Str, i: int, bytes: Bytes) {
    exists n :: LastWrite(ChunkLog(c, run, key, i), n, bytes)
  }

  lemma LastWriteStep(log: seq<ChunkOutcome>, o: ChunkOutcome, bytes: Bytes)
    ensures (exists n :: LastWrite(log + [o], n, bytes)) <==>
      o == Wrote(bytes) || (o.Untouched? && exists n :: LastWrite(log, n, bytes))
  {
    if n: nat :| LastWrite(log + [o], n, bytes) {
      if n < |log| {
        assert (log + [o])[|log|] == o;
        forall m | n < m < |log| ensures log[m].Untouched? { assert (log + [o])[m] == log[m]; }
        assert LastWrite(log, n, bytes);
      }
    }
    if o == Wrote(bytes) { assert LastWrite(log + [o], |log|, bytes); }
    if o.Untouched? && exists n :: LastWrite(log, n, bytes) {
      var n: nat :| LastWrite(log, n, bytes);
      assert LastWrite(log + [o], n, bytes);
    }
  }

  lemma CompletionOfParts(c: Config, f: Files, req: CompleteRequest, now: int, parts: seq<Bytes>)
    requires SoundSessions(f) && KeyOf(req.meta) in f.uploads
    requires var u := f.uploads[KeyOf(req.meta)];
      u.meta.totalChunks == req.meta.totalChunks == |parts| == |u.chunks| &&
      forall i :: 0 <= i < |parts| ==> i in u.chunks && u.chunks[i] == parts[i]
    ensures var single := Completed(req, Concat(parts));
      CompleteReply(f, c, req) == SingleShotReply(f, c, single) &&
      Complete(f, c, req, now).blobs == SingleShot(f, c, single, now).blobs
  {
    var u := f.uploads[KeyOf(req.meta)];
    AssembleIsConcat(u.chunks, parts);
    assert SessionsInRange(f) && 0 < u.meta.totalChunks <= MAX_CHUNKS;
    CompleteIsSingleShot(f, c, req, now);
  }

  /** Buffer.concat. */
  function Concat(parts: seq<Bytes>): Bytes {
    if parts == [] then [] else parts[0] + Concat(parts[1..])
  }

  lemma {:induction false} ConcatAppend(parts: seq<Bytes>, last: Bytes)
    ensures Concat(parts + [last]) == Concat(parts) + last
  {
    if parts == [] {
      assert Concat([last][1..]) == [];
    } else {
      ConcatAppend(parts[1..], last);
      assert (parts + [last])[1..] == parts[1..] + [last];
    }
  }

  lemma {:induction false} AssembleIsConcat(chunks: map<int, Bytes>, parts: seq<Bytes>)
    requires forall i :: 0 <= i < |parts| ==> i in chunks && chunks[i] == parts[i]
    ensures HasAll(chunks, |parts|) && Assemble(chunks, |parts|) == Concat(parts)
  {
    if parts != [] {
      var n := |parts| - 1;
      AssembleIsConcat(chunks, parts[..n]);
      ConcatAppend(parts[..n], parts[n]);
      assert parts[..n] + [parts[n]] == parts;
    }
  }

  // ----- the life of a blob -----

  /** The step stores the blob under an id that was free. */
  predicate Creates(c: Config, s: State, entry: Entry, b: Blob) {
    b.id !in s.files.blobs &&
    match entry.event
    case UploadBlob(req) => req == b && SingleShotReply(s.files, c, req) == Created
    case CompleteUpload(req) =>
      CompleteReply(s.files, c, req) == Created &&
      b == Completed(req, Assemble(s.files.uploads[KeyOf(req.meta)].chunks, req.meta.totalChunks))
    case _ => false
  }

  /** The blob is kept with the time it was stored. */
  predicate Kept(s: State, b: Blob, at: int) {
    b.id in s.files.blobs && s.files.blobs[b.id] == StoredBlob(b, at)
  }

  lemma BlobStep(c: Config, s: State, s': State, entry: Entry, b: Blob, at: int)
    requires s' == Step(c, s, entry) && Kept(s, b, at) && entry.now as real < at as real + b.ttl * 1000.0
    ensures Kept(s', b, at)
  {
  }

  lemma CreatesStores(c: Config, s: State, s': State, entry: Entry, b: Blob)
    requires s' == Step(c, s, entry) && Creates(c, s, entry, b)
    ensures Kept(s', b, entry.now)
  {
  }
}
