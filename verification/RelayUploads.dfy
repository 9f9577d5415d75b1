/** Blobs of the relay: single-shot upload, chunked upload sessions and their completion. */
module RelayUploads {
  import opened JsText
  import opened RelayTypes

  datatype Blob = Blob(
    id: Str, from: Str, groupId: Str, fileName: Str, mimeType: Option<Str>, payload: Bytes,
    ts: real, ttl: real, sig: Str, signingPub: Str)

  datatype StoredBlob = StoredBlob(blob: Blob, insertedAtMs: int)

  datatype Meta = Meta(
    id: Str, from: Str, groupId: Str, fileName: Str, mimeType: Option<Str>, ts: real, ttl: real, totalChunks: int)

  datatype Upload = Upload(meta: Meta, chunks: map<int, Bytes>, insertedAtMs: int)

  datatype Files = Files(blobs: map<Str, StoredBlob>, uploads: map<Str, Upload>)

  /** A single-shot request is a blob: its payload is the decoded body field. */
  type BlobRequest = Blob

  datatype ChunkRequest = ChunkRequest(meta: Meta, chunkIndex: int, payload: Bytes)

  datatype CompleteRequest = CompleteRequest(meta: Meta, sig: Str, signingPub: Str)

  datatype BlobReply = Created | Duplicate | ChunkTaken(received: nat) | Failed(status: nat)

  const MAX_CHUNKS := 10000

  function KeyOf(meta: Meta): Str {
    UploadKey(meta.id, meta.from, meta.groupId)
  }

  predicate BlobSigned(c: Config, b: Blob) {
    c.verify(BlobText(b.id, b.from, b.groupId, b.fileName,
                      Trim(if b.mimeType.Some? then b.mimeType.value else []), b.ts, b.ttl, b.payload),
             b.sig, b.signingPub)
  }

  function AddBlob(f: Files, b: Blob, now: int): Files {
    if b.id in f.blobs then f else f.(blobs := f.blobs[b.id := StoredBlob(b, now)])
  }

  // ----- /relay/blob/upload -----

  function SingleShotReply(f: Files, c: Config, b: BlobRequest): BlobReply {
    if !BlobSigned(c, b) then Failed(401) else if b.id in f.blobs then Duplicate else Created
  }

  function SingleShot(f: Files, c: Config, b: BlobRequest, now: int): Files {
    if SingleShotReply(f, c, b).Failed? then f else AddBlob(f, b, now)
  }

  // ----- /relay/blob/upload/chunk -----

  predicate ChunkRange(req: ChunkRequest) {
    0 <= req.chunkIndex < req.meta.totalChunks <= MAX_CHUNKS
  }

  predicate TakesChunk(f: Files, req: ChunkRequest) {
    ChunkRange(req) &&
    (KeyOf(req.meta) in f.uploads ==> f.uploads[KeyOf(req.meta)].meta.totalChunks == req.meta.totalChunks)
  }

  function ChunkReply(f: Files, req: ChunkRequest): BlobReply {
    if !ChunkRange(req) then Failed(400)
    else if !TakesChunk(f, req) then Failed(409)
    else ChunkTaken(|AddChunk(f, req, 0).uploads[KeyOf(req.meta)].chunks|)
  }

  function AddChunk(f: Files, req: ChunkRequest, now: int): Files {
    if !TakesChunk(f, req) then f else
      var key := KeyOf(req.meta);
      var session := if key in f.uploads then f.uploads[key] else Upload(req.meta, map[], now);
      f.(uploads := f.uploads[key := session.(chunks := session.chunks[req.chunkIndex := req.payload])])
  }

  // ----- /relay/blob/upload/complete -----

  predicate HasAll(chunks: map<int, Bytes>, n: int) {
    forall i :: 0 <= i < n ==> i in chunks
  }

  /** Concatenation by index of the first n chunks. */
  function Assemble(chunks: map<int, Bytes>, n: nat): Bytes
    requires HasAll(chunks, n)
  {
    if n == 0 then [] else Assemble(chunks, n - 1) + chunks[n - 1]
  }

  function Completed(req: CompleteRequest, payload: Bytes): Blob {
    Blob(req.meta.id, req.meta.from, req.meta.groupId, req.meta.fileName, req.meta.mimeType, payload,
         req.meta.ts, req.meta.ttl, req.sig, req.signingPub)
  }

  function CompleteReply(f: Files, c: Config, req: CompleteRequest): BlobReply {
    var n, key := req.meta.totalChunks, KeyOf(req.meta);
    if n <= 0 || n > MAX_CHUNKS then Failed(400)
    else if key !in f.uploads then Failed(404)
    else if |f.uploads[key].chunks| != n then Failed(409)
    else if !HasAll(f.uploads[key].chunks, n) then Failed(409)
    else SingleShotReply(f, c, Completed(req, Assemble(f.uploads[key].chunks, n)))
  }

  function Complete(f: Files, c: Config, req: CompleteRequest, now: int): Files {
    if CompleteReply(f, c, req).Failed? then f else
      var key := KeyOf(req.meta);
      AddBlob(f, Completed(req, Assemble(f.uploads[key].chunks, req.meta.totalChunks)), now)
        .(uploads := f.uploads - {key})
  }

  // ----- sweeps -----

  predicate BlobIsDue(b: StoredBlob, now: int) {
    now as real >= b.insertedAtMs as real + b.blob.ttl * 1000.0
  }

  /** pruneBlobs. */
  function SweepBlobs(f: Files, now: int): Files {
    f.(blobs := map id | id in f.blobs && !BlobIsDue(f.blobs[id], now) :: f.blobs[id])
  }

  /** pruneUploads. */
  function SweepUploads(f: Files, c: Config, now: int): Files {
    f.(uploads := map k | k in f.uploads && f.uploads[k].insertedAtMs >= now - c.uploadTtlSeconds * 1000 ::
      f.uploads[k])
  }

  // ----- sessions -----

  /** Every index of a session is below the chunk count the session was opened with. */
  ghost predicate SessionsInRange(f: Files) {
    forall k, i :: k in f.uploads && i in f.uploads[k].chunks ==> 0 <= i < f.uploads[k].meta.totalChunks
  }

  lemma ChunkKeepsRange(f: Files, req: ChunkRequest, now: int)
    requires SessionsInRange(f)
    ensures SessionsInRange(AddChunk(f, req, now))
  {
  }

  /** Pigeonhole: n distinct indexes below n are all of them. */
  lemma {:induction false} FullRange(s: set<int>, n: nat)
    requires forall i :: i in s ==> 0 <= i < n
    ensures |s| <= n
    ensures |s| == n ==> forall i :: 0 <= i < n ==> i in s
  {
    if n == 0 {
      assert forall i :: i !in s;
      assert s == {};
    } else {
      FullRange(s - {n - 1}, n - 1);
      assert s == if n - 1 in s then s - {n - 1} + {n - 1} else s - {n - 1};
    }
  }

  /** When the request repeats the session's chunk count, counting chunks is enough: the branch for
      a missing index cannot be taken. */
  lemma CountImpliesAll(f: Files, key: Str, n: nat)
    requires SessionsInRange(f) && key in f.uploads && f.uploads[key].meta.totalChunks == n
    requires |f.uploads[key].chunks| == n
    ensures HasAll(f.uploads[key].chunks, n)
  {
    FullRange(f.uploads[key].chunks.Keys, n);
  }

  /** With another count the branch is reachable: chunks 0 and 2 of three, completed as two. */
  lemma OtherCountCanMiss(meta: Meta, payload: Bytes, c: Config, sig: Str, pub: Str)
    requires meta.totalChunks == 3
    ensures var start := Files(map[], map[]);
      var one := AddChunk(start, ChunkRequest(meta, 0, payload), 1);
      var two := AddChunk(one, ChunkRequest(meta, 2, payload), 1);
      var key := KeyOf(meta);
      SessionsInRange(two) && |two.uploads[key].chunks| == 2 && !HasAll(two.uploads[key].chunks, 2) &&
      CompleteReply(two, c, CompleteRequest(meta.(totalChunks := 2), sig, pub)) == Failed(409)
  {
    var one := AddChunk(Files(map[], map[]), ChunkRequest(meta, 0, payload), 1);
    var two := AddChunk(one, ChunkRequest(meta, 2, payload), 1);
    assert two.uploads[KeyOf(meta)].chunks == map[0 := payload, 2 := payload];
    assert 1 !in two.uploads[KeyOf(meta)].chunks;
  }

  /** Completing a session answers and stores exactly what a single-shot upload of the assembled
      bytes does, and consumes the session unless refused. */
  lemma CompleteIsSingleShot(f: Files, c: Config, req: CompleteRequest, now: int)
    requires SessionsInRange(f) && KeyOf(req.meta) in f.uploads
    requires var u := f.uploads[KeyOf(req.meta)];
      0 < req.meta.totalChunks <= MAX_CHUNKS && u.meta.totalChunks == req.meta.totalChunks &&
        |u.chunks| == req.meta.totalChunks
    ensures var u := f.uploads[KeyOf(req.meta)];
      HasAll(u.chunks, req.meta.totalChunks) &&
      var single := Completed(req, Assemble(u.chunks, req.meta.totalChunks));
      CompleteReply(f, c, req) == SingleShotReply(f, c, single) &&
      Complete(f, c, req, now).blobs == SingleShot(f, c, single, now).blobs &&
      Complete(f, c, req, now).uploads ==
        if SingleShotReply(f, c, single).Failed? then f.uploads else f.uploads - {KeyOf(req.meta)}
  {
    CountImpliesAll(f, KeyOf(req.meta), req.meta.totalChunks);
  }
}
