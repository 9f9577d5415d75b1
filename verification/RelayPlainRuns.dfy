/** The run laws for runs in which every request ran to its end: what the laws across crashes say of them. */
module RelayPlainRuns {
  import opened JsText
  import opened RelayTypes
  import opened RelayGroups
  import opened RelayUploads
  import opened RelayMachine
  import opened RelayGroupLaws
  import opened RelayGroupRuns
  import opened RelayUploadRuns
  import opened RelayCrashRuns
  import opened RelayCrashLaws

  type Entry = RelayMachine.Entry

  function RanTurns(run: seq<Entry>): (turns: seq<Turn>)
    ensures |turns| == |run| && forall i :: 0 <= i < |run| ==> turns[i] == Ran(run[i])
  {
    seq(|run|, i requires 0 <= i < |run| => Ran(run[i]))
  }

  lemma RanPrefix(run: seq<Entry>, n: nat)
    requires n <= |run|
    ensures RanTurns(run)[..n] == RanTurns(run[..n])
  {
  }

  lemma {:induction false} RanIsPossible(c: Config, run: seq<Entry>)
    ensures Possible(c, RanTurns(run)) && AfterTurns(c, RanTurns(run)) == After(c, EMPTY, run)
  {
    if run != [] {
      RanPrefix(run, |run| - 1);
      RanIsPossible(c, run[..|run| - 1]);
    }
  }

  // ----- groups -----

  lemma {:induction false} RanLog(c: Config, run: seq<Entry>, g: Str)
    ensures LogOfTurns(c, RanTurns(run), g) == LogOf(c, run, g)
  {
    if run != [] {
      var n := |run| - 1;
      RanPrefix(run, n);
      RanLog(c, run[..n], g);
      RanIsPossible(c, run[..n]);
      RanOutcome(c, After(c, EMPTY, run[..n]), run[n], g);
      LogOfPrefix(c, run, g);
      LogSplits(LogOf(c, run, g));
    }
  }

  lemma RanOutcome(c: Config, s: State, entry: Entry, g: Str)
    ensures TurnOutcome(c, s, Ran(entry), g) == OutcomeOf(c, s, entry, g)
  {
  }

  lemma LogSplits(log: seq<Outcome>)
    requires log != []
    ensures log == log[..|log| - 1] + [log[|log| - 1]]
  {
  }

  /** Both ways: after any run, a delegated update is accepted exactly when it is proper by itself and
      shows a token of the list its owner published last, the group not having expired since. */
  lemma DelegatedIffPublished(c: Config, run: seq<Entry>, req: MembersRequest, now: int)
    requires Delegated(req)
    ensures UpdateVerdict(c, After(c, EMPTY, run).groups, req, now) == Accepted <==>
      ProperDelegatedRequest(c, req, MembersOf(After(c, EMPTY, run), req.groupId), now) &&
      exists i, tokens :: StandsPublished(c, run, req, i, tokens)
  {
    RanIsPossible(c, run);
    RanLog(c, run, req.groupId);
    DelegatedIffPublishedAcrossCrashes(c, RanTurns(run), req, now);
    forall i, tokens ensures StandsPublished(c, run, req, i, tokens) <==>
                             StandsAcrossCrashes(c, RanTurns(run), req, i, tokens) {}
  }

  /** Revocation over whole runs: a delegated update is accepted only with a token that the last
      published list of the group's present owner holds for that very administrator; since then the
      group has not expired, and the token has not run out. */
  lemma DelegatedOnlyByLastPublication(c: Config, run: seq<Entry>, entry: Entry, g: Str)
    requires AcceptedUpdate(c, After(c, EMPTY, run), entry, g) && Delegated(entry.event.update)
    ensures var req := entry.event.update;
      req.adminDelegation.Some? && req.adminDelegation.value.expiresAtMs >= entry.now as real &&
      exists i, tokens ::
        LastPublication(LogOf(c, run, g), i, req.owner, tokens) &&
        req.from in tokens && tokens[req.from] == TokenOf(req.adminDelegation.value)
  {
    var req := entry.event.update;
    DelegatedIffPublished(c, run, req, entry.now);
    var i, tokens :| StandsPublished(c, run, req, i, tokens);
    assert LastPublication(LogOf(c, run, g), i, req.owner, tokens);
  }

  /** Removing an administrator takes effect at once and for good: after a published list without
      the token, a request that shows it is refused until another list is published. */
  lemma RevokedStaysRevoked(c: Config, run: seq<Entry>, entry: Entry, g: Str, i: nat)
    requires i < |run| && LogOf(c, run, g)[i].Published?
    requires forall j :: i < j < |run| ==> !LogOf(c, run, g)[j].Published?
    requires entry.event.Update? && Delegated(entry.event.update) && entry.event.update.adminDelegation.Some?
    requires var req, tokens := entry.event.update, LogOf(c, run, g)[i].tokens;
      !(req.from in tokens && tokens[req.from] == TokenOf(req.adminDelegation.value))
    ensures !AcceptedUpdate(c, After(c, EMPTY, run), entry, g)
  {
    if AcceptedUpdate(c, After(c, EMPTY, run), entry, g) {
      DelegatedOnlyByLastPublication(c, run, entry, g);
      var p, tokens :| LastPublication(LogOf(c, run, g), p, entry.event.update.owner, tokens) &&
        entry.event.update.from in tokens &&
        tokens[entry.event.update.from] == TokenOf(entry.event.update.adminDelegation.value);
      LastPublicationUnique(LogOf(c, run, g), p, entry.event.update.owner, tokens, i);
    }
  }

  // ----- chunks -----

  lemma {:induction false} RanChunkLog(c: Config, run: seq<Entry>, key: Str, i: int)
    ensures ChunkLogOfTurns(c, RanTurns(run), key, i) == ChunkLog(c, run, key, i)
  {
    if run != [] {
      var n := |run| - 1;
      RanPrefix(run, n);
      RanChunkLog(c, run[..n], key, i);
      RanIsPossible(c, run[..n]);
    }
  }

  /** A chunk of a session holds some bytes exactly when the last accepted request for that index in
      that session wrote them: repeats replace, and the order of arrival is forgotten. */
  lemma ChunkHoldsLastWrite(c: Config, run: seq<Entry>, key: Str, i: int, bytes: Bytes)
    ensures ChunkAt(After(c, EMPTY, run).files, key, i) == Some(bytes) <==> WrittenLast(c, run, key, i, bytes)
  {
    RanIsPossible(c, run);
    RanChunkLog(c, run, key, i);
    ChunkHoldsLastWriteAcrossCrashes(c, RanTurns(run), key, i, bytes);
  }

  /** Completion after any run: it answers and stores as a single-shot upload of the concatenation,
      by index, of the bytes last written to each chunk. */
  lemma CompletionOfLastWrites(c: Config, run: seq<Entry>, req: CompleteRequest, now: int, parts: seq<Bytes>)
    requires var key, f := KeyOf(req.meta), After(c, EMPTY, run).files;
      key in f.uploads && f.uploads[key].meta.totalChunks == req.meta.totalChunks == |parts| == |f.uploads[key].chunks|
    requires forall i :: 0 <= i < |parts| ==> WrittenLast(c, run, KeyOf(req.meta), i, parts[i])
    ensures var f := After(c, EMPTY, run).files;
      var single := Completed(req, Concat(parts));
      CompleteReply(f, c, req) == SingleShotReply(f, c, single) &&
      Complete(f, c, req, now).blobs == SingleShot(f, c, single, now).blobs
  {
    RanIsPossible(c, run);
    forall i | 0 <= i < |parts| ensures WrittenLastAcrossCrashes(c, RanTurns(run), KeyOf(req.meta), i, parts[i]) {
      RanChunkLog(c, run, KeyOf(req.meta), i);
    }
    CompletionAcrossCrashes(c, RanTurns(run), req, now, parts);
  }

  // ----- blobs -----

  /** A stored blob, uploaded at once or in chunks, is what every read of its id returns until its time
      to live is over, whatever is uploaded meanwhile; then it is returned no more. */
  lemma BlobReadWhileAlive(c: Config, run: seq<Entry>, i: nat, j: nat, b: Blob)
    requires i < j < |run| && Creates(c, After(c, EMPTY, run[..i]), run[i], b)
    requires run[j].event == ReadBlob(b.id)
    requires forall k :: i < k < j ==> run[k].now as real < run[i].now as real + b.ttl * 1000.0
    ensures var blobs := After(c, EMPTY, run[..j + 1]).files.blobs;
      if run[j].now as real < run[i].now as real + b.ttl * 1000.0
      then b.id in blobs && blobs[b.id].blob == b
      else b.id !in blobs
  {
    AfterNext(c, EMPTY, run, i);
    CreatesStores(c, After(c, EMPTY, run[..i]), After(c, EMPTY, run[..i + 1]), run[i], b);
    RanIsPossible(c, run);
    forall n | 0 <= n <= |run| ensures AfterTurns(c, RanTurns(run)[..n]) == After(c, EMPTY, run[..n]) {
      RanPrefix(run, n);
      RanIsPossible(c, run[..n]);
    }
    BlobReadAcrossCrashes(c, RanTurns(run), i + 1, j, b, run[i].now);
  }
}
