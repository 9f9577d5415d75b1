/** The run laws about readers, owners, blobs and chunks, again for runs in which the process dies and is
    started again. */
module RelayCrashLaws {
  import opened JsText
  import opened RelayTypes
  import opened RelayMail
  import opened RelayMailLaws
  import opened RelayGroups
  import opened RelayUploads
  import opened RelayMachine
  import opened RelayGroupLaws
  import opened RelayMailRuns
  import opened RelayGroupRuns
  import opened RelayUploadRuns
  import opened RelayCrashRuns

  // ----- a reader that pages through its queue -----

  /** Anything else that happens at the relay, crashes included, or the reader's next page. */
  datatype Act = Else(turn: RelayCrashRuns.Turn) | Page(now: int, limit: Option<int>)

  function Perform(c: Config, to: Str, r: Reading, act: Act): Reading {
    match act
    case Else(turn) => r.(state := TurnState(c, r.state, turn))
    case Page(now, limit) => Play(c, to, r, Next(now, limit))
  }

  function PerformAll(c: Config, to: Str, r: Reading, acts: seq<Act>): Reading {
    if acts == [] then r else Perform(c, to, PerformAll(c, to, r, acts[..|acts| - 1]), acts[|acts| - 1])
  }

  /** The act can happen in this state, and does not store anew the id the reader holds. */
  ghost predicate Harmless(c: Config, to: Str, r: Reading, act: Act) {
    act.Else? ==>
      (act.turn.Died? ==> Between(c, r.state, act.turn.entry, act.turn.left)) &&
      !PutsBack(Queue(r.state.mail, to), c, MoveOf(c, r.state, act.turn.entry, to), act.turn.entry.now, r.cursor)
  }

  lemma DiedKeepsFollowing(c: Config, to: Str, r: Reading, turn: RelayCrashRuns.Turn)
    requires Follows(to, r) && turn.Died? && Harmless(c, to, r, Else(turn))
    ensures Follows(to, Perform(c, to, r, Else(turn)))
  {
    var q := Queue(r.state.mail, to);
    BetweenKeepsDistinct(c, r.state, turn.entry, turn.left.mail);
    assert BetweenQueue(c, r.state, turn.entry, turn.left.mail, to);
    CaughtUpLive(q, Cutoff(c, turn.entry.now), r.cursor, r.seen);
    MoveKeepsCaughtUp(q, c, MoveOf(c, r.state, turn.entry, to), turn.entry.now, r.cursor, r.seen);
  }

  lemma PerformKeepsFollowing(c: Config, to: Str, r: Reading, act: Act)
    requires Follows(to, r) && Harmless(c, to, r, act)
    ensures Follows(to, Perform(c, to, r, act))
  {
    match act
    case Page(now, limit) => PlayKeepsFollowing(c, to, r, Next(now, limit));
    case Else(turn) =>
      if turn.Ran? {
        PlayKeepsFollowing(c, to, r, World(turn.entry));
      } else {
        DiedKeepsFollowing(c, to, r, turn);
      }
  }

  ghost predicate AllHarmless(c: Config, to: Str, r: Reading, acts: seq<Act>) {
    forall i :: 0 <= i < |acts| ==> Harmless(c, to, PerformAll(c, to, r, acts[..i]), acts[i])
  }

  lemma {:induction false} PerformAllFollows(c: Config, to: Str, r: Reading, acts: seq<Act>)
    requires AllDistinct(r.state.mail) && r.cursor == None && AllHarmless(c, to, r, acts)
    ensures Follows(to, PerformAll(c, to, r, acts))
  {
    if acts != [] {
      var n := |acts| - 1;
      forall i | 0 <= i < n ensures Harmless(c, to, PerformAll(c, to, r, acts[..n][..i]), acts[..n][i]) {
        assert acts[..n][..i] == acts[..i] && Harmless(c, to, PerformAll(c, to, r, acts[..i]), acts[i]);
      }
      PerformAllFollows(c, to, r, acts[..n]);
      assert Harmless(c, to, PerformAll(c, to, r, acts[..n]), acts[n]);
      PerformKeepsFollowing(c, to, PerformAll(c, to, r, acts[..n]), acts[n]);
    }
  }

  /** No message is skipped, even if the process dies and is started again between the pages. */
  lemma NothingSkippedAcrossCrashes(c: Config, to: Str, r: Reading, acts: seq<Act>, now: int, limit: Option<int>)
    requires AllDistinct(r.state.mail) && r.cursor == None && AllHarmless(c, to, r, acts)
    requires PageLimit(limit) > |Returned(c, to, PerformAll(c, to, r, acts), now, limit)|
    ensures var last := Perform(c, to, PerformAll(c, to, r, acts), Page(now, limit));
      Ids(Queue(last.state.mail, to)) <= last.seen
  {
    PerformAllFollows(c, to, r, acts);
    ShortPageEnds(c, to, PerformAll(c, to, r, acts), now, limit);
  }

  // ----- one owner -----

  /** Owned by this peer, and not provisionally. */
  predicate OwnedBy(s: State, g: Str, owner: Str) {
    g in s.groups && s.groups[g].Active? && !s.groups[g].provisional && s.groups[g].owner == owner
  }

  predicate IsExpired(s: State, g: Str) {
    g in s.groups && s.groups[g].Expired?
  }

  lemma TurnKeepsOwner(c: Config, s: State, s': State, turn: RelayCrashRuns.Turn, g: Str, owner: Str)
    requires OwnedBy(s, g, owner) && s' == TurnState(c, s, turn) && !IsExpired(s', g)
    requires turn.Died? ==> Between(c, s, turn.entry, turn.left)
    ensures OwnedBy(s', g, owner)
  {
    OwnedStep(c, s, turn.entry, g);
    if turn.Died? {
      assert BetweenGroup(c, s, turn.entry, turn.left.groups, g);
      assert Lookup(turn.left.groups, g).Some?;
    }
  }

  /** Until it expires an owned group has one owner, whatever crashes there are. */
  lemma {:induction false} OwnerIsStableAcrossCrashes(c: Config, turns: seq<RelayCrashRuns.Turn>, i: nat, j: nat,
                                                      g: Str, owner: Str)
    requires Possible(c, turns) && i <= j <= |turns| && OwnedBy(AfterTurns(c, turns[..i]), g, owner)
    requires forall k :: i < k <= j ==> !IsExpired(AfterTurns(c, turns[..k]), g)
    ensures OwnedBy(AfterTurns(c, turns[..j]), g, owner)
    decreases j
  {
    if i < j {
      OwnerIsStableAcrossCrashes(c, turns, i, j - 1, g, owner);
      AfterTurn(c, turns, j - 1);
      assert CanHappen(c, turns, j - 1);
      TurnKeepsOwner(c, AfterTurns(c, turns[..j - 1]), AfterTurns(c, turns[..j]), turns[j - 1], g, owner);
    }
  }

  // ----- a blob while it is alive -----

  lemma TurnKeepsBlob(c: Config, s: State, s': State, turn: RelayCrashRuns.Turn, b: Blob, at: int)
    requires s' == TurnState(c, s, turn) && Kept(s, b, at) && turn.entry.now as real < at as real + b.ttl * 1000.0
    requires turn.Died? ==> Between(c, s, turn.entry, turn.left)
    ensures Kept(s', b, at)
  {
    BlobStep(c, s, Step(c, s, turn.entry), turn.entry, b, at);
    if turn.Died? {
      assert BetweenFile(c, s, turn.entry, turn.left.files, b.id);
      assert BlobAt(turn.left.files, b.id).Some?;
    }
  }

  lemma {:induction false} BlobStaysAcrossCrashes(c: Config, turns: seq<RelayCrashRuns.Turn>, i: nat, j: nat, b: Blob,
                                                  at: int)
    requires Possible(c, turns) && i <= j <= |turns| && Kept(AfterTurns(c, turns[..i]), b, at)
    requires forall k :: i <= k < j ==> turns[k].entry.now as real < at as real + b.ttl * 1000.0
    ensures Kept(AfterTurns(c, turns[..j]), b, at)
    decreases j
  {
    if i < j {
      BlobStaysAcrossCrashes(c, turns, i, j - 1, b, at);
      AfterTurn(c, turns, j - 1);
      assert CanHappen(c, turns, j - 1);
      TurnKeepsBlob(c, AfterTurns(c, turns[..j - 1]), AfterTurns(c, turns[..j]), turns[j - 1], b, at);
    }
  }

  /** A blob that has been stored is what every read of its id returns until its time to live is over,
      and then no more, whatever is uploaded and however often the process dies meanwhile. */
  lemma BlobReadAcrossCrashes(c: Config, turns: seq<RelayCrashRuns.Turn>, i: nat, j: nat, b: Blob, at: int)
    requires Possible(c, turns) && i <= j < |turns| && Kept(AfterTurns(c, turns[..i]), b, at)
    requires turns[j].Ran? && turns[j].entry.event == ReadBlob(b.id)
    requires forall k :: i <= k < j ==> turns[k].entry.now as real < at as real + b.ttl * 1000.0
    ensures var blobs := AfterTurns(c, turns[..j + 1]).files.blobs;
      if turns[j].entry.now as real < at as real + b.ttl * 1000.0 then b.id in blobs && blobs[b.id].blob == b
      else b.id !in blobs
  {
    BlobStaysAcrossCrashes(c, turns, i, j, b, at);
    AfterTurn(c, turns, j);
  }

  // ----- chunks -----

  /** What a turn means for one chunk: the request's whole outcome, or nothing. */
  function TurnChunk(c: Config, s: State, turn: RelayCrashRuns.Turn, key: Str, i: int): ChunkOutcome {
    if turn.Died? && ChunkAt(turn.left.files, key, i) == ChunkAt(s.files, key, i) then Untouched
    else ChunkOutcomeOf(c, s, turn.entry, key, i)
  }

  lemma SessionChunk(f: Files, key: Str, i: int)
    ensures ChunkAt(f, key, i) ==
      match SessionAt(f, key)
      case None => None
      case Some(u) => if i in u.chunks then Some(u.chunks[i]) else None
  {
  }

  lemma TurnChunkStep(c: Config, s: State, s': State, turn: RelayCrashRuns.Turn, key: Str, i: int)
    requires s' == TurnState(c, s, turn) && (turn.Died? ==> Between(c, s, turn.entry, turn.left))
    ensures ChunkAt(s'.files, key, i) == ObserveChunk(ChunkAt(s.files, key, i), TurnChunk(c, s, turn, key, i))
  {
    ChunkStep(c, s, turn.entry, key, i);
    if turn.Died? {
      assert BetweenFile(c, s, turn.entry, turn.left.files, key);
      SessionChunk(turn.left.files, key, i);
      SessionChunk(s.files, key, i);
      SessionChunk(StepFiles(c, s, turn.entry), key, i);
    }
  }

  function ChunkLogOfTurns(c: Config, turns: seq<RelayCrashRuns.Turn>, key: Str, i: int): (log: seq<ChunkOutcome>)
    ensures |log| == |turns|
  {
    if turns == [] then [] else
      var n := |turns| - 1;
      ChunkLogOfTurns(c, turns[..n], key, i) + [TurnChunk(c, AfterTurns(c, turns[..n]), turns[n], key, i)]
  }

  ghost predicate WrittenLastAcrossCrashes(c: Config, turns: seq<RelayCrashRuns.Turn>, key: Str, i: int, bytes: Bytes) {
    exists n :: LastWrite(ChunkLogOfTurns(c, turns, key, i), n, bytes)
  }

  /** A chunk holds some bytes exactly when the last request for that index in that session that took
      effect carried them: in any order, with repeats, crashes and restarts. */
  lemma {:induction false} ChunkHoldsLastWriteAcrossCrashes(c: Config, turns: seq<RelayCrashRuns.Turn>, key: Str,
                                                            i: int, bytes: Bytes)
    requires Possible(c, turns)
    ensures ChunkAt(AfterTurns(c, turns).files, key, i) == Some(bytes) <==>
      WrittenLastAcrossCrashes(c, turns, key, i, bytes)
  {
    if turns != [] {
      var n := |turns| - 1;
      var log := ChunkLogOfTurns(c, turns, key, i);
      PossiblePrefix(c, turns, n);
      ChunkHoldsLastWriteAcrossCrashes(c, turns[..n], key, i, bytes);
      assert CanHappen(c, turns, n);
      TurnChunkStep(c, AfterTurns(c, turns[..n]), AfterTurns(c, turns), turns[n], key, i);
      LastWriteStep(ChunkLogOfTurns(c, turns[..n], key, i), log[n], bytes);
    }
  }

  /** Completion after any run with crashes is the single-shot upload of the concatenation, by index, of
      the bytes written last to each chunk. */
  lemma CompletionAcrossCrashes(c: Config, turns: seq<RelayCrashRuns.Turn>, req: CompleteRequest, now: int,
                                parts: seq<Bytes>)
    requires Possible(c, turns)
    requires var key, f := KeyOf(req.meta), AfterTurns(c, turns).files;
      key in f.uploads && f.uploads[key].meta.totalChunks == req.meta.totalChunks == |parts| == |f.uploads[key].chunks|
    requires forall i :: 0 <= i < |parts| ==> WrittenLastAcrossCrashes(c, turns, KeyOf(req.meta), i, parts[i])
    ensures var f := AfterTurns(c, turns).files;
      var single := Completed(req, Concat(parts));
      CompleteReply(f, c, req) == SingleShotReply(f, c, single) &&
      Complete(f, c, req, now).blobs == SingleShot(f, c, single, now).blobs
  {
    var key, f := KeyOf(req.meta), AfterTurns(c, turns).files;
    forall i | 0 <= i < |parts| ensures i in f.uploads[key].chunks && f.uploads[key].chunks[i] == parts[i] {
      ChunkHoldsLastWriteAcrossCrashes(c, turns, key, i, parts[i]);
      assert ChunkAt(f, key, i) == Some(parts[i]);
    }
    SoundAcrossCrashes(c, turns);
    CompletionOfParts(c, f, req, now, parts);
  }
}
