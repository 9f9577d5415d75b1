/** Runs of the relay in which the process may die at any write of any request and is started again on
    what was durable. */
module RelayCrashRuns {
  import opened JsText
  import opened RelayTypes
  import opened RelayMail
  import opened RelayMailLaws
  import opened RelayGroups
  import opened RelayUploads
  import opened RelayMachine
  import opened RelayGroupLaws
  import opened RelayMailRuns
  import opened RelayGroupRuns
  import opened RelayUploadRuns

  // ----- what can be durable while a request is at work -----

  function TombstoneAt(m: Mail, key: Str): Option<Tombstone> {
    if key in m.acked then Some(m.acked[key]) else None
  }

  /** Each queue is untouched, swept, or served. */
  ghost predicate BetweenQueue(c: Config, s: State, entry: Entry, t: Mail, to: Str) {
    var q, q' := Queue(s.mail, to), Queue(t, to);
    q' == q || q' == Live(q, Cutoff(c, entry.now)) || q' == ApplyMove(q, c, MoveOf(c, s, entry, to), entry.now)
  }

  ghost predicate BetweenTombstone(c: Config, s: State, entry: Entry, t: Mail, key: Str) {
    TombstoneAt(t, key) == TombstoneAt(s.mail, key) || TombstoneAt(t, key) == TombstoneAt(StepMail(c, s, entry), key)
  }

  /** A queue changed by an ACK has the new tombstone beside it. */
  ghost predicate MarkedFirst(c: Config, s: State, entry: Entry, t: Mail) {
    entry.event.Ack? && Queue(t, entry.event.ack.to) != Queue(s.mail, entry.event.ack.to) ==>
      var key := EnvelopeKey(entry.event.ack.to, entry.event.ack.id);
      TombstoneAt(t, key) == TombstoneAt(StepMail(c, s, entry), key)
  }

  ghost predicate BetweenMail(c: Config, s: State, entry: Entry, t: Mail) {
    && (forall to :: BetweenQueue(c, s, entry, t, to))
    && (forall key :: BetweenTombstone(c, s, entry, t, key))
    && MarkedFirst(c, s, entry, t)
  }

  ghost predicate BetweenGroup(c: Config, s: State, entry: Entry, t: Groups, g: Str) {
    Lookup(t, g) == Lookup(s.groups, g) || Lookup(t, g) == Lookup(StepGroups(c, s, entry), g) ||
    (Sweeps(c, s, entry) && Lookup(t, g) == Swept(Lookup(s.groups, g), c, entry.now))
  }

  function BlobAt(f: Files, id: Str): Option<StoredBlob> {
    if id in f.blobs then Some(f.blobs[id]) else None
  }

  function SessionAt(f: Files, key: Str): Option<Upload> {
    if key in f.uploads then Some(f.uploads[key]) else None
  }

  ghost predicate BetweenFile(c: Config, s: State, entry: Entry, t: Files, id: Str) {
    (BlobAt(t, id) == BlobAt(s.files, id) || BlobAt(t, id) == BlobAt(StepFiles(c, s, entry), id)) &&
    (SessionAt(t, id) == SessionAt(s.files, id) || SessionAt(t, id) == SessionAt(StepFiles(c, s, entry), id))
  }

  /** A completed session is consumed only after its blob is stored. */
  ghost predicate StoredFirst(c: Config, s: State, entry: Entry, t: Files) {
    entry.event.CompleteUpload? && t.uploads != s.files.uploads ==> entry.event.complete.meta.id in t.blobs
  }

  ghost predicate Between(c: Config, s: State, entry: Entry, t: State) {
    && BetweenMail(c, s, entry, t.mail)
    && (forall g :: BetweenGroup(c, s, entry, t.groups, g))
    && (forall id :: BetweenFile(c, s, entry, t.files, id))
    && StoredFirst(c, s, entry, t.files)
  }

  // ----- runs with crashes -----

  /** A request that ran to its end, or one during which the process died, leaving a durable state. */
  datatype Turn = Ran(entry: Entry) | Died(entry: Entry, left: State)

  function TurnState(c: Config, s: State, turn: Turn): State {
    match turn
    case Ran(entry) => Step(c, s, entry)
    case Died(_, left) => left
  }

  function AfterTurns(c: Config, turns: seq<Turn>): State {
    if turns == [] then EMPTY else TurnState(c, AfterTurns(c, turns[..|turns| - 1]), turns[|turns| - 1])
  }

  ghost predicate CanHappen(c: Config, turns: seq<Turn>, i: nat)
    requires i < |turns|
  {
    turns[i].Died? ==> Between(c, AfterTurns(c, turns[..i]), turns[i].entry, turns[i].left)
  }

  ghost predicate Possible(c: Config, turns: seq<Turn>) {
    forall i :: 0 <= i < |turns| ==> CanHappen(c, turns, i)
  }

  lemma PossiblePrefix(c: Config, turns: seq<Turn>, n: nat)
    requires Possible(c, turns) && n <= |turns|
    ensures Possible(c, turns[..n])
  {
    forall i | 0 <= i < n ensures CanHappen(c, turns[..n], i) {
      assert turns[..n][..i] == turns[..i] && CanHappen(c, turns, i);
    }
  }

  // ----- the invariants survive -----

  ghost predicate Sound(s: State) {
    AllDistinct(s.mail) && Proper(s.groups) && SoundSessions(s.files)
  }

  lemma BetweenKeepsDistinct(c: Config, s: State, entry: Entry, t: Mail)
    requires AllDistinct(s.mail) && BetweenMail(c, s, entry, t)
    ensures AllDistinct(t)
  {
    forall to ensures Distinct(Queue(t, to)) {
      assert BetweenQueue(c, s, entry, t, to) && Distinct(Queue(s.mail, to));
      LiveDistinct(Queue(s.mail, to), Cutoff(c, entry.now));
      MoveKeepsDistinct(Queue(s.mail, to), c, MoveOf(c, s, entry, to), entry.now);
    }
  }

  lemma BetweenKeepsProper(c: Config, s: State, entry: Entry, t: State)
    requires Proper(s.groups) && Between(c, s, entry, t)
    ensures Proper(t.groups)
  {
    StepKeepsProper(c, s, entry);
    forall g | g in t.groups ensures ProperMembership(t.groups[g]) {
      assert BetweenGroup(c, s, entry, t.groups, g) && Lookup(t.groups, g) == Some(t.groups[g]);
      assert g in s.groups ==> ProperMembership(s.groups[g]);
      assert g in StepGroups(c, s, entry) ==> ProperMembership(StepGroups(c, s, entry)[g]);
    }
  }

  ghost predicate SoundSession(u: Upload) {
    0 < u.meta.totalChunks <= MAX_CHUNKS && forall i :: i in u.chunks ==> 0 <= i < u.meta.totalChunks
  }

  lemma SessionsByKey(f: Files)
    ensures SoundSessions(f) <==> forall k :: k in f.uploads ==> SoundSession(f.uploads[k])
  {
    if SoundSessions(f) {
      forall k | k in f.uploads ensures SoundSession(f.uploads[k]) {}
    }
    if forall k :: k in f.uploads ==> SoundSession(f.uploads[k]) {
      forall k, i | k in f.uploads && i in f.uploads[k].chunks ensures 0 <= i < f.uploads[k].meta.totalChunks {
        assert SoundSession(f.uploads[k]);
      }
      forall k | k in f.uploads ensures 0 < f.uploads[k].meta.totalChunks <= MAX_CHUNKS {
        assert SoundSession(f.uploads[k]);
      }
    }
  }

  lemma BetweenKeepsSessions(c: Config, s: State, entry: Entry, t: State)
    requires SoundSessions(s.files) && Between(c, s, entry, t)
    ensures SoundSessions(t.files)
  {
    StepKeepsSessions(c, s, entry);
    SessionsByKey(s.files);
    SessionsByKey(StepFiles(c, s, entry));
    SessionsByKey(t.files);
    forall k | k in t.files.uploads ensures SoundSession(t.files.uploads[k]) {
      assert BetweenFile(c, s, entry, t.files, k) && SessionAt(t.files, k) == Some(t.files.uploads[k]);
    }
  }

  lemma TurnKeepsSound(c: Config, s: State, turn: Turn)
    requires Sound(s) && (turn.Died? ==> Between(c, s, turn.entry, turn.left))
    ensures Sound(TurnState(c, s, turn))
  {
    if turn.Ran? {
      StepKeepsDistinct(c, s, turn.entry);
      StepKeepsProper(c, s, turn.entry);
      StepKeepsSessions(c, s, turn.entry);
    } else {
      BetweenKeepsDistinct(c, s, turn.entry, turn.left.mail);
      BetweenKeepsProper(c, s, turn.entry, turn.left);
      BetweenKeepsSessions(c, s, turn.entry, turn.left);
    }
  }

  /** Whatever requests the process died in, the state it is started on, and every state after that,
      has one envelope per id and queue, proper groups and sessions within range. */
  lemma {:induction false} SoundAcrossCrashes(c: Config, turns: seq<Turn>)
    requires Possible(c, turns)
    ensures Sound(AfterTurns(c, turns))
  {
    if turns != [] {
      var n := |turns| - 1;
      PossiblePrefix(c, turns, n);
      SoundAcrossCrashes(c, turns[..n]);
      assert CanHappen(c, turns, n);
      TurnKeepsSound(c, AfterTurns(c, turns[..n]), turns[n]);
    }
  }

  // ----- an acknowledged message stays gone -----

  lemma BetweenKeepsGone(c: Config, s: State, entry: Entry, t: Mail, to: Str, id: Str, since: int)
    requires Gone(s.mail, c, to, id, since + c.ackTtlSeconds * 1000) && BetweenMail(c, s, entry, t)
    requires since <= entry.now < since + c.ackTtlSeconds * 1000
    ensures Gone(t, c, to, id, since + c.ackTtlSeconds * 1000)
  {
    var key := EnvelopeKey(to, id);
    StepKeepsGone(c, s, entry, to, id, since);
    assert BetweenTombstone(c, s, entry, t, key) && BetweenQueue(c, s, entry, t, to);
    assert TombstoneAt(s.mail, key).Some? && TombstoneAt(StepMail(c, s, entry), key).Some?;
    StepQueue(c, s, entry, to);
  }

  ghost predicate ClockRuns(turns: seq<Turn>) {
    forall i, j :: 0 <= i < j < |turns| ==> turns[i].entry.now <= turns[j].entry.now
  }

  /** A signed ACK of the message that was answered, or in which the process died when the message
      had left its queue. */
  ghost predicate Removes(c: Config, s: State, turn: Turn, to: Str, id: Str) {
    turn.entry.event.Ack? && AckSigned(c, turn.entry.event.ack) &&
    turn.entry.event.ack.to == to && turn.entry.event.ack.id == id &&
    (turn.Died? ==> id in Ids(Queue(s.mail, to)) && id !in Ids(Queue(turn.left.mail, to)))
  }

  lemma AfterTurn(c: Config, turns: seq<Turn>, i: nat)
    requires i < |turns|
    ensures AfterTurns(c, turns[..i + 1]) == TurnState(c, AfterTurns(c, turns[..i]), turns[i])
  {
    assert turns[..i + 1][..i] == turns[..i];
  }

  /** When an ACK has removed the message, answered or not, its tombstone is there for a lifetime. */
  lemma TurnMakesGone(c: Config, s: State, s': State, turn: Turn, to: Str, id: Str)
    requires Removes(c, s, turn, to, id) && s' == TurnState(c, s, turn)
    requires turn.Died? ==> Between(c, s, turn.entry, turn.left)
    ensures Gone(s'.mail, c, to, id, turn.entry.now + c.ackTtlSeconds * 1000)
  {
    AckStepGone(c, s, Step(c, s, turn.entry), turn.entry, to, id);
    if turn.Died? {
      assert MarkedFirst(c, s, turn.entry, turn.left.mail);
    }
  }

  lemma TurnKeepsGone(c: Config, s: State, s': State, turn: Turn, to: Str, id: Str, since: int)
    requires s' == TurnState(c, s, turn)
    requires Gone(s.mail, c, to, id, since + c.ackTtlSeconds * 1000)
    requires since <= turn.entry.now < since + c.ackTtlSeconds * 1000
    requires turn.Died? ==> Between(c, s, turn.entry, turn.left)
    ensures Gone(s'.mail, c, to, id, since + c.ackTtlSeconds * 1000)
  {
    if turn.Ran? {
      StepKeepsGone(c, s, turn.entry, to, id, since);
    } else {
      BetweenKeepsGone(c, s, turn.entry, turn.left.mail, to, id, since);
    }
  }

  lemma {:induction false} GoneAcrossCrashes(c: Config, turns: seq<Turn>, i: nat, j: nat, to: Str, id: Str)
    requires Possible(c, turns) && ClockRuns(turns) && i < j <= |turns|
    requires Removes(c, AfterTurns(c, turns[..i]), turns[i], to, id)
    requires forall k :: i < k < j ==> turns[k].entry.now < turns[i].entry.now + c.ackTtlSeconds * 1000
    ensures Gone(AfterTurns(c, turns[..j]).mail, c, to, id, turns[i].entry.now + c.ackTtlSeconds * 1000)
    decreases j
  {
    AfterTurn(c, turns, j - 1);
    var s, s' := AfterTurns(c, turns[..j - 1]), AfterTurns(c, turns[..j]);
    assert CanHappen(c, turns, j - 1);
    if j == i + 1 {
      TurnMakesGone(c, s, s', turns[i], to, id);
    } else {
      GoneAcrossCrashes(c, turns, i, j - 1, to, id);
      assert turns[i].entry.now <= turns[j - 1].entry.now;
      TurnKeepsGone(c, s, s', turns[j - 1], to, id, turns[i].entry.now);
    }
  }

  /** From an ACK that removed a message, answered or cut short by a crash, until its tombstone expires
      no fetch returns the message, however often the process dies and is started again meanwhile. */
  lemma AckedNeverFetchedAcrossCrashes(c: Config, turns: seq<Turn>, i: nat, j: nat, to: Str, id: Str,
                                       cursor: Option<Str>, limit: Option<int>)
    requires Possible(c, turns) && ClockRuns(turns) && i < j < |turns|
    requires Removes(c, AfterTurns(c, turns[..i]), turns[i], to, id)
    requires turns[j].entry.event == Fetch(to, cursor, limit)
    requires turns[j].entry.now < turns[i].entry.now + c.ackTtlSeconds * 1000
    ensures id !in Ids(Fetched(c, AfterTurns(c, turns[..j]), turns[j].entry.now, to, cursor, limit))
  {
    assert forall k :: i < k < j ==> turns[k].entry.now <= turns[j].entry.now;
    GoneAcrossCrashes(c, turns, i, j, to, id);
    GoneIsNotFetched(c, AfterTurns(c, turns[..j]), turns[j].entry.now, to, id,
                     turns[i].entry.now + c.ackTtlSeconds * 1000, cursor, limit);
  }

  /** An ACK that was not answered leaves the message queued, or gone with a tombstone of full
      lifetime; never missing without one. */
  lemma UnansweredAck(c: Config, s: State, a: AckRequest, now: int, t: State)
    requires AckSigned(c, a) && Between(c, s, At(now, Ack(a)), t)
    ensures a.id in Ids(Queue(s.mail, a.to)) ==>
      a.id in Ids(Queue(t.mail, a.to)) || Gone(t.mail, c, a.to, a.id, now + c.ackTtlSeconds * 1000)
  {
    var turn := Died(At(now, Ack(a)), t);
    if a.id in Ids(Queue(s.mail, a.to)) && a.id !in Ids(Queue(t.mail, a.to)) {
      TurnMakesGone(c, s, t, turn, a.to, a.id);
    }
  }

  // ----- revocation -----

  /** What a turn means for a group's tokens: the request's whole outcome, or nothing. */
  function TurnOutcome(c: Config, s: State, turn: Turn, g: Str): Outcome {
    if turn.Died? && ViewOf(turn.left, g) == ViewOf(s, g) then Nothing else OutcomeOf(c, s, turn.entry, g)
  }

  lemma TurnView(c: Config, s: State, turn: Turn, g: Str)
    requires Proper(s.groups) && (turn.Died? ==> Between(c, s, turn.entry, turn.left))
    ensures ViewOf(TurnState(c, s, turn), g) == Observe(ViewOf(s, g), TurnOutcome(c, s, turn, g))
  {
    ViewStep(c, s, turn.entry, g);
    if turn.Died? && ViewOf(turn.left, g) != ViewOf(s, g) {
      StepGroup(c, s, turn.entry, g);
      assert BetweenGroup(c, s, turn.entry, turn.left.groups, g);
      LookupView(turn.left, g);
      LookupView(s, g);
      LookupView(Step(c, s, turn.entry), g);
    }
  }

  /** The view of a group depends on its record alone. */
  lemma LookupView(s: State, g: Str)
    ensures ViewOf(s, g) ==
      match Lookup(s.groups, g)
      case None => NotOwned
      case Some(m) => if m.Active? && !m.provisional then Owned(m.owner, m.delegations) else NotOwned
  {
  }

  function LogOfTurns(c: Config, turns: seq<Turn>, g: Str): (log: seq<Outcome>)
    ensures |log| == |turns|
  {
    if turns == [] then [] else
      var n := |turns| - 1;
      LogOfTurns(c, turns[..n], g) + [TurnOutcome(c, AfterTurns(c, turns[..n]), turns[n], g)]
  }

  lemma {:induction false} ViewOfTurns(c: Config, turns: seq<Turn>, g: Str)
    requires Possible(c, turns)
    ensures ViewOf(AfterTurns(c, turns), g) == ObserveAll(LogOfTurns(c, turns, g))
  {
    if turns != [] {
      var n := |turns| - 1;
      PossiblePrefix(c, turns, n);
      ViewOfTurns(c, turns[..n], g);
      SoundAcrossCrashes(c, turns[..n]);
      assert CanHappen(c, turns, n);
      TurnView(c, AfterTurns(c, turns[..n]), turns[n], g);
      assert LogOfTurns(c, turns, g)[..n] == LogOfTurns(c, turns[..n], g);
    }
  }

  ghost predicate StandsAcrossCrashes(c: Config, turns: seq<Turn>, req: MembersRequest, i: nat,
                                      tokens: map<Str, Token>) {
    LastPublication(LogOfTurns(c, turns, req.groupId), i, req.owner, tokens) && Shows(req, tokens)
  }

  /** Revocation survives crashes: a delegated update is accepted exactly when it is proper by itself
      and shows a token of the last list its owner got published, be it by a request in which the
      process died, the group not having expired since. */
  lemma DelegatedIffPublishedAcrossCrashes(c: Config, turns: seq<Turn>, req: MembersRequest, now: int)
    requires Possible(c, turns) && Delegated(req)
    ensures UpdateVerdict(c, AfterTurns(c, turns).groups, req, now) == Accepted <==>
      ProperDelegatedRequest(c, req, MembersOf(AfterTurns(c, turns), req.groupId), now) &&
      exists i, tokens :: StandsAcrossCrashes(c, turns, req, i, tokens)
  {
    var s, g := AfterTurns(c, turns), req.groupId;
    var log := LogOfTurns(c, turns, g);
    DelegatedAcceptedIff(c, s, req, now);
    ViewOfTurns(c, turns, g);
    var v := ViewOf(s, g);
    if v.Owned? && v.owner == req.owner && Shows(req, v.tokens) {
      TokensComeFromPublication(log);
      var i :| LastPublication(log, i, v.owner, v.tokens);
      assert StandsAcrossCrashes(c, turns, req, i, v.tokens);
    }
    if i, tokens :| StandsAcrossCrashes(c, turns, req, i, tokens) {
      PublicationStands(log, i, req.owner, tokens);
    }
  }
}
