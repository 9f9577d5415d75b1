/** Laws of message delivery over whole runs of the relay. */
module RelayMailRuns {
  import opened JsText
  import opened RelayTypes
  import opened RelayMail
  import opened RelayMailLaws
  import opened RelayFanOut
  import opened RelayGroups
  import opened RelayMachine

  // ----- one step, seen from one queue -----

  function MoveOf(c: Config, s: State, entry: Entry, to: Str): QueueMove {
    var swept := SweepAcks(s.mail, c, entry.now);
    match entry.event
    case Store(env) =>
      if EnvelopeSigned(c, env) && env.to == to && EnvelopeKey(to, env.id) !in swept.acked then Serve(env) else Keep
    case GroupStore(g) =>
      if GroupVerdict(c, s, g, entry.now) == Accepted && to in Recipients(g) && EnvelopeKey(to, g.id) !in swept.acked
      then Serve(FanOutEnvelope(g).(to := to)) else Keep
    case Fetch(r, _, _) => if r == to then Filter else Keep
    case Ack(a) => if AckSigned(c, a) && a.to == to then Drop(a.id) else Keep
    case Sweep => Filter
    case _ => Keep
  }

  lemma StoreQueue(c: Config, m: Mail, env: Envelope, now: int, to: Str)
    ensures Queue(StoreMail(m, c, env, now), to) ==
      if env.to == to && EnvelopeKey(to, env.id) !in SweepAcks(m, c, now).acked
      then Served(Queue(m, to), Cutoff(c, now), env, now) else Queue(m, to)
  {
    DepositEffect(SweepAcks(m, c, now), c, env, now, to);
    assert Queue(SweepAcks(m, c, now), to) == Queue(m, to);
  }

  lemma GroupStoreQueue(c: Config, m: Mail, g: GroupStoreRequest, admitted: bool, now: int, to: Str)
    ensures Queue(GroupStoreMail(c, m, g, admitted, now), to) ==
      if admitted && to in Recipients(g) && EnvelopeKey(to, g.id) !in SweepAcks(m, c, now).acked
      then Served(Queue(m, to), Cutoff(c, now), FanOutEnvelope(g).(to := to), now) else Queue(m, to)
  {
    AscendingHasNoRepeats(Recipients(g));
    FanOutEffect(SweepAcks(m, c, now), c, Recipients(g), FanOutEnvelope(g), now, to);
    assert Queue(SweepAcks(m, c, now), to) == Queue(m, to);
  }

  lemma StoreStepQueue(c: Config, s: State, env: Envelope, now: int, to: Str)
    ensures var entry := At(now, Store(env));
      Queue(StepMail(c, s, entry), to) == ApplyMove(Queue(s.mail, to), c, MoveOf(c, s, entry, to), now)
  {
    StoreQueue(c, s.mail, env, now, to);
  }

  lemma GroupStepQueue(c: Config, s: State, g: GroupStoreRequest, now: int, to: Str)
    ensures var entry := At(now, GroupStore(g));
      Queue(StepMail(c, s, entry), to) == ApplyMove(Queue(s.mail, to), c, MoveOf(c, s, entry, to), now)
  {
    GroupStoreQueue(c, s.mail, g, GroupVerdict(c, s, g, now) == Accepted, now, to);
  }

  lemma OtherStepQueue(c: Config, s: State, entry: Entry, to: Str)
    requires !entry.event.Store? && !entry.event.GroupStore?
    ensures Queue(StepMail(c, s, entry), to) == ApplyMove(Queue(s.mail, to), c, MoveOf(c, s, entry, to), entry.now)
  {
    match entry.event
    case Fetch(r, _, _) => SweepQueueEffect(s.mail, c, r, entry.now, to);
    case Ack(a) => AckEffect(s.mail, c, a.to, a.id, entry.now, to);
    case Sweep => SweepMailEffect(s.mail, c, entry.now, to);
    case _ =>
  }

  lemma StepQueue(c: Config, s: State, entry: Entry, to: Str)
    ensures Queue(StepMail(c, s, entry), to) == ApplyMove(Queue(s.mail, to), c, MoveOf(c, s, entry, to), entry.now)
  {
    match entry
    case At(now, Store(env)) => StoreStepQueue(c, s, env, now, to);
    case At(now, GroupStore(g)) => GroupStepQueue(c, s, g, now, to);
    case At(_, _) => OtherStepQueue(c, s, entry, to);
  }

  /** Tombstones appear by ACK only and go by expiry only. */
  lemma StepAcked(c: Config, s: State, entry: Entry, key: Str)
    ensures var acked, acked' := s.mail.acked, StepMail(c, s, entry).acked;
      if entry.event.Ack? && AckSigned(c, entry.event.ack) && key == EnvelopeKey(entry.event.ack.to, entry.event.ack.id)
      then key in acked' && ExpiryOf(acked'[key], c) == entry.now + c.ackTtlSeconds * 1000
      else if key in acked'
      then key in acked && acked'[key] == acked[key]
      else key in acked ==> ExpiryOf(acked[key], c) <= entry.now
    ensures MoveServes(c, s, entry) ==> StepMail(c, s, entry).acked == SweepAcks(s.mail, c, entry.now).acked
  {
    var swept := SweepAcks(s.mail, c, entry.now);
    match entry.event
    case Store(env) => DepositEffect(swept, c, env, entry.now, env.to);
    case GroupStore(g) => FanOutKeepsAcks(swept, c, Recipients(g), FanOutEnvelope(g), entry.now);
    case Fetch(r, _, _) => SweepQueueEffect(s.mail, c, r, entry.now, r);
    case Ack(a) => AckEffect(s.mail, c, a.to, a.id, entry.now, a.to);
    case Sweep => SweepMailEffect(s.mail, c, entry.now, []);
    case _ =>
  }

  ghost predicate MoveServes(c: Config, s: State, entry: Entry) {
    exists to :: MoveOf(c, s, entry, to).Serve?
  }

  // ----- one copy per id, none of them tombstoned -----

  ghost predicate AllDistinct(m: Mail) {
    forall to :: Distinct(Queue(m, to))
  }

  lemma StepKeepsDistinct(c: Config, s: State, entry: Entry)
    requires AllDistinct(s.mail)
    ensures AllDistinct(StepMail(c, s, entry))
  {
    forall to ensures Distinct(Queue(StepMail(c, s, entry), to)) {
      StepQueue(c, s, entry, to);
      MoveKeepsDistinct(Queue(s.mail, to), c, MoveOf(c, s, entry, to), entry.now);
    }
  }

  lemma {:induction false} RunKeepsDistinct(c: Config, s: State, run: seq<Entry>)
    requires AllDistinct(s.mail)
    ensures AllDistinct(After(c, s, run).mail)
  {
    if run != [] {
      RunKeepsDistinct(c, s, run[..|run| - 1]);
      StepKeepsDistinct(c, After(c, s, run[..|run| - 1]), run[|run| - 1]);
    }
  }

  ghost predicate CleanAck(entry: Entry) {
    entry.event.Ack? ==> Without(PIPE, entry.event.ack.to)
  }

  /** A step other than an ACK brings neither a queued message under a tombstone nor a tombstone over a
      queued message. */
  lemma StaysUntombstoned(c: Config, s: State, entry: Entry, to: Str, id: Str)
    requires NoneTombstoned(s.mail) && Without(PIPE, to) && !(entry.event.Ack? && AckSigned(c, entry.event.ack))
    requires id in Ids(Queue(StepMail(c, s, entry), to))
    ensures EnvelopeKey(to, id) !in StepMail(c, s, entry).acked
  {
    StepQueue(c, s, entry, to);
    StepAcked(c, s, entry, EnvelopeKey(to, id));
    MoveIds(Queue(s.mail, to), c, MoveOf(c, s, entry, to), entry.now);
  }

  lemma StepKeepsUntombstoned(c: Config, s: State, entry: Entry)
    requires NoneTombstoned(s.mail) && CleanAck(entry)
    ensures NoneTombstoned(StepMail(c, s, entry))
  {
    if entry.event.Ack? && AckSigned(c, entry.event.ack) {
      AckKeepsUntombstoned(s.mail, c, entry.event.ack.to, entry.event.ack.id, entry.now);
    } else {
      var m' := StepMail(c, s, entry);
      forall to, id | Without(PIPE, to) && id in Ids(Queue(m', to)) ensures EnvelopeKey(to, id) !in m'.acked {
        StaysUntombstoned(c, s, entry, to, id);
      }
    }
  }

  /** In every state a run can reach, a queue holds at most one envelope per id and, for recipients
      without the separator, none whose tombstone exists. */
  lemma {:induction false} ReachableMail(c: Config, run: seq<Entry>)
    requires forall i :: 0 <= i < |run| ==> CleanAck(run[i])
    ensures AllDistinct(After(c, EMPTY, run).mail)
    ensures NoneTombstoned(After(c, EMPTY, run).mail)
  {
    RunKeepsDistinct(c, EMPTY, run);
    if run != [] {
      var n := |run| - 1;
      ReachableMail(c, run[..n]);
      StepKeepsUntombstoned(c, After(c, EMPTY, run[..n]), run[n]);
    }
  }

  // ----- an acknowledged message does not come back -----

  lemma StepKeepsGone(c: Config, s: State, entry: Entry, to: Str, id: Str, since: int)
    requires Gone(s.mail, c, to, id, since + c.ackTtlSeconds * 1000)
    requires since <= entry.now < since + c.ackTtlSeconds * 1000
    ensures Gone(StepMail(c, s, entry), c, to, id, since + c.ackTtlSeconds * 1000)
  {
    StepQueue(c, s, entry, to);
    StepAcked(c, s, entry, EnvelopeKey(to, id));
    MoveIds(Queue(s.mail, to), c, MoveOf(c, s, entry, to), entry.now);
  }

  lemma AckStepGone(c: Config, s: State, s': State, entry: Entry, to: Str, id: Str)
    requires s' == Step(c, s, entry)
    requires entry.event.Ack? && AckSigned(c, entry.event.ack) && entry.event.ack.to == to && entry.event.ack.id == id
    ensures Gone(s'.mail, c, to, id, entry.now + c.ackTtlSeconds * 1000)
  {
    AckMakesGone(s.mail, c, to, id, entry.now);
  }

  lemma NextKeepsGone(c: Config, s: State, s': State, entry: Entry, to: Str, id: Str, since: int)
    requires s' == Step(c, s, entry) && Gone(s.mail, c, to, id, since + c.ackTtlSeconds * 1000)
    requires since <= entry.now < since + c.ackTtlSeconds * 1000
    ensures Gone(s'.mail, c, to, id, since + c.ackTtlSeconds * 1000)
  {
    StepKeepsGone(c, s, entry, to, id, since);
  }

  lemma {:induction false} StaysGone(c: Config, s: State, run: seq<Entry>, i: nat, j: nat, to: Str, id: Str)
    requires Clocked(run) && i < j <= |run|
    requires run[i].event.Ack? && AckSigned(c, run[i].event.ack) && run[i].event.ack.to == to &&
      run[i].event.ack.id == id
    requires forall k :: i < k < j ==> run[k].now < run[i].now + c.ackTtlSeconds * 1000
    ensures Gone(After(c, s, run[..j]).mail, c, to, id, run[i].now + c.ackTtlSeconds * 1000)
    decreases j
  {
    var before, after := After(c, s, run[..j - 1]), After(c, s, run[..j]);
    AfterNext(c, s, run, j - 1);
    if j == i + 1 {
      AckStepGone(c, before, after, run[i], to, id);
    } else {
      StaysGone(c, s, run, i, j - 1, to, id);
      assert run[i].now <= run[j - 1].now;
      NextKeepsGone(c, before, after, run[j - 1], to, id, run[i].now);
    }
  }

  /** A fetch does not return what is gone. */
  lemma GoneIsNotFetched(c: Config, s: State, now: int, to: Str, id: Str, until: int, cursor: Option<Str>,
                         limit: Option<int>)
    requires Gone(s.mail, c, to, id, until)
    ensures id !in Ids(Fetched(c, s, now, to, cursor, limit))
  {
    SweepQueueEffect(s.mail, c, to, now, to);
    var q := Queue(SweepQueue(s.mail, c, to, now), to);
    assert forall x :: x in Page(q, cursor, limit) ==> x in q;
  }

  /** From an accepted ACK until its tombstone expires no fetch returns the message, whatever else
      the relay is asked to do and from whatever state the run starts. */
  lemma AckedNeverFetched(c: Config, s: State, run: seq<Entry>, i: nat, j: nat)
    requires Clocked(run) && i < j < |run|
    requires run[i].event.Ack? && AckSigned(c, run[i].event.ack)
    requires run[j].event.Fetch? && run[j].event.to == run[i].event.ack.to
    requires run[j].now < run[i].now + c.ackTtlSeconds * 1000
    ensures var f := run[j].event;
      run[i].event.ack.id !in Ids(Fetched(c, After(c, s, run[..j]), run[j].now, f.to, f.cursor, f.limit))
  {
    var f, id, before := run[j].event, run[i].event.ack.id, After(c, s, run[..j]);
    assert forall k :: i < k < j ==> run[k].now <= run[j].now;
    StaysGone(c, s, run, i, j, f.to, id);
    GoneIsNotFetched(c, before, run[j].now, f.to, id, run[i].now + c.ackTtlSeconds * 1000, f.cursor, f.limit);
  }

  // ----- a reader that pages through its queue -----

  /** Either anything else that happens at the relay, or the reader asking for its next page. */
  datatype Turn = World(entry: Entry) | Next(now: int, limit: Option<int>)

  datatype Reading = Reading(state: State, cursor: Option<Str>, seen: set<Str>)

  function Returned(c: Config, to: Str, r: Reading, now: int, limit: Option<int>): seq<Item> {
    Fetched(c, r.state, now, to, r.cursor, limit)
  }

  function Play(c: Config, to: Str, r: Reading, turn: Turn): Reading {
    match turn
    case World(entry) => r.(state := Step(c, r.state, entry))
    case Next(now, limit) =>
      var page := Returned(c, to, r, now, limit);
      Reading(r.state.(mail := SweepQueue(r.state.mail, c, to, now)), NextCursor(page, r.cursor), r.seen + Ids(page))
  }

  /** The reader's turn is an ordinary fetch. */
  lemma NextIsFetch(c: Config, to: Str, r: Reading, now: int, limit: Option<int>)
    ensures Play(c, to, r, Next(now, limit)).state == Step(c, r.state, At(now, Fetch(to, r.cursor, limit)))
  {
  }

  function PlayAll(c: Config, to: Str, r: Reading, turns: seq<Turn>): Reading {
    if turns == [] then r else Play(c, to, PlayAll(c, to, r, turns[..|turns| - 1]), turns[|turns| - 1])
  }

  /** The turn stores a new copy of the very id the reader holds as its cursor. */
  ghost predicate Reenters(c: Config, to: Str, r: Reading, turn: Turn) {
    turn.World? && PutsBack(Queue(r.state.mail, to), c, MoveOf(c, r.state, turn.entry, to), turn.entry.now, r.cursor)
  }

  ghost predicate Follows(to: Str, r: Reading) {
    AllDistinct(r.state.mail) && CaughtUp(Queue(r.state.mail, to), r.cursor, r.seen)
  }

  /** A page is cut from the swept queue, and leaves that queue behind. */
  lemma NextPage(c: Config, to: Str, r: Reading, now: int, limit: Option<int>)
    ensures var live := Live(Queue(r.state.mail, to), Cutoff(c, now));
      Returned(c, to, r, now, limit) == Page(live, r.cursor, limit) &&
      Queue(Play(c, to, r, Next(now, limit)).state.mail, to) == live
  {
    SweepQueueEffect(r.state.mail, c, to, now, to);
  }

  lemma NextKeepsCaughtUp(c: Config, to: Str, r: Reading, now: int, limit: Option<int>)
    requires Follows(to, r)
    ensures var r' := Play(c, to, r, Next(now, limit));
      CaughtUp(Queue(r'.state.mail, to), r'.cursor, r'.seen)
  {
    var q := Queue(r.state.mail, to);
    var live := Live(q, Cutoff(c, now));
    NextPage(c, to, r, now, limit);
    LiveDistinct(q, Cutoff(c, now));
    CaughtUpLive(q, Cutoff(c, now), r.cursor, r.seen);
    PageAdvances(live, r.cursor, limit, r.seen);
  }

  lemma PlayKeepsFollowing(c: Config, to: Str, r: Reading, turn: Turn)
    requires Follows(to, r) && !Reenters(c, to, r, turn)
    ensures Follows(to, Play(c, to, r, turn))
  {
    var q := Queue(r.state.mail, to);
    match turn
    case World(entry) =>
      StepKeepsDistinct(c, r.state, entry);
      StepQueue(c, r.state, entry, to);
      MoveKeepsCaughtUp(q, c, MoveOf(c, r.state, entry, to), entry.now, r.cursor, r.seen);
    case Next(now, limit) =>
      StepKeepsDistinct(c, r.state, At(now, Fetch(to, r.cursor, limit)));
      NextIsFetch(c, to, r, now, limit);
      NextKeepsCaughtUp(c, to, r, now, limit);
  }

  lemma {:induction false} PlayAllFollows(c: Config, to: Str, r: Reading, turns: seq<Turn>)
    requires AllDistinct(r.state.mail) && r.cursor == None
    requires forall i :: 0 <= i < |turns| ==> !Reenters(c, to, PlayAll(c, to, r, turns[..i]), turns[i])
    ensures Follows(to, PlayAll(c, to, r, turns))
  {
    if turns != [] {
      var n := |turns| - 1;
      forall i | 0 <= i < n ensures !Reenters(c, to, PlayAll(c, to, r, turns[..n][..i]), turns[..n][i]) {
        assert turns[..n][..i] == turns[..i];
      }
      PlayAllFollows(c, to, r, turns[..n]);
      PlayKeepsFollowing(c, to, PlayAll(c, to, r, turns[..n]), turns[n]);
    }
  }

  /** A short page gives a reader that was caught up everything that is queued. */
  lemma ShortPageEnds(c: Config, to: Str, r: Reading, now: int, limit: Option<int>)
    requires Follows(to, r) && PageLimit(limit) > |Returned(c, to, r, now, limit)|
    ensures var last := Play(c, to, r, Next(now, limit)); Ids(Queue(last.state.mail, to)) <= last.seen
  {
    NextPage(c, to, r, now, limit);
    var q := Queue(r.state.mail, to);
    CaughtUpLive(q, Cutoff(c, now), r.cursor, r.seen);
    ShortPageCompletes(Live(q, Cutoff(c, now)), r.cursor, limit, r.seen);
  }

  /** No message is skipped: a reader that started without a cursor and always passes back the one
      it was given has, once a page comes back shorter than its positive limit, been given every
      message then queued. Stores, ACKs, sweeps and other readers may come in between, as long as
      none of them stores anew the id the reader holds. */
  lemma NothingSkipped(c: Config, to: Str, r: Reading, turns: seq<Turn>, now: int, limit: Option<int>)
    requires AllDistinct(r.state.mail) && r.cursor == None
    requires forall i :: 0 <= i < |turns| ==> !Reenters(c, to, PlayAll(c, to, r, turns[..i]), turns[i])
    requires PageLimit(limit) > |Returned(c, to, PlayAll(c, to, r, turns), now, limit)|
    ensures var last := Play(c, to, PlayAll(c, to, r, turns), Next(now, limit));
      Ids(Queue(last.state.mail, to)) <= last.seen
  {
    PlayAllFollows(c, to, r, turns);
    ShortPageEnds(c, to, PlayAll(c, to, r, turns), now, limit);
  }

  /** The hypothesis is needed at every point: once the id the reader holds is stored anew while
      some queued message is still unread, the next page is empty although that message is there. */
  lemma ReentryHides(c: Config, to: Str, r: Reading, turn: Turn, unread: Str, limit: Option<int>)
    requires Follows(to, r) && Reenters(c, to, r, turn) && r.cursor != Some([])
    requires unread in Ids(Live(Queue(r.state.mail, to), Cutoff(c, turn.entry.now))) && unread !in r.seen
    requires c.ttlSeconds >= 0
    ensures var after := Play(c, to, r, turn);
      var next := Play(c, to, after, Next(turn.entry.now, limit));
      Returned(c, to, after, turn.entry.now, limit) == [] &&
      unread in Ids(Queue(next.state.mail, to)) && unread !in next.seen
  {
    var now, q := turn.entry.now, Queue(r.state.mail, to);
    var live, item := Live(q, Cutoff(c, now)), Item(MoveOf(c, r.state, turn.entry, to).env, now);
    var after := Play(c, to, r, turn);
    StepQueue(c, r.state, turn.entry, to);
    assert Queue(after.state.mail, to) == live + [item];
    NextPage(c, to, after, now, limit);
    assert Live(live + [item], Cutoff(c, now)) == live + [item] by {
      LiveTwice(q, Cutoff(c, now), Cutoff(c, now));
      LiveAppend(live, item, Cutoff(c, now));
    }
    LiveDistinct(q, Cutoff(c, now));
    AppendDistinct(live, item);
    RestoredCursorHides(live, item, limit);
    IdsConcat(live, [item]);
  }

  // ----- a group message stays in the group -----

  /** After an accepted group store the group is known, sender and recipients are members of it, and
      no queue but a member's has changed. */
  lemma FanOutStaysInGroup(c: Config, s: State, g: GroupStoreRequest, now: int, to: Str)
    requires GroupVerdict(c, s, g, now) == Accepted
    ensures var gs' := StepGroups(c, s, At(now, GroupStore(g)));
      g.groupId in gs' && gs'[g.groupId].Active? && g.from in gs'[g.groupId].members &&
      (forall r :: r in Recipients(g) ==> r in gs'[g.groupId].members) &&
      (to !in gs'[g.groupId].members ==> Queue(StepMail(c, s, At(now, GroupStore(g))), to) == Queue(s.mail, to))
  {
    GroupStepQueue(c, s, g, now, to);
  }
}
