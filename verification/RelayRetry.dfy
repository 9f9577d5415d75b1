/** Repeating a group store that was interrupted, on whatever the relay has become by then: it has been
    started again, which sweeps every store, and may have died, swept and served others since. */
module RelayRetry {
  import opened JsText
  import opened RelayTypes
  import opened RelayMail
  import opened RelayMailLaws
  import opened RelayFanOut
  import opened RelayGroups
  import opened RelayMachine
  import opened RelayGroupLaws
  import opened RelayMailRuns
  import opened RelayCrash
  import opened RelayCrashRuns
  import opened RelayWrites

  type Turn = RelayCrashRuns.Turn

  // ----- what happens until the repeat -----

  function AfterAll(c: Config, s: State, turns: seq<Turn>): State {
    if turns == [] then s else TurnState(c, AfterAll(c, s, turns[..|turns| - 1]), turns[|turns| - 1])
  }

  function ClockAt(now: int, turns: seq<Turn>): int {
    if turns == [] then now else turns[|turns| - 1].entry.now
  }

  ghost predicate CanFollow(c: Config, s: State, turn: Turn) {
    turn.Died? ==> Between(c, s, turn.entry, turn.left)
  }

  /** Requests, sweeps and deaths from this state on, in the order of the clock. */
  ghost predicate Continues(c: Config, s: State, now: int, turns: seq<Turn>) {
    turns == [] ||
    var front, last := turns[..|turns| - 1], turns[|turns| - 1];
    Continues(c, s, now, front) && ClockAt(now, front) <= last.entry.now && CanFollow(c, AfterAll(c, s, front), last)
  }

  lemma {:induction false} ClockAdvances(c: Config, s: State, now: int, turns: seq<Turn>)
    requires Continues(c, s, now, turns)
    ensures now <= ClockAt(now, turns)
  {
    if turns != [] { ClockAdvances(c, s, now, turns[..|turns| - 1]); }
  }

  // ----- whether the repeat is admitted -----

  /** The group is unknown, or its tombstone has been outlived, or it is active and within its lifetime. */
  predicate Open(c: Config, gs: Groups, g: Str, at: int) {
    g in gs ==>
      if gs[g].Active? then at <= gs[g].updatedAtMs + c.groupTtlSeconds * 1000
      else gs[g].expiredAtMs + c.groupTombstoneTtlSeconds * 1000 < at
  }

  /** No request of this turn is about the group. */
  predicate Elsewhere(turn: Turn, g: Str) {
    (turn.entry.event.GroupStore? ==> turn.entry.event.group.groupId != g) &&
    (turn.entry.event.Update? ==> turn.entry.event.update.groupId != g)
  }

  ghost predicate AllElsewhere(turns: seq<Turn>, g: Str) {
    forall i :: 0 <= i < |turns| ==> Elsewhere(turns[i], g)
  }

  /** If the group is active, sender and recipients are members. */
  predicate FitsRecord(m: Option<Membership>, group: GroupStoreRequest) {
    m.Some? && m.value.Active? ==> group.from in m.value.members && Elements(Recipients(group)) <= m.value.members
  }

  lemma CrashFits(c: Config, s: State, group: GroupStoreRequest, now: int, crash: State)
    requires GroupVerdict(c, s, group, now) == Accepted
    requires InterruptedGroups(c, s.groups, group, now, crash.groups)
    ensures FitsRecord(Lookup(crash.groups, group.groupId), group)
  {
    var g := group.groupId;
    assert Lookup(SweepGroups(s.groups, c, now), g) == Swept(Lookup(s.groups, g), c, now);
  }

  lemma TurnFits(c: Config, s: State, s': State, turn: Turn, group: GroupStoreRequest)
    requires s' == TurnState(c, s, turn) && CanFollow(c, s, turn) && Elsewhere(turn, group.groupId)
    requires FitsRecord(Lookup(s.groups, group.groupId), group)
    ensures FitsRecord(Lookup(s'.groups, group.groupId), group)
  {
    StepGroup(c, s, turn.entry, group.groupId);
    if turn.Died? { assert BetweenGroup(c, s, turn.entry, turn.left.groups, group.groupId); }
  }

  lemma {:induction false} StillFits(c: Config, s: State, now: int, turns: seq<Turn>, group: GroupStoreRequest)
    requires Continues(c, s, now, turns) && AllElsewhere(turns, group.groupId)
    requires FitsRecord(Lookup(s.groups, group.groupId), group)
    ensures FitsRecord(Lookup(AfterAll(c, s, turns).groups, group.groupId), group)
  {
    if turns != [] {
      var n := |turns| - 1;
      StillFits(c, s, now, turns[..n], group);
      TurnFits(c, AfterAll(c, s, turns[..n]), AfterAll(c, s, turns), turns[n], group);
    }
  }

  lemma FittingVerdict(c: Config, u: State, group: GroupStoreRequest, later: int)
    requires GroupSigned(c, group) && FitsRecord(Lookup(u.groups, group.groupId), group)
    ensures GroupVerdict(c, u, group, later) ==
      if Open(c, u.groups, group.groupId, later) then Accepted else Refused(409)
  {
    var g := group.groupId;
    assert Lookup(SweepGroups(u.groups, c, later), g) == Swept(Lookup(u.groups, g), c, later);
  }

  /** Whatever has happened elsewhere since the crash, the repeat is accepted exactly if the group is open
      by then, and otherwise refused as expired. */
  lemma RepeatIsAdmittedIff(c: Config, s: State, group: GroupStoreRequest, now: int, crash: State, turns: seq<Turn>,
                            later: int)
    requires GroupVerdict(c, s, group, now) == Accepted
    requires InterruptedGroups(c, s.groups, group, now, crash.groups)
    requires Continues(c, crash, now, turns) && AllElsewhere(turns, group.groupId)
    ensures var u := AfterAll(c, crash, turns);
      GroupVerdict(c, u, group, later) == if Open(c, u.groups, group.groupId, later) then Accepted else Refused(409)
  {
    CrashFits(c, s, group, now, crash);
    StillFits(c, crash, now, turns, group);
    FittingVerdict(c, AfterAll(c, crash, turns), group, later);
  }

  // ----- what an accepted repeat leaves -----

  /** In any state without repeated ids an accepted group store leaves each recipient with a tombstone or
      exactly one copy. */
  lemma AcceptedSettles(c: Config, u: State, group: GroupStoreRequest, later: int, to: Str)
    requires GroupVerdict(c, u, group, later) == Accepted && AllDistinct(u.mail)
    ensures var m := StepMail(c, u, At(later, GroupStore(group)));
      AllDistinct(m) &&
      (to in Recipients(group) ==> EnvelopeKey(to, group.id) in m.acked || group.id in Ids(Queue(m, to)))
  {
    StepKeepsDistinct(c, u, At(later, GroupStore(group)));
    GroupStoreQueue(c, u.mail, group, true, later, to);
    FanOutKeepsAcks(SweepAcks(u.mail, c, later), c, Recipients(group), FanOutEnvelope(group), later);
  }

  lemma {:induction false} TurnsKeepDistinct(c: Config, s: State, now: int, turns: seq<Turn>)
    requires AllDistinct(s.mail) && Continues(c, s, now, turns)
    ensures AllDistinct(AfterAll(c, s, turns).mail)
  {
    if turns != [] {
      var n := |turns| - 1;
      var before := AfterAll(c, s, turns[..n]);
      TurnsKeepDistinct(c, s, now, turns[..n]);
      if turns[n].Ran? {
        StepKeepsDistinct(c, before, turns[n].entry);
      } else {
        BetweenKeepsDistinct(c, before, turns[n].entry, turns[n].left.mail);
      }
    }
  }

  // ----- the messages, as if the first attempt had completed -----

  /** What a queue holds at this cutoff, for a recipient in question the repeated message aside. */
  function Rest(q: seq<Item>, cutoff: int, id: Str, aside: bool): seq<Item> {
    if aside then Dropping(Live(q, cutoff), id) else Live(q, cutoff)
  }

  lemma RestLater(q: seq<Item>, q': seq<Item>, early: int, late: int, id: Str, aside: bool)
    requires early <= late && Rest(q, early, id, aside) == Rest(q', early, id, aside)
    ensures Rest(q, late, id, aside) == Rest(q', late, id, aside)
  {
    LiveTwice(q, early, late);
    LiveTwice(q', early, late);
    LiveDropping(Live(q, early), late, id);
    LiveDropping(Live(q', early), late, id);
  }

  lemma RestOfLive(q: seq<Item>, cutoff: int, id: Str, aside: bool)
    ensures Rest(Live(q, cutoff), cutoff, id, aside) == Rest(q, cutoff, id, aside)
  {
    LiveTwice(q, cutoff, cutoff);
  }

  lemma RestOfDropped(q: seq<Item>, cutoff: int, id: Str, aside: bool, x: Str)
    ensures Rest(Dropping(q, x), cutoff, id, aside) == Dropping(Rest(q, cutoff, id, aside), x)
  {
    LiveDropping(q, cutoff, x);
    DroppingsCommute(Live(q, cutoff), x, id);
  }

  lemma RestOfServed(q: seq<Item>, c: Config, now: int, id: Str, aside: bool, env: Envelope)
    ensures var rest, item := Rest(q, Cutoff(c, now), id, aside), Item(env, now);
      Rest(Served(q, Cutoff(c, now), env, now), Cutoff(c, now), id, aside) ==
        if (aside && env.id == id) || env.id in Ids(rest) || now < Cutoff(c, now) then rest else rest + [item]
  {
    var live, item := Live(q, Cutoff(c, now)), Item(env, now);
    LiveTwice(q, Cutoff(c, now), Cutoff(c, now));
    LiveAppend(live, item, Cutoff(c, now));
    DroppingAppend(live, item, id);
    assert live + [] == live && Dropping(live, id) + [] == Dropping(live, id);
  }

  /** Queues alike stay alike under one move. */
  lemma RestMoves(q: seq<Item>, q': seq<Item>, c: Config, move: QueueMove, now: int, id: Str, aside: bool)
    requires Rest(q, Cutoff(c, now), id, aside) == Rest(q', Cutoff(c, now), id, aside)
    ensures Rest(ApplyMove(q, c, move, now), Cutoff(c, now), id, aside) ==
      Rest(ApplyMove(q', c, move, now), Cutoff(c, now), id, aside)
  {
    match move
    case Keep =>
    case Filter =>
      RestOfLive(q, Cutoff(c, now), id, aside);
      RestOfLive(q', Cutoff(c, now), id, aside);
    case Drop(x) =>
      RestOfDropped(q, Cutoff(c, now), id, aside, x);
      RestOfDropped(q', Cutoff(c, now), id, aside, x);
    case Serve(env) =>
      RestOfServed(q, c, now, id, aside, env);
      RestOfServed(q', c, now, id, aside, env);
  }

  ghost predicate QueueAlike(c: Config, m: Mail, m': Mail, id: Str, aside: set<Str>, at: int, to: Str) {
    Rest(Queue(m, to), Cutoff(c, at), id, to in aside) == Rest(Queue(m', to), Cutoff(c, at), id, to in aside)
  }

  /** The same messages wherever they are not expired, the one aside, and the same tombstones in force. */
  ghost predicate Alike(c: Config, m: Mail, m': Mail, id: Str, aside: set<Str>, at: int) {
    (forall to :: QueueAlike(c, m, m', id, aside, at, to)) && SweepAcks(m, c, at).acked == SweepAcks(m', c, at).acked
  }

  lemma AlikeLater(c: Config, m: Mail, m': Mail, id: Str, aside: set<Str>, at: int, later: int)
    requires Alike(c, m, m', id, aside, at) && at <= later
    ensures Alike(c, m, m', id, aside, later)
  {
    forall to ensures QueueAlike(c, m, m', id, aside, later, to) {
      assert QueueAlike(c, m, m', id, aside, at, to);
      RestLater(Queue(m, to), Queue(m', to), Cutoff(c, at), Cutoff(c, later), id, to in aside);
    }
    SweptAgain(c, m, at, later);
    SweptAgain(c, m', at, later);
  }

  lemma SweptAgain(c: Config, m: Mail, at: int, later: int)
    requires at <= later
    ensures SweepAcks(SweepAcks(m, c, at), c, later).acked == SweepAcks(m, c, later).acked
  {
  }

  // ----- the crash and the completion are alike -----

  /** Recipients whose queues the first attempt was to change. */
  function Served?(c: Config, s: State, group: GroupStoreRequest, now: int): set<Str> {
    set to | to in Recipients(group) && EnvelopeKey(to, group.id) !in SweepAcks(s.mail, c, now).acked
  }

  lemma StageRest(q: seq<Item>, q': seq<Item>, c: Config, env: Envelope, now: int)
    requires Stage(q, q', c, env, now)
    ensures Rest(q', Cutoff(c, now), env.id, true) == Rest(q, Cutoff(c, now), env.id, true)
  {
    RestOfLive(q, Cutoff(c, now), env.id, true);
    RestOfServed(q, c, now, env.id, true, env);
  }

  lemma InterruptedAlike(c: Config, s: State, group: GroupStoreRequest, now: int, crash: Mail)
    requires Interrupted(s.mail, c, Recipients(group), FanOutEnvelope(group), now, crash)
    ensures Alike(c, crash, s.mail, group.id, Served?(c, s, group, now), now)
  {
    var rs, env := Recipients(group), FanOutEnvelope(group);
    AscendingHasNoRepeats(rs);
    forall to ensures QueueAlike(c, crash, s.mail, group.id, Served?(c, s, group, now), now, to) {
      InterruptedQueue(s.mail, c, rs, env, now, crash, to);
      StageRest(Queue(s.mail, to), Queue(crash, to), c, env.(to := to), now);
    }
    InterruptedQueue(s.mail, c, rs, env, now, crash, []);
    SweptLater(s.mail, c, now, crash, now);
  }

  lemma CrashAlike(c: Config, s: State, group: GroupStoreRequest, now: int, crash: State)
    requires GroupVerdict(c, s, group, now) == Accepted && GroupStoreCrash(c, s, group, now, crash)
    ensures Alike(c, crash.mail, Finished(c, s, group, now).mail, group.id, Served?(c, s, group, now), now)
  {
    CompletionIsAnInterruption(s.mail, c, Recipients(group), FanOutEnvelope(group), now);
    InterruptedAlike(c, s, group, now, crash.mail);
    InterruptedAlike(c, s, group, now, Finished(c, s, group, now).mail);
    AlikeJoin(c, crash.mail, s.mail, Finished(c, s, group, now).mail, group.id, Served?(c, s, group, now), now);
  }

  lemma AlikeJoin(c: Config, a: Mail, m: Mail, b: Mail, id: Str, aside: set<Str>, at: int)
    requires Alike(c, a, m, id, aside, at) && Alike(c, b, m, id, aside, at)
    ensures Alike(c, a, b, id, aside, at)
  {
    forall to ensures QueueAlike(c, a, b, id, aside, at, to) {
      assert QueueAlike(c, a, m, id, aside, at, to) && QueueAlike(c, b, m, id, aside, at, to);
    }
  }

  // ----- turns keep two states alike -----

  /** Sweeps and fetches only drop what has expired. */
  predicate Filters(event: Event) {
    event.Sweep? || event.Fetch?
  }

  /** The same request in two states. It ran to its end in both, or only drops what has expired; a group
      store gets the same answer. */
  ghost predicate Comparable(c: Config, u: State, x: Turn, u': State, y: Turn) {
    x.entry == y.entry && (x.Died? || y.Died? ==> Filters(x.entry.event)) &&
    (x.entry.event.GroupStore? ==>
      GroupVerdict(c, u, x.entry.event.group, x.entry.now) == GroupVerdict(c, u', x.entry.event.group, x.entry.now))
  }

  lemma FilteredIs(c: Config, u: State, x: Turn, to: Str)
    requires CanFollow(c, u, x) && Filters(x.entry.event)
    ensures var q, q' := Queue(u.mail, to), Queue(TurnState(c, u, x).mail, to);
      q' == q || q' == Live(q, Cutoff(c, x.entry.now))
  {
    if x.Died? { assert BetweenQueue(c, u, x.entry, x.left.mail, to); } else { StepQueue(c, u, x.entry, to); }
  }

  lemma FilteredQueue(c: Config, u: State, x: Turn, id: Str, aside: bool, to: Str)
    requires CanFollow(c, u, x) && Filters(x.entry.event)
    ensures Rest(Queue(TurnState(c, u, x).mail, to), Cutoff(c, x.entry.now), id, aside) ==
      Rest(Queue(u.mail, to), Cutoff(c, x.entry.now), id, aside)
  {
    FilteredIs(c, u, x, to);
    RestOfLive(Queue(u.mail, to), Cutoff(c, x.entry.now), id, aside);
  }

  lemma FilteredAcks(c: Config, u: State, x: Turn)
    requires CanFollow(c, u, x) && Filters(x.entry.event)
    ensures SweepAcks(TurnState(c, u, x).mail, c, x.entry.now).acked == SweepAcks(u.mail, c, x.entry.now).acked
  {
    var at, left := x.entry.now, TurnState(c, u, x).mail;
    forall key ensures TombstoneAt(SweepAcks(left, c, at), key) == TombstoneAt(SweepAcks(u.mail, c, at), key) {
      StepAcked(c, u, x.entry, key);
      if x.Died? { assert BetweenTombstone(c, u, x.entry, left, key); }
    }
    SameTombstones(SweepAcks(left, c, at), SweepAcks(u.mail, c, at));
  }

  lemma SameTombstones(m: Mail, m': Mail)
    requires forall key :: TombstoneAt(m, key) == TombstoneAt(m', key)
    ensures m.acked == m'.acked
  {
    forall key ensures key in m.acked <==> key in m'.acked {
      assert TombstoneAt(m, key) == TombstoneAt(m', key);
    }
    forall key | key in m.acked ensures m.acked[key] == m'.acked[key] {
      assert TombstoneAt(m, key) == TombstoneAt(m', key);
    }
  }

  /** The tombstones in force after a step. */
  lemma SteppedAcks(c: Config, u: State, entry: RelayMachine.Entry)
    ensures SweepAcks(StepMail(c, u, entry), c, entry.now).acked ==
      match entry.event
      case Ack(a) =>
        if AckSigned(c, a) then SweepAcks(AckMark(u.mail, c, a.to, a.id, entry.now), c, entry.now).acked
        else SweepAcks(u.mail, c, entry.now).acked
      case _ => SweepAcks(u.mail, c, entry.now).acked
  {
    var at := entry.now;
    if entry.event.Ack? {
      AckEffect(u.mail, c, entry.event.ack.to, entry.event.ack.id, at, []);
    } else {
      forall key
        ensures TombstoneAt(SweepAcks(StepMail(c, u, entry), c, at), key) == TombstoneAt(SweepAcks(u.mail, c, at), key)
      {
        StepAcked(c, u, entry, key);
      }
      SameTombstones(SweepAcks(StepMail(c, u, entry), c, at), SweepAcks(u.mail, c, at));
    }
  }

  lemma MarksAlike(c: Config, m: Mail, m': Mail, to: Str, id: Str, at: int)
    requires SweepAcks(m, c, at).acked == SweepAcks(m', c, at).acked
    ensures SweepAcks(AckMark(m, c, to, id, at), c, at).acked == SweepAcks(AckMark(m', c, to, id, at), c, at).acked
  {
    var n, n' := SweepAcks(AckMark(m, c, to, id, at), c, at), SweepAcks(AckMark(m', c, to, id, at), c, at);
    forall key ensures TombstoneAt(n, key) == TombstoneAt(n', key) {
      assert TombstoneAt(SweepAcks(m, c, at), key) == TombstoneAt(SweepAcks(m', c, at), key);
    }
    SameTombstones(n, n');
  }

  lemma SameMove(c: Config, u: State, u': State, entry: RelayMachine.Entry, to: Str)
    requires SweepAcks(u.mail, c, entry.now).acked == SweepAcks(u'.mail, c, entry.now).acked
    requires entry.event.GroupStore? ==>
      GroupVerdict(c, u, entry.event.group, entry.now) == GroupVerdict(c, u', entry.event.group, entry.now)
    ensures MoveOf(c, u, entry, to) == MoveOf(c, u', entry, to)
  {
  }

  lemma StepsAlike(c: Config, u: State, u': State, entry: RelayMachine.Entry, id: Str, aside: set<Str>)
    requires Alike(c, u.mail, u'.mail, id, aside, entry.now)
    requires entry.event.GroupStore? ==>
      GroupVerdict(c, u, entry.event.group, entry.now) == GroupVerdict(c, u', entry.event.group, entry.now)
    ensures Alike(c, StepMail(c, u, entry), StepMail(c, u', entry), id, aside, entry.now)
  {
    forall to ensures QueueAlike(c, StepMail(c, u, entry), StepMail(c, u', entry), id, aside, entry.now, to) {
      assert QueueAlike(c, u.mail, u'.mail, id, aside, entry.now, to);
      StepQueue(c, u, entry, to);
      StepQueue(c, u', entry, to);
      SameMove(c, u, u', entry, to);
      RestMoves(Queue(u.mail, to), Queue(u'.mail, to), c, MoveOf(c, u, entry, to), entry.now, id, to in aside);
    }
    SteppedAcks(c, u, entry);
    SteppedAcks(c, u', entry);
    if entry.event.Ack? { MarksAlike(c, u.mail, u'.mail, entry.event.ack.to, entry.event.ack.id, entry.now); }
  }

  lemma FiltersAlike(c: Config, u: State, x: Turn, u': State, y: Turn, id: Str, aside: set<Str>)
    requires Alike(c, u.mail, u'.mail, id, aside, x.entry.now) && x.entry == y.entry && Filters(x.entry.event)
    requires CanFollow(c, u, x) && CanFollow(c, u', y)
    ensures Alike(c, TurnState(c, u, x).mail, TurnState(c, u', y).mail, id, aside, x.entry.now)
  {
    forall to
      ensures QueueAlike(c, TurnState(c, u, x).mail, TurnState(c, u', y).mail, id, aside, x.entry.now, to)
    {
      assert QueueAlike(c, u.mail, u'.mail, id, aside, x.entry.now, to);
      FilteredQueue(c, u, x, id, to in aside, to);
      FilteredQueue(c, u', y, id, to in aside, to);
    }
    FilteredAcks(c, u, x);
    FilteredAcks(c, u', y);
  }

  ghost predicate Parallel(c: Config, s: State, xs: seq<Turn>, s': State, ys: seq<Turn>)
    decreases |xs|
  {
    |xs| == |ys| &&
    (xs == [] ||
     var n := |xs| - 1;
     Parallel(c, s, xs[..n], s', ys[..n]) &&
     Comparable(c, AfterAll(c, s, xs[..n]), xs[n], AfterAll(c, s', ys[..n]), ys[n]))
  }

  lemma TurnAlike(c: Config, u: State, x: Turn, u': State, y: Turn, id: Str, aside: set<Str>, at: int)
    requires Alike(c, u.mail, u'.mail, id, aside, at) && at <= x.entry.now
    requires CanFollow(c, u, x) && CanFollow(c, u', y) && Comparable(c, u, x, u', y)
    ensures Alike(c, TurnState(c, u, x).mail, TurnState(c, u', y).mail, id, aside, x.entry.now)
  {
    AlikeLater(c, u.mail, u'.mail, id, aside, at, x.entry.now);
    if Filters(x.entry.event) {
      FiltersAlike(c, u, x, u', y, id, aside);
    } else {
      StepsAlike(c, u, u', x.entry, id, aside);
    }
  }

  lemma {:induction false} TurnsAlike(c: Config, s: State, xs: seq<Turn>, s': State, ys: seq<Turn>, now: int, id: Str,
                                      aside: set<Str>)
    requires Alike(c, s.mail, s'.mail, id, aside, now) && Parallel(c, s, xs, s', ys)
    requires Continues(c, s, now, xs) && Continues(c, s', now, ys)
    ensures Alike(c, AfterAll(c, s, xs).mail, AfterAll(c, s', ys).mail, id, aside, ClockAt(now, xs))
    decreases |xs|
  {
    if xs != [] {
      var n := |xs| - 1;
      TurnsAlike(c, s, xs[..n], s', ys[..n], now, id, aside);
      TurnAlike(c, AfterAll(c, s, xs[..n]), xs[n], AfterAll(c, s', ys[..n]), ys[n], id, aside, ClockAt(now, xs[..n]));
    }
  }

  // ----- crash and retry -----

  function Repeated(c: Config, u: State, group: GroupStoreRequest, later: int): Mail {
    StepMail(c, u, At(later, GroupStore(group)))
  }

  lemma CrashIsDistinct(c: Config, s: State, group: GroupStoreRequest, now: int, crash: State)
    requires GroupVerdict(c, s, group, now) == Accepted && GroupStoreCrash(c, s, group, now, crash)
    requires AllDistinct(s.mail)
    ensures AllDistinct(crash.mail)
  {
    GroupStoreIsBetween(c, s, group, now, crash);
    BetweenKeepsDistinct(c, s, At(now, GroupStore(group)), crash.mail);
  }

  /** An accepted repeat, whatever has happened since the crash, settles every recipient: a tombstone or
      exactly one copy. A refused one leaves every queue as it was. */
  lemma RetrySettles(c: Config, s: State, group: GroupStoreRequest, now: int, crash: State, turns: seq<Turn>,
                     later: int, to: Str)
    requires GroupVerdict(c, s, group, now) == Accepted && GroupStoreCrash(c, s, group, now, crash)
    requires AllDistinct(s.mail) && Continues(c, crash, now, turns)
    ensures var u := AfterAll(c, crash, turns);
      var m := Repeated(c, u, group, later);
      if GroupVerdict(c, u, group, later) == Accepted then
        AllDistinct(m) &&
        (to in Recipients(group) ==> EnvelopeKey(to, group.id) in m.acked || group.id in Ids(Queue(m, to)))
      else Queue(m, to) == Queue(u.mail, to)
  {
    CrashIsDistinct(c, s, group, now, crash);
    TurnsKeepDistinct(c, crash, now, turns);
    var u := AfterAll(c, crash, turns);
    if GroupVerdict(c, u, group, later) == Accepted {
      AcceptedSettles(c, u, group, later, to);
    } else {
      RefusedRepeat(c, u, group, later, to);
    }
  }

  /** Two states alike, and the same group store accepted in both. */
  lemma RepeatsAlike(c: Config, u: State, v: State, group: GroupStoreRequest, later: int, aside: set<Str>, to: Str)
    requires Alike(c, u.mail, v.mail, group.id, aside, later) && aside <= Elements(Recipients(group))
    requires GroupVerdict(c, u, group, later) == Accepted == GroupVerdict(c, v, group, later)
    ensures var r, r' := Repeated(c, u, group, later), Repeated(c, v, group, later);
      r.acked == r'.acked && QueueAlike(c, r, r', group.id, aside, later, to) &&
      (to in Recipients(group) && EnvelopeKey(to, group.id) !in r.acked ==> Ids(Queue(r, to)) == Ids(Queue(r', to)))
  {
    var rs, env := Recipients(group), FanOutEnvelope(group);
    StepsAlike(c, u, v, At(later, GroupStore(group)), group.id, aside);
    FanOutKeepsAcks(SweepAcks(u.mail, c, later), c, rs, env, later);
    FanOutKeepsAcks(SweepAcks(v.mail, c, later), c, rs, env, later);
    GroupStoreQueue(c, u.mail, group, true, later, to);
    GroupStoreQueue(c, v.mail, group, true, later, to);
    assert QueueAlike(c, u.mail, v.mail, group.id, aside, later, to);
    RestIds(Queue(u.mail, to), Queue(v.mail, to), Cutoff(c, later), group.id, to in aside);
  }

  lemma RestIds(q: seq<Item>, q': seq<Item>, cutoff: int, id: Str, aside: bool)
    requires Rest(q, cutoff, id, aside) == Rest(q', cutoff, id, aside)
    ensures Ids(Live(q, cutoff)) + {id} == Ids(Live(q', cutoff)) + {id}
  {
    RestIdsOf(q, cutoff, id, aside);
    RestIdsOf(q', cutoff, id, aside);
  }

  lemma RestIdsOf(q: seq<Item>, cutoff: int, id: Str, aside: bool)
    ensures Ids(Rest(q, cutoff, id, aside)) + {id} == Ids(Live(q, cutoff)) + {id}
  {
    forall x | x in Ids(Live(q, cutoff)) && x != id ensures x in Ids(Rest(q, cutoff, id, aside)) {
      var item :| item in Live(q, cutoff) && item.envelope.id == x;
      assert item in Rest(q, cutoff, id, aside);
    }
    forall x | x in Ids(Rest(q, cutoff, id, aside)) ensures x in Ids(Live(q, cutoff)) {
      var item :| item in Rest(q, cutoff, id, aside) && item.envelope.id == x;
      assert item in Live(q, cutoff);
    }
  }

  /** Crash and retry against completion and retry, after whatever requests, restarts, sweeps and further
      deaths in sweeps came in between, the same requests with the same answers in both. If the repeat is
      accepted in both, the tombstones are the same; every recipient without one has the same messages,
      the repeated one included; every queue has the same unexpired messages in the same order, the
      repeated one aside where the first attempt was to deliver it. */
  lemma RetryConverges(c: Config, s: State, group: GroupStoreRequest, now: int, crash: State, xs: seq<Turn>,
                       ys: seq<Turn>, later: int, to: Str)
    requires GroupVerdict(c, s, group, now) == Accepted && GroupStoreCrash(c, s, group, now, crash)
    requires Continues(c, crash, now, xs) && Continues(c, Finished(c, s, group, now), now, ys)
    requires Parallel(c, crash, xs, Finished(c, s, group, now), ys) && ClockAt(now, xs) <= later
    ensures var u, v := AfterAll(c, crash, xs), AfterAll(c, Finished(c, s, group, now), ys);
      GroupVerdict(c, u, group, later) == Accepted == GroupVerdict(c, v, group, later) ==>
        var r, r' := Repeated(c, u, group, later), Repeated(c, v, group, later);
        r.acked == r'.acked && QueueAlike(c, r, r', group.id, Served?(c, s, group, now), later, to) &&
        (to in Recipients(group) && EnvelopeKey(to, group.id) !in r.acked ==> Ids(Queue(r, to)) == Ids(Queue(r', to)))
  {
    var full, aside := Finished(c, s, group, now), Served?(c, s, group, now);
    var u, v := AfterAll(c, crash, xs), AfterAll(c, full, ys);
    CrashAlike(c, s, group, now, crash);
    TurnsAlike(c, crash, xs, full, ys, now, group.id, aside);
    AlikeLater(c, u.mail, v.mail, group.id, aside, ClockAt(now, xs), later);
    if GroupVerdict(c, u, group, later) == Accepted == GroupVerdict(c, v, group, later) {
      RepeatsAlike(c, u, v, group, later, aside, to);
    }
  }

  // ----- the sweep of the start and then the repeat -----

  /** The relay has been started again: the first thing it does is to sweep. */
  function Restarted(c: Config, s: State, boot: int): State {
    Step(c, s, At(boot, Sweep))
  }

  lemma RestartTurn(c: Config, s: State, now: int, boot: int)
    requires now <= boot
    ensures var xs := [Ran(At(boot, Sweep))];
      Continues(c, s, now, xs) && AfterAll(c, s, xs) == Restarted(c, s, boot) && ClockAt(now, xs) == boot
  {
    var xs: seq<Turn> := [Ran(At(boot, Sweep))];
    assert xs[..0] == [] && Continues(c, s, now, xs[..0]);
  }

  /** When only that sweep comes in between, every queue ends with the same messages. */
  lemma RestartConverges(c: Config, s: State, group: GroupStoreRequest, now: int, crash: State, boot: int, later: int,
                         to: Str)
    requires GroupVerdict(c, s, group, now) == Accepted && GroupStoreCrash(c, s, group, now, crash)
    requires now <= boot <= later
    ensures var u, v := Restarted(c, crash, boot), Restarted(c, Finished(c, s, group, now), boot);
      GroupVerdict(c, u, group, later) == Accepted == GroupVerdict(c, v, group, later) ==>
        Repeated(c, u, group, later).acked == Repeated(c, v, group, later).acked &&
        Ids(Queue(Repeated(c, u, group, later), to)) == Ids(Queue(Repeated(c, v, group, later), to))
  {
    var full := Finished(c, s, group, now);
    var u, v := Restarted(c, crash, boot), Restarted(c, full, boot);
    if GroupVerdict(c, u, group, later) == Accepted == GroupVerdict(c, v, group, later) {
      RestartTurn(c, crash, now, boot);
      RestartTurn(c, full, now, boot);
      RestartsParallel(c, crash, full, boot);
      RetryConverges(c, s, group, now, crash, [Ran(At(boot, Sweep))], [Ran(At(boot, Sweep))], later, to);
      if to !in Recipients(group) || EnvelopeKey(to, group.id) in Repeated(c, u, group, later).acked {
        RestartedQueues(c, s, group, now, crash, boot, later, to);
      }
    }
  }

  lemma RestartsParallel(c: Config, a: State, b: State, boot: int)
    ensures Parallel(c, a, [Ran(At(boot, Sweep))], b, [Ran(At(boot, Sweep))])
  {
    var xs: seq<Turn> := [Ran(At(boot, Sweep))];
    assert Parallel(c, a, xs[..0], b, xs[..0]);
  }

  /** Where the repeat serves nobody the queue is a swept one that the first attempt did not touch. */
  lemma RestartedQueues(c: Config, s: State, group: GroupStoreRequest, now: int, crash: State, boot: int, later: int,
                        to: Str)
    requires GroupVerdict(c, s, group, now) == Accepted && GroupStoreCrash(c, s, group, now, crash)
    requires now <= boot <= later
    requires GroupVerdict(c, Restarted(c, crash, boot), group, later) == Accepted
    requires GroupVerdict(c, Restarted(c, Finished(c, s, group, now), boot), group, later) == Accepted
    requires to !in Recipients(group) ||
             EnvelopeKey(to, group.id) in Repeated(c, Restarted(c, crash, boot), group, later).acked
    ensures Queue(Repeated(c, Restarted(c, crash, boot), group, later), to) ==
      Queue(Repeated(c, Restarted(c, Finished(c, s, group, now), boot), group, later), to)
  {
    RestartedQueue(c, s, group, now, crash, boot, later, to);
    FinishedIsCrash(c, s, group, now);
    RestartedQueue(c, s, group, now, Finished(c, s, group, now), boot, later, to);
  }

  lemma FinishedIsCrash(c: Config, s: State, group: GroupStoreRequest, now: int)
    requires GroupVerdict(c, s, group, now) == Accepted
    ensures GroupStoreCrash(c, s, group, now, Finished(c, s, group, now))
  {
    CompletionIsAnInterruption(s.mail, c, Recipients(group), FanOutEnvelope(group), now);
    CompletedIsInterrupted(c, s, group, now);
  }

  lemma RestartedQueue(c: Config, s: State, group: GroupStoreRequest, now: int, crash: State, boot: int, later: int,
                       to: Str)
    requires GroupVerdict(c, s, group, now) == Accepted && GroupStoreCrash(c, s, group, now, crash)
    requires now <= boot <= later
    requires GroupVerdict(c, Restarted(c, crash, boot), group, later) == Accepted
    ensures Repeated(c, Restarted(c, crash, boot), group, later).acked == SweepAcks(s.mail, c, later).acked
    ensures to !in Recipients(group) || EnvelopeKey(to, group.id) in SweepAcks(s.mail, c, later).acked ==>
      Queue(Repeated(c, Restarted(c, crash, boot), group, later), to) == Live(Queue(s.mail, to), Cutoff(c, boot))
  {
    RestartedMail(c, s.mail, group, now, crash.mail, boot, later, Repeated(c, Restarted(c, crash, boot), group, later),
                  to);
  }

  /** The same, on the mail alone. */
  lemma RestartedMail(c: Config, m: Mail, group: GroupStoreRequest, now: int, crash: Mail, boot: int, later: int,
                      r: Mail, to: Str)
    requires Interrupted(m, c, Recipients(group), FanOutEnvelope(group), now, crash) && now <= boot <= later
    requires r == GroupStoreMail(c, SweepMail(crash, c, boot), group, true, later)
    ensures r.acked == SweepAcks(m, c, later).acked
    ensures to !in Recipients(group) || EnvelopeKey(to, group.id) in SweepAcks(m, c, later).acked ==>
      Queue(r, to) == Live(Queue(m, to), Cutoff(c, boot))
  {
    var swept := SweepMail(crash, c, boot);
    AscendingHasNoRepeats(Recipients(group));
    InterruptedQueue(m, c, Recipients(group), FanOutEnvelope(group), now, crash, to);
    SweptRestart(c, m, crash, now, boot, later, to);
    FanOutKeepsAcks(SweepAcks(swept, c, later), c, Recipients(group), FanOutEnvelope(group), later);
    GroupStoreQueue(c, swept, group, true, later, to);
  }

  lemma SweptRestart(c: Config, m: Mail, crash: Mail, now: int, boot: int, later: int, to: Str)
    requires now <= boot <= later && SweepAcks(m, c, now).acked.Keys <= crash.acked.Keys <= m.acked.Keys
    requires forall k :: k in crash.acked ==> crash.acked[k] == m.acked[k]
    ensures SweepAcks(SweepMail(crash, c, boot), c, later).acked == SweepAcks(m, c, later).acked
    ensures Queue(SweepMail(crash, c, boot), to) == Live(Queue(crash, to), Cutoff(c, boot))
  {
    SweepMailEffect(crash, c, boot, to);
    SweptLater(m, c, now, crash, later);
    SweptAgain(c, crash, boot, later);
  }

  // ----- when a repeat comes too late -----

  /** The process died in the first group store of a group, was started again at `boot`, and the request
      is repeated later. While the record of the first attempt was in force at the start, the repeat is
      accepted until its lifetime is over; otherwise it is refused until the tombstone made at the start
      has been outlived, and then accepted again. */
  lemma RetryTimeline(c: Config, group: GroupStoreRequest, now: int, k: nat, boot: int, later: int)
    requires GroupSigned(c, group) && k <= |Recipients(group)| && now <= boot <= later
    ensures var u := Restarted(c, DiedAfter(c, group, now, k), boot);
      var end := now + c.groupTtlSeconds * 1000;
      GroupVerdict(c, EMPTY, group, now) == Accepted &&
      GroupStoreCrash(c, EMPTY, group, now, DiedAfter(c, group, now, k)) &&
      GroupVerdict(c, u, group, later) ==
        if boot <= end then (if later <= end then Accepted else Refused(409))
        else if boot + c.groupTombstoneTtlSeconds * 1000 < later then Accepted else Refused(409)
  {
    var crash, g := DiedAfter(c, group, now, k), group.groupId;
    assert SweepGroups(EMPTY.groups, c, now) == map[];
    DiedAfterIsCrash(c, group, now, k);
    RestartTurn(c, crash, now, boot);
    var xs: seq<Turn> := [Ran(At(boot, Sweep))];
    RepeatIsAdmittedIff(c, EMPTY, group, now, crash, xs, later);
    assert Lookup(crash.groups, g) == Some(Active(group.from, {group.from} + Elements(Recipients(group)), map[], now,
                                                  true));
    assert Lookup(Restarted(c, crash, boot).groups, g) == Swept(Lookup(crash.groups, g), c, boot);
  }

  lemma RestartedRecipient(c: Config, group: GroupStoreRequest, now: int, k: nat, boot: int, j: nat)
    requires j < |Recipients(group)| && k <= |Recipients(group)|
    ensures var m, to := SweepMail(DiedAfter(c, group, now, k).mail, c, boot), Recipients(group)[j];
      m.acked == map[] && (group.id in Ids(Queue(m, to)) <==> j < k && Cutoff(c, boot) <= now)
  {
    var crash, to := DiedAfter(c, group, now, k), Recipients(group)[j];
    DiedAfterQueue(c, group, now, k, j);
    SweepMailEffect(crash.mail, c, boot, to);
    LiveAppend([], Item(FanOutEnvelope(group).(to := to), now), Cutoff(c, boot));
  }

  /** A refused repeat helps nobody: recipients not served before the crash have neither a copy nor a
      tombstone, and those served have their copy until it expires. */
  lemma LateRepeatIsRefused(c: Config, group: GroupStoreRequest, now: int, k: nat, boot: int, later: int, j: nat)
    requires GroupSigned(c, group) && j < |Recipients(group)| && k <= |Recipients(group)| && now <= boot <= later
    requires var end := now + c.groupTtlSeconds * 1000;
      if boot <= end then end < later else later <= boot + c.groupTombstoneTtlSeconds * 1000
    ensures var u, to := Restarted(c, DiedAfter(c, group, now, k), boot), Recipients(group)[j];
      var m := Repeated(c, u, group, later);
      GroupVerdict(c, u, group, later) == Refused(409) && EnvelopeKey(to, group.id) !in m.acked &&
      (group.id in Ids(Queue(m, to)) <==> j < k && Cutoff(c, boot) <= now)
  {
    var crash, to := DiedAfter(c, group, now, k), Recipients(group)[j];
    var u := Restarted(c, crash, boot);
    RetryTimeline(c, group, now, k, boot, later);
    RefusedRepeat(c, u, group, later, to);
    RestartedRecipient(c, group, now, k, boot, j);
  }
}
