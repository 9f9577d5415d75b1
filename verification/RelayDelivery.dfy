/** What becomes of a message: it enters a queue as its sender signed it, stays there until it expires or
    is acknowledged, and successive fetches return each message once. */
module RelayDelivery {
  import opened JsText
  import opened RelayTypes
  import opened RelayMail
  import opened RelayMailLaws
  import opened RelayFanOut
  import opened RelayGroups
  import opened RelayMachine
  import opened RelayMailRuns
  import opened RelayCrashRuns

  type Turn = RelayCrashRuns.Turn

  // ----- the message enters a queue -----

  /** A tombstone for this recipient and message is in force. */
  predicate Tombstoned(c: Config, m: Mail, to: Str, id: Str, now: int) {
    var key := to + [124] + id;
    key in m.acked && now < if m.acked[key].expiresAtMs.Some? then m.acked[key].expiresAtMs.value
                            else m.acked[key].ackedAtMs + c.ackTtlSeconds * 1000
  }

  /** The recipient has an unexpired copy. */
  predicate HasCopy(c: Config, m: Mail, to: Str, id: Str, now: int) {
    exists x :: x in Queue(m, to) && x.envelope.id == id && now <= x.insertedAtMs + c.ttlSeconds * 1000
  }

  lemma TombstonedIff(c: Config, m: Mail, to: Str, id: Str, now: int)
    ensures Tombstoned(c, m, to, id, now) <==> EnvelopeKey(to, id) in SweepAcks(m, c, now).acked
  {
  }

  lemma HasCopyIff(c: Config, m: Mail, to: Str, id: Str, now: int)
    ensures HasCopy(c, m, to, id, now) <==> id in Ids(Live(Queue(m, to), Cutoff(c, now)))
  {
    if id in Ids(Live(Queue(m, to), Cutoff(c, now))) {
      var x :| x in Live(Queue(m, to), Cutoff(c, now)) && x.envelope.id == id;
      assert x in Queue(m, to);
    }
    if x :| x in Queue(m, to) && x.envelope.id == id && now <= x.insertedAtMs + c.ttlSeconds * 1000 {
      assert x in Live(Queue(m, to), Cutoff(c, now));
    }
  }

  /** A store puts the envelope into its recipient's queue, whole and at the end, exactly if the sender's
      key signed it and the recipient has neither a tombstone nor a copy; nothing else enters a queue. */
  lemma StorePuts(c: Config, s: State, env: Envelope, now: int, to: Str)
    ensures var m := StepMail(c, s, At(now, Store(env)));
      var put := env.to == to && !Tombstoned(c, s.mail, to, env.id, now) && !HasCopy(c, s.mail, to, env.id, now) &&
        c.verify(EnvelopeText(env.id, env.from, env.to, env.ts, env.ttl, env.payload), env.sig, env.signingPub);
      if put then |Queue(m, to)| > 0 && Queue(m, to)[|Queue(m, to)| - 1] == Item(env, now)
      else forall x :: x in Queue(m, to) ==> x in Queue(s.mail, to)
  {
    StoreStepQueue(c, s, env, now, to);
    ServedEnds(Queue(s.mail, to), Cutoff(c, now), env, now);
    TombstonedIff(c, s.mail, to, env.id, now);
    HasCopyIff(c, s.mail, to, env.id, now);
  }

  /** The copy that a group request makes for one recipient. */
  predicate IsCopy(x: Item, g: GroupStoreRequest, to: Str, now: int) {
    var e := x.envelope;
    x.insertedAtMs == now && e.id == g.id && e.from == g.from && e.to == to && e.groupId == Some(g.groupId) &&
    e.recipients == Recipients(g) && e.ts == g.ts && e.ttl == g.ttl && e.payload == g.payload && e.sig == g.sig &&
    e.signingPub == g.signingPub
  }

  lemma CopyIs(g: GroupStoreRequest, to: Str, now: int)
    ensures IsCopy(Item(FanOutEnvelope(g).(to := to), now), g, to, now)
  {
  }

  lemma ServedEnds(q: seq<Item>, cutoff: int, env: Envelope, now: int)
    ensures var r := Served(q, cutoff, env, now);
      if env.id in Ids(Live(q, cutoff)) then forall x :: x in r ==> x in q
      else |r| > 0 && r[|r| - 1] == Item(env, now)
  {
  }

  /** The copy belongs into the queue. */
  ghost predicate IsDue(c: Config, s: State, g: GroupStoreRequest, now: int, to: Str) {
    GroupVerdict(c, s, g, now) == Accepted && to in Recipients(g) && !Tombstoned(c, s.mail, to, g.id, now) &&
    !HasCopy(c, s.mail, to, g.id, now)
  }

  lemma GroupMove(c: Config, s: State, g: GroupStoreRequest, now: int, to: Str, move: QueueMove)
    requires move == MoveOf(c, s, At(now, GroupStore(g)), to)
    ensures move == Keep || move == Serve(FanOutEnvelope(g).(to := to))
    ensures IsDue(c, s, g, now, to) ==> move.Serve?
    ensures move.Serve? ==> (IsDue(c, s, g, now, to) <==> g.id !in Ids(Live(Queue(s.mail, to), Cutoff(c, now))))
  {
    TombstonedIff(c, s.mail, to, g.id, now);
    HasCopyIff(c, s.mail, to, g.id, now);
  }

  /** An accepted group store puts such a copy into the queue of each recipient that has neither a
      tombstone nor a copy, and nothing else into any queue. */
  lemma GroupStorePuts(c: Config, s: State, g: GroupStoreRequest, now: int, to: Str)
    ensures var q := Queue(StepMail(c, s, At(now, GroupStore(g))), to);
      if IsDue(c, s, g, now, to) then |q| > 0 && IsCopy(q[|q| - 1], g, to, now)
      else forall x :: x in q ==> x in Queue(s.mail, to)
  {
    var move := MoveOf(c, s, At(now, GroupStore(g)), to);
    GroupMove(c, s, g, now, to, move);
    GroupStepQueue(c, s, g, now, to);
    if move.Serve? { ServedEnds(Queue(s.mail, to), Cutoff(c, now), move.env, now); }
    CopyIs(g, to, now);
  }

  // ----- it stays until it expires or is acknowledged -----

  predicate Acknowledges(c: Config, entry: RelayMachine.Entry, to: Str, id: Str) {
    entry.event.Ack? && entry.event.ack.to == to && entry.event.ack.id == id &&
    c.verify(AckText(id, entry.event.ack.from, to, entry.event.ack.ts), entry.event.ack.sig, entry.event.ack.signingPub)
  }

  /** A signed ACK takes every copy of the message out of its recipient's queue and leaves a tombstone for
      the lifetime of tombstones; an unsigned one changes nothing. */
  lemma AckAnswer(c: Config, s: State, a: AckRequest, now: int, to: Str)
    ensures var m := StepMail(c, s, At(now, Ack(a)));
      if c.verify(AckText(a.id, a.from, a.to, a.ts), a.sig, a.signingPub) then
        m.acked ==
          s.mail.acked[a.to + [124] + a.id := Tombstone(a.to, a.id, now, Some(now + c.ackTtlSeconds * 1000))] &&
        forall x :: x in Queue(m, to) <==> x in Queue(s.mail, to) && !(to == a.to && x.envelope.id == a.id)
      else m == s.mail
  {
    AckEffect(s.mail, c, a.to, a.id, now, to);
  }

  /** No ACK of the message in these turns, answered or cut short. */
  ghost predicate NoAck(c: Config, turns: seq<Turn>, i: nat, j: nat, to: Str, id: Str)
    requires i <= j <= |turns|
  {
    forall k :: i <= k < j ==> !Acknowledges(c, turns[k].entry, to, id)
  }

  lemma MoveKeepsItem(c: Config, s: State, entry: RelayMachine.Entry, to: Str, x: Item)
    requires x in Queue(s.mail, to) && !Acknowledges(c, entry, to, x.envelope.id)
    requires entry.now <= x.insertedAtMs + c.ttlSeconds * 1000
    ensures x in ApplyMove(Queue(s.mail, to), c, MoveOf(c, s, entry, to), entry.now)
    ensures x in Live(Queue(s.mail, to), Cutoff(c, entry.now))
  {
  }

  lemma TurnKeepsItem(c: Config, s: State, turn: Turn, to: Str, x: Item)
    requires x in Queue(s.mail, to) && !Acknowledges(c, turn.entry, to, x.envelope.id)
    requires turn.entry.now <= x.insertedAtMs + c.ttlSeconds * 1000
    requires turn.Died? ==> Between(c, s, turn.entry, turn.left)
    ensures x in Queue(TurnState(c, s, turn).mail, to)
  {
    MoveKeepsItem(c, s, turn.entry, to, x);
    StepQueue(c, s, turn.entry, to);
    if turn.Died? { assert BetweenQueue(c, s, turn.entry, turn.left.mail, to); }
  }

  lemma StaysOne(c: Config, turns: seq<Turn>, k: nat, to: Str, x: Item)
    requires Possible(c, turns) && k < |turns| && x in Queue(AfterTurns(c, turns[..k]).mail, to)
    requires !Acknowledges(c, turns[k].entry, to, x.envelope.id)
    requires turns[k].entry.now <= x.insertedAtMs + c.ttlSeconds * 1000
    ensures x in Queue(AfterTurns(c, turns[..k + 1]).mail, to)
  {
    AfterTurn(c, turns, k);
    assert CanHappen(c, turns, k);
    TurnKeepsItem(c, AfterTurns(c, turns[..k]), turns[k], to, x);
  }

  lemma {:induction false} StaysQueued(c: Config, turns: seq<Turn>, i: nat, j: nat, to: Str, x: Item)
    requires Possible(c, turns) && i <= j <= |turns| && x in Queue(AfterTurns(c, turns[..i]).mail, to)
    requires NoAck(c, turns, i, j, to, x.envelope.id)
    requires forall k :: i <= k < j ==> turns[k].entry.now <= x.insertedAtMs + c.ttlSeconds * 1000
    ensures x in Queue(AfterTurns(c, turns[..j]).mail, to)
    decreases j
  {
    if i < j {
      StaysQueued(c, turns, i, j - 1, to, x);
      StaysOne(c, turns, j - 1, to, x);
    }
  }

  /** The queue a fetch pages through. */
  function ReadBy(c: Config, s: State, to: Str, now: int): seq<Item> {
    Queue(StepMail(c, s, At(now, Fetch(to, None, None))), to)
  }

  lemma ReadIff(c: Config, s: State, to: Str, now: int, x: Item)
    ensures x in ReadBy(c, s, to, now) <==>
      x in Queue(s.mail, to) && now <= x.insertedAtMs + c.ttlSeconds * 1000
  {
    SweepQueueEffect(s.mail, c, to, now, to);
  }

  /** Over any run with crashes: a queued message that is not acknowledged is in the queue that a fetch
      reads exactly until the time to live of the relay is over. */
  lemma QueuedUntilExpiry(c: Config, turns: seq<Turn>, i: nat, j: nat, to: Str, x: Item)
    requires Possible(c, turns) && ClockRuns(turns) && i <= j < |turns|
    requires x in Queue(AfterTurns(c, turns[..i]).mail, to) && NoAck(c, turns, i, j, to, x.envelope.id)
    ensures var now := turns[j].entry.now;
      x in ReadBy(c, AfterTurns(c, turns[..j]), to, now) <==> now <= x.insertedAtMs + c.ttlSeconds * 1000
  {
    var now := turns[j].entry.now;
    if now <= x.insertedAtMs + c.ttlSeconds * 1000 { StaysQueued(c, turns, i, j, to, x); }
    ReadIff(c, AfterTurns(c, turns[..j]), to, now, x);
  }

  /** From store to fetch: a signed envelope for a recipient without tombstone or copy is what later
      fetches find, whole, until its time is over or it is acknowledged. */
  lemma StoredIsFetched(c: Config, turns: seq<Turn>, i: nat, j: nat, env: Envelope)
    requires Possible(c, turns) && ClockRuns(turns) && i < j < |turns|
    requires turns[i] == Ran(At(turns[i].entry.now, Store(env)))
    requires c.verify(EnvelopeText(env.id, env.from, env.to, env.ts, env.ttl, env.payload), env.sig, env.signingPub)
    requires var m, at := AfterTurns(c, turns[..i]).mail, turns[i].entry.now;
      !Tombstoned(c, m, env.to, env.id, at) && !HasCopy(c, m, env.to, env.id, at)
    requires NoAck(c, turns, i + 1, j, env.to, env.id)
    ensures var at, now := turns[i].entry.now, turns[j].entry.now;
      Item(env, at) in ReadBy(c, AfterTurns(c, turns[..j]), env.to, now) <==> now <= at + c.ttlSeconds * 1000
  {
    var at := turns[i].entry.now;
    StorePuts(c, AfterTurns(c, turns[..i]), env, at, env.to);
    AfterTurn(c, turns, i);
    QueuedUntilExpiry(c, turns, i + 1, j, env.to, Item(env, at));
  }

  /** The same for each recipient of an accepted group store. */
  lemma GroupStoredIsFetched(c: Config, turns: seq<Turn>, i: nat, j: nat, g: GroupStoreRequest, to: Str)
    requires Possible(c, turns) && ClockRuns(turns) && i < j < |turns|
    requires turns[i] == Ran(At(turns[i].entry.now, GroupStore(g))) && to in Recipients(g)
    requires var s, at := AfterTurns(c, turns[..i]), turns[i].entry.now;
      GroupVerdict(c, s, g, at) == Accepted && !Tombstoned(c, s.mail, to, g.id, at) && !HasCopy(c, s.mail, to, g.id, at)
    requires NoAck(c, turns, i + 1, j, to, g.id)
    ensures var at, now := turns[i].entry.now, turns[j].entry.now;
      HasReadCopy(c, AfterTurns(c, turns[..j]), g, to, at, now) <==> now <= at + c.ttlSeconds * 1000
  {
    var s, at := AfterTurns(c, turns[..i]), turns[i].entry.now;
    AfterTurn(c, turns, i);
    var x := PutCopy(c, s, AfterTurns(c, turns[..i + 1]), g, at, to);
    QueuedUntilExpiry(c, turns, i + 1, j, to, x);
    ReadCopyIsAlive(c, AfterTurns(c, turns[..j]), g, to, at, turns[j].entry.now);
  }

  lemma PutCopy(c: Config, s: State, s': State, g: GroupStoreRequest, at: int, to: Str) returns (x: Item)
    requires GroupVerdict(c, s, g, at) == Accepted && to in Recipients(g)
    requires !Tombstoned(c, s.mail, to, g.id, at) && !HasCopy(c, s.mail, to, g.id, at)
    requires s' == Step(c, s, At(at, GroupStore(g)))
    ensures x in Queue(s'.mail, to) && IsCopy(x, g, to, at)
  {
    GroupStorePuts(c, s, g, at, to);
    assert IsDue(c, s, g, at, to);
    var q := Queue(s'.mail, to);
    x := q[|q| - 1];
  }

  /** A fetch reads such a copy. */
  ghost predicate HasReadCopy(c: Config, s: State, g: GroupStoreRequest, to: Str, at: int, now: int) {
    exists x :: x in ReadBy(c, s, to, now) && IsCopy(x, g, to, at)
  }

  lemma ReadCopyIsAlive(c: Config, s: State, g: GroupStoreRequest, to: Str, at: int, now: int)
    ensures HasReadCopy(c, s, g, to, at, now) ==> now <= at + c.ttlSeconds * 1000
  {
    if x :| x in ReadBy(c, s, to, now) && IsCopy(x, g, to, at) { ReadIff(c, s, to, now, x); }
  }

  // ----- and nothing else is ever in a queue -----

  /** The request that sent the message: signed under the key it carries, text by text. */
  predicate Sends(c: Config, entry: RelayMachine.Entry, to: Str, x: Item) {
    var e := x.envelope;
    x.insertedAtMs == entry.now &&
    match entry.event
    case Store(env) =>
      env == e && e.to == to && c.verify(EnvelopeText(e.id, e.from, to, e.ts, e.ttl, e.payload), e.sig, e.signingPub)
    case GroupStore(g) =>
      IsCopy(x, g, to, entry.now) && to in e.recipients &&
      c.verify(GroupEnvelopeText(e.id, e.from, g.groupId, e.recipients, e.ts, e.ttl, e.payload), e.sig, e.signingPub)
    case _ => false
  }

  lemma MoveOrigin(c: Config, s: State, entry: RelayMachine.Entry, to: Str, x: Item)
    requires x in ApplyMove(Queue(s.mail, to), c, MoveOf(c, s, entry, to), entry.now) && x !in Queue(s.mail, to)
    ensures Sends(c, entry, to, x)
  {
    var move := MoveOf(c, s, entry, to);
    assert move.Serve? && x == Item(move.env, entry.now);
  }

  lemma TurnItemOrigin(c: Config, s: State, turn: Turn, to: Str, x: Item)
    requires x in Queue(TurnState(c, s, turn).mail, to) && x !in Queue(s.mail, to)
    requires turn.Died? ==> Between(c, s, turn.entry, turn.left)
    ensures Sends(c, turn.entry, to, x)
  {
    StepQueue(c, s, turn.entry, to);
    if turn.Died? { assert BetweenQueue(c, s, turn.entry, turn.left.mail, to); }
    MoveOrigin(c, s, turn.entry, to, x);
  }

  /** Whatever is queued, over any run with crashes, was sent by a request that its own key signed. */
  lemma {:induction false} QueuedWasSent(c: Config, turns: seq<Turn>, to: Str, x: Item) returns (i: nat)
    requires Possible(c, turns) && x in Queue(AfterTurns(c, turns).mail, to)
    ensures i < |turns| && Sends(c, turns[i].entry, to, x)
  {
    var n := |turns| - 1;
    PossiblePrefix(c, turns, n);
    assert CanHappen(c, turns, n);
    if x in Queue(AfterTurns(c, turns[..n]).mail, to) {
      i := QueuedWasSent(c, turns[..n], to, x);
    } else {
      i := n;
      TurnItemOrigin(c, AfterTurns(c, turns[..n]), turns[n], to, x);
    }
  }

  // ----- paging -----

  lemma ReadIs(c: Config, s: State, to: Str, now: int)
    ensures ReadBy(c, s, to, now) == Live(Queue(s.mail, to), Cutoff(c, now))
  {
    SweepQueueEffect(s.mail, c, to, now, to);
  }

  lemma FetchLeaves(c: Config, s: State, to: Str, now: int, cursor: Option<Str>, limit: Option<int>)
    ensures Queue(StepMail(c, s, At(now, Fetch(to, cursor, limit))), to) == Live(Queue(s.mail, to), Cutoff(c, now))
  {
    SweepQueueEffect(s.mail, c, to, now, to);
  }

  /** A fetch pages through what it reads, and leaves to the next one what it read itself. */
  lemma FetchReads(c: Config, s: State, to: Str, now: int, cursor: Option<Str>, limit: Option<int>)
    ensures Fetched(c, s, now, to, cursor, limit) == Page(ReadBy(c, s, to, now), cursor, limit)
    ensures ReadBy(c, Step(c, s, At(now, Fetch(to, cursor, limit))), to, now) == ReadBy(c, s, to, now)
  {
    ReadIs(c, s, to, now);
    SweepQueueEffect(s.mail, c, to, now, to);
    ReadIs(c, Step(c, s, At(now, Fetch(to, cursor, limit))), to, now);
    FetchLeaves(c, s, to, now, cursor, limit);
    LiveTwice(Queue(s.mail, to), Cutoff(c, now), Cutoff(c, now));
  }

  /** The cursor of a reader that passes back what it is given, after k fetches of this queue. */
  function CursorAfter(live: seq<Item>, limit: Option<int>, k: nat): Option<Str>
    decreases k
  {
    if k == 0 then None else
      var before := CursorAfter(live, limit, k - 1);
      NextCursor(Page(live, before, limit), before)
  }

  /** What the k-th fetch returns, counted from 0. */
  function PageAt(live: seq<Item>, limit: Option<int>, k: nat): seq<Item> {
    Page(live, CursorAfter(live, limit, k), limit)
  }

  function AllPages(live: seq<Item>, limit: Option<int>, k: nat): seq<Item>
    decreases k
  {
    if k == 0 then [] else AllPages(live, limit, k - 1) + PageAt(live, limit, k - 1)
  }

  /** How many messages a request asks for at most. */
  function Asked(limit: Option<int>): int {
    if limit.None? || limit.value == 0 then 50 else if limit.value > 500 then 500 else limit.value
  }

  ghost predicate IdsGiven(q: seq<Item>) {
    Distinct(q) && forall x :: x in q ==> x.envelope.id != []
  }

  lemma CursorAt(q: seq<Item>, n: nat)
    requires IdsGiven(q) && 0 < n <= |q|
    ensures PageStart(q, Some(q[n - 1].envelope.id)) == n
  {
    assert q[n - 1] in q;
    var i := FirstIndex(q, q[n - 1].envelope.id);
    assert i < |q| && q[i].envelope.id == q[n - 1].envelope.id;
  }

  lemma PageFrom(q: seq<Item>, start: nat, cursor: Option<Str>, limit: Option<int>)
    requires start <= |q| && PageStart(q, cursor) == start && Asked(limit) > 0
    ensures Page(q, cursor, limit) == q[start..Min(start + Asked(limit), |q|)]
  {
    PageIsFilled(q, cursor, limit);
  }

  /** Where a reader stands that has been given the first so many. */
  function StandsAt(live: seq<Item>, seen: nat): Option<Str>
    requires seen <= |live|
  {
    if seen == 0 then None else Some(live[seen - 1].envelope.id)
  }

  lemma ListPage(live: seq<Item>, seen: nat, limit: Option<int>)
    requires IdsGiven(live) && seen <= |live| && Asked(limit) > 0
    ensures var end, page := Min(seen + Asked(limit), |live|), Page(live, StandsAt(live, seen), limit);
      seen <= end <= |live| && page == live[seen..end] && NextCursor(page, StandsAt(live, seen)) == StandsAt(live, end)
  {
    if seen > 0 { CursorAt(live, seen); }
    PageFrom(live, seen, StandsAt(live, seen), limit);
  }

  /** How many of the messages k pages hold. */
  function SeenAfter(k: nat, n: nat, total: nat): (seen: nat)
    ensures seen <= total
  {
    if k == 0 then 0 else Min(SeenAfter(k - 1, n, total) + n, total)
  }

  lemma {:induction false} SeenIs(k: nat, n: nat, total: nat)
    ensures SeenAfter(k, n, total) == Min(k * n, total)
  {
    if k > 0 {
      SeenIs(k - 1, n, total);
      assert k * n == (k - 1) * n + n;
    }
  }

  lemma ReaderMoves(live: seq<Item>, limit: Option<int>, k: nat, seen: nat)
    requires IdsGiven(live) && Asked(limit) > 0 && 0 < k && seen <= |live|
    requires CursorAfter(live, limit, k - 1) == StandsAt(live, seen)
    ensures CursorAfter(live, limit, k) == StandsAt(live, Min(seen + Asked(limit), |live|))
  {
    ListPage(live, seen, limit);
  }

  lemma {:induction false} ReaderStands(live: seq<Item>, limit: Option<int>, k: nat, seen: nat)
    requires IdsGiven(live) && Asked(limit) > 0 && seen == SeenAfter(k, Asked(limit), |live|)
    ensures CursorAfter(live, limit, k) == StandsAt(live, seen)
    decreases k
  {
    if k > 0 {
      var before := SeenAfter(k - 1, Asked(limit), |live|);
      ReaderStands(live, limit, k - 1, before);
      ReaderMoves(live, limit, k, before);
    }
  }

  lemma PageIs(live: seq<Item>, limit: Option<int>, k: nat, seen: nat, end: nat)
    requires IdsGiven(live) && Asked(limit) > 0
    requires seen == SeenAfter(k, Asked(limit), |live|) && end == SeenAfter(k + 1, Asked(limit), |live|)
    ensures seen <= end <= |live| && PageAt(live, limit, k) == live[seen..end]
  {
    ReaderStands(live, limit, k, seen);
    ListPage(live, seen, limit);
  }

  /** The k-th page, counted from 0, is the k-th slice of the queue, as long as was asked for. */
  lemma NthPage(live: seq<Item>, limit: Option<int>, k: nat, from: nat, end: nat)
    requires IdsGiven(live) && Asked(limit) > 0
    requires from == Min(k * Asked(limit), |live|) && end == Min((k + 1) * Asked(limit), |live|)
    ensures from <= end <= |live| && PageAt(live, limit, k) == live[from..end]
    ensures CursorAfter(live, limit, k) == StandsAt(live, from)
  {
    SeenIs(k, Asked(limit), |live|);
    SeenIs(k + 1, Asked(limit), |live|);
    PageIs(live, limit, k, from, end);
    ReaderStands(live, limit, k, from);
  }

  /** The page is the slice it should be. */
  ghost predicate PageFits(live: seq<Item>, limit: Option<int>, k: nat) {
    Asked(limit) > 0 &&
    var seen, end := SeenAfter(k, Asked(limit), |live|), SeenAfter(k + 1, Asked(limit), |live|);
    seen <= end && PageAt(live, limit, k) == live[seen..end]
  }

  lemma {:induction false} PagesJoin(live: seq<Item>, limit: Option<int>, k: nat, seen: nat)
    requires Asked(limit) > 0 && seen == SeenAfter(k, Asked(limit), |live|)
    requires forall i :: 0 <= i < k ==> PageFits(live, limit, i)
    ensures AllPages(live, limit, k) == live[..seen]
    decreases k
  {
    if k > 0 {
      var before := SeenAfter(k - 1, Asked(limit), |live|);
      PagesJoin(live, limit, k - 1, before);
      assert PageFits(live, limit, k - 1);
      JoinPages(live, limit, k, before, seen);
    }
  }

  lemma JoinPages(live: seq<Item>, limit: Option<int>, k: nat, seen: nat, end: nat)
    requires 0 < k && seen <= end <= |live|
    requires AllPages(live, limit, k - 1) == live[..seen] && PageAt(live, limit, k - 1) == live[seen..end]
    ensures AllPages(live, limit, k) == live[..end]
  {
  }

  /** So with nothing in between enough fetches return every unexpired message of the queue exactly once,
      in order; the next one returns nothing and leaves the cursor where it is. */
  lemma PagesCover(live: seq<Item>, limit: Option<int>, k: nat)
    requires IdsGiven(live) && Asked(limit) > 0 && k * Asked(limit) >= |live|
    ensures AllPages(live, limit, k) == live && PageAt(live, limit, k) == []
    ensures CursorAfter(live, limit, k + 1) == CursorAfter(live, limit, k)
  {
    SeenIs(k, Asked(limit), |live|);
    forall i | 0 <= i < k ensures PageFits(live, limit, i) {
      PageIs(live, limit, i, SeenAfter(i, Asked(limit), |live|), SeenAfter(i + 1, Asked(limit), |live|));
    }
    PagesJoin(live, limit, k, |live|);
    PageIs(live, limit, k, |live|, |live|);
    assert live[..|live|] == live;
  }
}
