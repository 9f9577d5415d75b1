/** The message half of the relay: one queue per recipient and the ACK tombstones. */
module RelayMail {
  import opened JsText
  import opened RelayTypes

  datatype Item = Item(envelope: Envelope, insertedAtMs: int)

  datatype Tombstone = Tombstone(recipient: Str, messageId: Str, ackedAtMs: int, expiresAtMs: Option<int>)

  datatype Mail = Mail(store: map<Str, seq<Item>>, acked: map<Str, Tombstone>)

  function Queue(m: Mail, to: Str): seq<Item> {
    if to in m.store then m.store[to] else []
  }

  function Ids(q: seq<Item>): (ids: set<Str>)
    ensures forall i :: 0 <= i < |q| ==> q[i].envelope.id in ids
  {
    set x | x in q :: x.envelope.id
  }

  // ----- filtering -----

  /** Items inserted at or after the cutoff, in queue order. */
  function Live(q: seq<Item>, cutoff: int): (r: seq<Item>)
    ensures |r| <= |q|
    ensures |r| == |q| ==> r == q
    ensures forall x :: x in r <==> x in q && x.insertedAtMs >= cutoff
  {
    if q == [] then [] else
      var last := q[|q| - 1];
      assert q == q[..|q| - 1] + [last];
      Live(q[..|q| - 1], cutoff) + (if last.insertedAtMs >= cutoff then [last] else [])
  }

  /** Items with another id, in queue order. */
  function Dropping(q: seq<Item>, id: Str): (r: seq<Item>)
    ensures forall x :: x in r <==> x in q && x.envelope.id != id
  {
    if q == [] then [] else
      var last := q[|q| - 1];
      assert q == q[..|q| - 1] + [last];
      Dropping(q[..|q| - 1], id) + (if last.envelope.id != id then [last] else [])
  }

  ghost predicate Distinct(q: seq<Item>) {
    forall i, j :: 0 <= i < j < |q| ==> q[i].envelope.id != q[j].envelope.id
  }

  lemma AppendDistinct(q: seq<Item>, x: Item)
    requires Distinct(q) && x.envelope.id !in Ids(q)
    ensures Distinct(q + [x])
  {
  }

  lemma {:induction false} LiveDistinct(q: seq<Item>, cutoff: int)
    requires Distinct(q)
    ensures Distinct(Live(q, cutoff))
  {
    if q != [] {
      var rest := q[..|q| - 1];
      LiveDistinct(rest, cutoff);
      assert forall x :: x in Live(rest, cutoff) ==> x in rest;
    }
  }

  lemma {:induction false} DroppingDistinct(q: seq<Item>, id: Str)
    requires Distinct(q)
    ensures Distinct(Dropping(q, id))
  {
    if q != [] {
      var rest := q[..|q| - 1];
      DroppingDistinct(rest, id);
      assert forall x :: x in Dropping(rest, id) ==> x in rest;
    }
  }

  lemma {:induction false} LiveTwice(q: seq<Item>, early: int, late: int)
    requires early <= late
    ensures Live(Live(q, early), late) == Live(q, late)
  {
    if q != [] {
      var rest := q[..|q| - 1];
      LiveTwice(rest, early, late);
      LiveAppend(Live(rest, early), q[|q| - 1], late);
      assert Live(rest, early) + [] == Live(rest, early);
    }
  }

  lemma LiveAppend(q: seq<Item>, x: Item, cutoff: int)
    ensures Live(q + [x], cutoff) == Live(q, cutoff) + (if x.insertedAtMs >= cutoff then [x] else [])
  {
    assert (q + [x])[..|q|] == q;
  }

  lemma DroppingAppend(q: seq<Item>, x: Item, id: Str)
    ensures Dropping(q + [x], id) == Dropping(q, id) + (if x.envelope.id != id then [x] else [])
  {
    assert (q + [x])[..|q|] == q;
  }

  /** Filtering by time and by id commute. */
  lemma {:induction false} LiveDropping(q: seq<Item>, cutoff: int, id: Str)
    ensures Live(Dropping(q, id), cutoff) == Dropping(Live(q, cutoff), id)
  {
    if q != [] {
      var rest, last := q[..|q| - 1], q[|q| - 1];
      LiveDropping(rest, cutoff, id);
      LiveOne(Dropping(rest, id), last, last.envelope.id != id, cutoff);
      DroppingOne(Live(rest, cutoff), last, last.insertedAtMs >= cutoff, id);
    }
  }

  lemma LiveOne(q: seq<Item>, x: Item, kept: bool, cutoff: int)
    ensures Live(q + (if kept then [x] else []), cutoff) ==
      Live(q, cutoff) + (if kept && x.insertedAtMs >= cutoff then [x] else [])
  {
    if kept { LiveAppend(q, x, cutoff); } else { assert q + [] == q; }
  }

  lemma DroppingOne(q: seq<Item>, x: Item, kept: bool, id: Str)
    ensures Dropping(q + (if kept then [x] else []), id) ==
      Dropping(q, id) + (if kept && x.envelope.id != id then [x] else [])
  {
    if kept { DroppingAppend(q, x, id); } else { assert q + [] == q; }
  }

  lemma {:induction false} DroppingsCommute(q: seq<Item>, a: Str, b: Str)
    ensures Dropping(Dropping(q, a), b) == Dropping(Dropping(q, b), a)
  {
    if q != [] {
      var rest, last := q[..|q| - 1], q[|q| - 1];
      DroppingsCommute(rest, a, b);
      DroppingOne(Dropping(rest, a), last, last.envelope.id != a, b);
      DroppingOne(Dropping(rest, b), last, last.envelope.id != b, a);
    }
  }

  // ----- the lifecycle sweeps -----

  function Cutoff(c: Config, now: int): int {
    now - c.ttlSeconds * 1000
  }

  function EntryOf(m: Mail, to: Str): Option<seq<Item>> {
    if to in m.store then Some(m.store[to]) else None
  }

  /** What a sweep makes of the queue stored for one recipient. */
  function SweptEntry(e: Option<seq<Item>>, cutoff: int): Option<seq<Item>> {
    if e.None? || e.value == [] then e else
      var live := Live(e.value, cutoff);
      if live == [] then None else Some(live)
  }

  /** pruneRecipient. */
  function SweepQueue(m: Mail, c: Config, to: Str, now: int): Mail {
    var swept := SweptEntry(EntryOf(m, to), Cutoff(c, now));
    m.(store := if swept.None? then m.store - {to} else m.store[to := swept.value])
  }

  /** pruneRecipient for every key of the store. */
  function SweepAllQueues(m: Mail, c: Config, now: int): Mail {
    m.(store := map to | to in m.store && SweptEntry(EntryOf(m, to), Cutoff(c, now)).Some?
                  :: SweptEntry(EntryOf(m, to), Cutoff(c, now)).value)
  }

  function ExpiryOf(t: Tombstone, c: Config): int {
    match t.expiresAtMs
    case Some(at) => at
    case None => t.ackedAtMs + c.ackTtlSeconds * 1000
  }

  /** pruneAckTombstones. */
  function SweepAcks(m: Mail, c: Config, now: int): Mail {
    m.(acked := map k | k in m.acked && now < ExpiryOf(m.acked[k], c) :: m.acked[k])
  }

  /** The message part of prunePersistentState. */
  function SweepMail(m: Mail, c: Config, now: int): Mail {
    SweepAcks(SweepAllQueues(m, c, now), c, now)
  }

  lemma SweepQueueEffect(m: Mail, c: Config, swept: Str, now: int, to: Str)
    ensures SweepQueue(m, c, swept, now).acked == m.acked
    ensures Queue(SweepQueue(m, c, swept, now), to) ==
      if to == swept then Live(Queue(m, to), Cutoff(c, now)) else Queue(m, to)
  {
  }

  lemma SweepMailEffect(m: Mail, c: Config, now: int, to: Str)
    ensures SweepMail(m, c, now).acked == SweepAcks(m, c, now).acked
    ensures Queue(SweepMail(m, c, now), to) == Live(Queue(m, to), Cutoff(c, now))
  {
    var all := SweepAllQueues(m, c, now);
    assert Queue(all, to) == Live(Queue(m, to), Cutoff(c, now));
  }

  // ----- storing -----

  /** Whether the deposit puts a copy in the queue, as opposed to reporting a duplicate. */
  predicate Deposits(m: Mail, c: Config, env: Envelope, now: int) {
    EnvelopeKey(env.to, env.id) !in m.acked &&
    env.id !in Ids(Queue(SweepQueue(m, c, env.to, now), env.to))
  }

  /** One envelope into one queue, after the tombstone sweep: the tail of /relay/store and the
      loop body of /relay/group/store. */
  function Deposit(m: Mail, c: Config, env: Envelope, now: int): Mail {
    if EnvelopeKey(env.to, env.id) in m.acked then m else
      var swept := SweepQueue(m, c, env.to, now);
      if env.id in Ids(Queue(swept, env.to)) then swept
      else swept.(store := swept.store[env.to := Queue(swept, env.to) + [Item(env, now)]])
  }

  /** The queue after an unacknowledged deposit: swept, and with the message if it was missing. */
  function Served(q: seq<Item>, cutoff: int, env: Envelope, now: int): (r: seq<Item>)
    ensures Ids(r) == Ids(Live(q, cutoff)) + {env.id}
  {
    var live := Live(q, cutoff);
    if env.id in Ids(live) then live else
      assert Ids(live + [Item(env, now)]) == Ids(live) + {env.id} by { IdsConcat(live, [Item(env, now)]); }
      live + [Item(env, now)]
  }

  lemma IdsConcat(a: seq<Item>, b: seq<Item>)
    ensures Ids(a + b) == Ids(a) + Ids(b)
  {
  }

  lemma DepositEffect(m: Mail, c: Config, env: Envelope, now: int, to: Str)
    ensures Deposit(m, c, env, now).acked == m.acked
    ensures Queue(Deposit(m, c, env, now), to) ==
      if to == env.to && EnvelopeKey(to, env.id) !in m.acked then Served(Queue(m, to), Cutoff(c, now), env, now)
      else Queue(m, to)
  {
    SweepQueueEffect(m, c, env.to, now, to);
    SweepQueueEffect(m, c, env.to, now, env.to);
  }

  /** The mail side of an accepted /relay/store. */
  function StoreMail(m: Mail, c: Config, env: Envelope, now: int): Mail {
    Deposit(SweepAcks(m, c, now), c, env, now)
  }

  /** The fan-out loop of /relay/group/store over the normalized recipients. */
  function FanOut(m: Mail, c: Config, recipients: seq<Str>, env: Envelope, now: int): Mail {
    if recipients == [] then m else
      var n := |recipients| - 1;
      Deposit(FanOut(m, c, recipients[..n], env, now), c, env.(to := recipients[n]), now)
  }

  function FanOutStored(m: Mail, c: Config, recipients: seq<Str>, env: Envelope, now: int): (n: nat)
    ensures n <= |recipients|
  {
    if recipients == [] then 0 else
      var n := |recipients| - 1;
      FanOutStored(m, c, recipients[..n], env, now) +
      (if Deposits(FanOut(m, c, recipients[..n], env, now), c, env.(to := recipients[n]), now) then 1 else 0)
  }

  // ----- acknowledging -----

  /** The durable states of /relay/ack after a verified signature, in order: the tombstone is
      written first, then the queue. */
  function AckMark(m: Mail, c: Config, to: Str, id: Str, now: int): Mail {
    m.(acked := m.acked[EnvelopeKey(to, id) := Tombstone(to, id, now, Some(now + c.ackTtlSeconds * 1000))])
  }

  function AckDrop(m: Mail, to: Str, id: Str): Mail {
    if Queue(m, to) == [] then m else
      var rest := Dropping(m.store[to], id);
      if rest == [] then m.(store := m.store - {to}) else m.(store := m.store[to := rest])
  }

  function AckMail(m: Mail, c: Config, to: Str, id: Str, now: int): Mail {
    AckDrop(AckMark(m, c, to, id, now), to, id)
  }

  lemma AckEffect(m: Mail, c: Config, to: Str, id: Str, now: int, r: Str)
    ensures AckMail(m, c, to, id, now).acked == AckMark(m, c, to, id, now).acked
    ensures Queue(AckMail(m, c, to, id, now), r) == if r == to then Dropping(Queue(m, to), id) else Queue(m, r)
  {
  }

  /** In every durable state of an interrupted ACK the message either is still queued as it was or
      has its tombstone, and repeating the ACK reaches the queues of the uninterrupted one. */
  lemma AckCrash(m: Mail, c: Config, to: Str, id: Str, now: int, crash: Mail, later: int, r: Str)
    requires crash in {m, AckMark(m, c, to, id, now), AckMail(m, c, to, id, now)}
    ensures id in Ids(Queue(m, to)) && id !in Ids(Queue(crash, to)) ==> EnvelopeKey(to, id) in crash.acked
    ensures Queue(crash, to) == Queue(m, to) || EnvelopeKey(to, id) in crash.acked
    ensures Queue(AckMail(crash, c, to, id, later), r) == Queue(AckMail(m, c, to, id, now), r)
  {
    AckEffect(m, c, to, id, now, to);
    AckEffect(m, c, to, id, now, r);
    AckEffect(crash, c, to, id, later, r);
    DroppingTwice(Queue(m, to), id);
  }

  /** The same when the relay sweeps at its start, before the ACK is repeated: the message is queued,
      expired or has its tombstone, and a later fetch finds in every queue what it would find after the
      uninterrupted ACK. */
  lemma AckRetry(m: Mail, c: Config, to: Str, id: Str, now: int, crash: Mail, boot: int, later: int, r: Str)
    requires crash in {m, AckMark(m, c, to, id, now), AckMail(m, c, to, id, now)} && boot <= later
    ensures var u := SweepMail(crash, c, boot);
      (id in Ids(Live(Queue(m, to), Cutoff(c, boot))) && id !in Ids(Queue(u, to)) ==>
        EnvelopeKey(to, id) in crash.acked) &&
      Live(Queue(AckMail(u, c, to, id, later), r), Cutoff(c, later)) ==
        Live(Queue(AckMail(m, c, to, id, now), r), Cutoff(c, later))
  {
    AckCrash(m, c, to, id, now, crash, later, r);
    AckEffect(m, c, to, id, now, r);
    AckEffect(crash, c, to, id, later, r);
    AckEffect(SweepMail(crash, c, boot), c, to, id, later, r);
    SweepMailEffect(crash, c, boot, to);
    SweepMailEffect(crash, c, boot, r);
    LiveTwice(Queue(crash, r), Cutoff(c, boot), Cutoff(c, later));
    LiveDropping(Live(Queue(crash, r), Cutoff(c, boot)), Cutoff(c, later), id);
    LiveDropping(Queue(crash, r), Cutoff(c, later), id);
  }

  lemma {:induction false} DroppingTwice(q: seq<Item>, id: Str)
    ensures Dropping(Dropping(q, id), id) == Dropping(q, id)
  {
    if q != [] {
      var rest := q[..|q| - 1];
      var kept := Dropping(rest, id);
      DroppingTwice(rest, id);
      assert (kept + [q[|q| - 1]])[..|kept|] == kept;
      assert kept + [] == kept;
    }
  }

  // ----- fetching -----

  /** Index of the first item with the id, or the length of the queue. */
  function FirstIndex(q: seq<Item>, id: Str): (i: nat)
    ensures i <= |q|
    ensures i < |q| ==> q[i].envelope.id == id
    ensures forall j :: 0 <= j < i ==> q[j].envelope.id != id
  {
    if q == [] then 0 else if q[0].envelope.id == id then 0 else 1 + FirstIndex(q[1..], id)
  }

  function PageStart(q: seq<Item>, cursor: Option<Str>): (start: nat)
    ensures start <= |q|
  {
    if cursor.None? || cursor.value == [] then 0 else
      var i := FirstIndex(q, cursor.value);
      if i < |q| then i + 1 else 0
  }

  /** `Math.min(parsed || 50, 500)`; None stands for NaN. */
  function PageLimit(parsed: Option<int>): int {
    var limit := if parsed.None? || parsed.value == 0 then 50 else parsed.value;
    if limit < 500 then limit else 500
  }

  /** The end index Array.prototype.slice uses, negative arguments counting from the back. */
  function PageEnd(q: seq<Item>, start: nat, limit: int): (end: nat)
    requires start <= |q|
    ensures start <= end <= |q|
  {
    var raw := if start + limit < 0 then |q| + start + limit else start + limit;
    if raw < start then start else if raw > |q| then |q| else raw
  }

  function Page(q: seq<Item>, cursor: Option<Str>, parsed: Option<int>): seq<Item> {
    var start := PageStart(q, cursor);
    q[start..PageEnd(q, start, PageLimit(parsed))]
  }

  function NextCursor(page: seq<Item>, cursor: Option<Str>): Option<Str> {
    if page != [] then Some(page[|page| - 1].envelope.id) else cursor
  }
}
