/** The fan-out of /relay/group/store: it is a sequence of single-recipient stores, and it converges
    when a crashed request is repeated. */
module RelayFanOut {
  import opened JsText
  import opened RelayTypes
  import opened RelayMail

  ghost predicate NoRepeats(rs: seq<Str>) {
    forall i, j :: 0 <= i < j < |rs| ==> rs[i] != rs[j]
  }

  lemma AscendingHasNoRepeats(rs: seq<Str>)
    requires Ascending(rs)
    ensures NoRepeats(rs)
  {
    forall i, j | 0 <= i < j < |rs| ensures rs[i] != rs[j] { LessTrichotomy(rs[i], rs[j]); }
  }

  /** What the loop leaves behind in a queue: a listed recipient without a tombstone is served once,
      everybody else keeps the queue, and no tombstone changes. */
  lemma {:induction false} FanOutEffect(m: Mail, c: Config, rs: seq<Str>, env: Envelope, now: int, to: Str)
    requires NoRepeats(rs)
    ensures FanOut(m, c, rs, env, now).acked == m.acked
    ensures Queue(FanOut(m, c, rs, env, now), to) ==
      if to in rs && EnvelopeKey(to, env.id) !in m.acked
      then Served(Queue(m, to), Cutoff(c, now), env.(to := to), now) else Queue(m, to)
  {
    if rs != [] {
      var n := |rs| - 1;
      FanOutEffect(m, c, rs[..n], env, now, to);
      assert rs == rs[..n] + [rs[n]];
      DepositEffect(FanOut(m, c, rs[..n], env, now), c, env.(to := rs[n]), now, to);
    }
  }

  /** Whether a recipient is served a new copy rather than counted as a duplicate. */
  predicate NeedsCopy(m: Mail, c: Config, to: Str, id: Str, now: int) {
    EnvelopeKey(to, id) !in m.acked && id !in Ids(Live(Queue(m, to), Cutoff(c, now)))
  }

  /** stored + duplicate = recipients, and the stored ones are those who lacked the message. */
  lemma {:induction false} FanOutCounts(m: Mail, c: Config, rs: seq<Str>, env: Envelope, now: int)
    requires NoRepeats(rs)
    ensures FanOutStored(m, c, rs, env, now) == |set to | to in rs && NeedsCopy(m, c, to, env.id, now)|
  {
    if rs != [] {
      var n := |rs| - 1;
      var before := FanOut(m, c, rs[..n], env, now);
      FanOutEffect(m, c, rs[..n], env, now, rs[n]);
      FanOutCounts(m, c, rs[..n], env, now);
      SweepQueueEffect(before, c, rs[n], now, rs[n]);
      SplitNeeds(m, c, rs, env.id, now);
    }
  }

  lemma SplitNeeds(m: Mail, c: Config, rs: seq<Str>, id: Str, now: int)
    requires NoRepeats(rs) && rs != []
    ensures var n := |rs| - 1;
      |set to | to in rs && NeedsCopy(m, c, to, id, now)| ==
      |set to | to in rs[..n] && NeedsCopy(m, c, to, id, now)| + (if NeedsCopy(m, c, rs[n], id, now) then 1 else 0)
  {
    var n := |rs| - 1;
    assert rs == rs[..n] + [rs[n]];
    var short := set to | to in rs[..n] && NeedsCopy(m, c, to, id, now);
    var full := set to | to in rs && NeedsCopy(m, c, to, id, now);
    assert full == if NeedsCopy(m, c, rs[n], id, now) then short + {rs[n]} else short;
    assert rs[n] !in short;
  }

  /** Single-recipient stores, one request after the other at the same clock reading. */
  function StoreEach(m: Mail, c: Config, rs: seq<Str>, env: Envelope, now: int): Mail {
    if rs == [] then m else
      var n := |rs| - 1;
      StoreMail(StoreEach(m, c, rs[..n], env, now), c, env.(to := rs[n]), now)
  }

  lemma {:induction false} FanOutRefinesStores(m: Mail, c: Config, rs: seq<Str>, env: Envelope, now: int)
    requires rs != []
    ensures FanOut(SweepAcks(m, c, now), c, rs, env, now) == StoreEach(m, c, rs, env, now)
  {
    var n := |rs| - 1;
    if n > 0 {
      FanOutRefinesStores(m, c, rs[..n], env, now);
    }
    FanOutKeepsAcks(SweepAcks(m, c, now), c, rs[..n], env, now);
    var before := FanOut(SweepAcks(m, c, now), c, rs[..n], env, now);
    assert SweepAcks(before, c, now) == before;
  }

  lemma {:induction false} FanOutKeepsAcks(m: Mail, c: Config, rs: seq<Str>, env: Envelope, now: int)
    ensures FanOut(m, c, rs, env, now).acked == m.acked
  {
    if rs != [] {
      var n := |rs| - 1;
      FanOutKeepsAcks(m, c, rs[..n], env, now);
      DepositEffect(FanOut(m, c, rs[..n], env, now), c, env.(to := rs[n]), now, rs[n]);
    }
  }

  // ----- crash and retry -----

  /** The tombstone sweep may have removed some of what was due. */
  ghost predicate PartlySwept(m: Mail, c: Config, now: int, crash: Mail) {
    && crash.store == m.store && SweepAcks(m, c, now).acked.Keys <= crash.acked.Keys <= m.acked.Keys
    && forall k :: k in crash.acked ==> crash.acked[k] == m.acked[k]
  }

  /** The mail states that can be durable when a fan-out stops early: the tombstone sweep is part-way;
      or it is done, some recipients are served and the next queue may just have been swept. */
  ghost predicate Interrupted(m: Mail, c: Config, rs: seq<Str>, env: Envelope, now: int, crash: Mail) {
    PartlySwept(m, c, now, crash) ||
    exists k :: 0 <= k <= |rs| && PartWay(SweepAcks(m, c, now), c, rs, env, now, k, crash)
  }

  ghost predicate PartWay(swept: Mail, c: Config, rs: seq<Str>, env: Envelope, now: int, k: nat, crash: Mail)
    requires k <= |rs|
  {
    var done := FanOut(swept, c, rs[..k], env, now);
    crash == done ||
    (k < |rs| && EnvelopeKey(rs[k], env.id) !in done.acked && crash == SweepQueue(done, c, rs[k], now))
  }

  /** What the queue of one recipient can look like when the fan-out stops: untouched, swept, or
      served. */
  ghost predicate Stage(q: seq<Item>, q': seq<Item>, c: Config, env: Envelope, now: int) {
    q' == q || q' == Live(q, Cutoff(c, now)) || q' == Served(q, Cutoff(c, now), env, now)
  }

  lemma PartWayQueue(swept: Mail, c: Config, rs: seq<Str>, env: Envelope, now: int, k: nat, crash: Mail, to: Str)
    requires NoRepeats(rs) && k <= |rs| && PartWay(swept, c, rs, env, now, k, crash)
    ensures crash.acked == swept.acked
    ensures Stage(Queue(swept, to), Queue(crash, to), c, env.(to := to), now)
    ensures to !in rs || EnvelopeKey(to, env.id) in swept.acked ==> Queue(crash, to) == Queue(swept, to)
  {
    FanOutEffect(swept, c, rs[..k], env, now, to);
    assert forall x :: x in rs[..k] ==> x in rs;
    if k < |rs| {
      SweepQueueEffect(FanOut(swept, c, rs[..k], env, now), c, rs[k], now, to);
      assert rs[k] !in rs[..k];
    }
  }

  lemma InterruptedQueue(m: Mail, c: Config, rs: seq<Str>, env: Envelope, now: int, crash: Mail, to: Str)
    requires NoRepeats(rs) && Interrupted(m, c, rs, env, now, crash)
    ensures SweepAcks(m, c, now).acked.Keys <= crash.acked.Keys <= m.acked.Keys
    ensures forall k :: k in crash.acked ==> crash.acked[k] == m.acked[k]
    ensures Stage(Queue(m, to), Queue(crash, to), c, env.(to := to), now)
    ensures to !in rs || EnvelopeKey(to, env.id) in SweepAcks(m, c, now).acked ==> Queue(crash, to) == Queue(m, to)
  {
    var swept := SweepAcks(m, c, now);
    if k :| 0 <= k <= |rs| && PartWay(swept, c, rs, env, now, k, crash) {
      PartWayQueue(swept, c, rs, env, now, k, crash, to);
    }
  }

  /** The same request again, some time later. */
  function Repeat(m: Mail, c: Config, rs: seq<Str>, env: Envelope, later: int): Mail {
    FanOut(SweepAcks(m, c, later), c, rs, env, later)
  }

  lemma ServedDistinct(q: seq<Item>, cutoff: int, env: Envelope, now: int)
    requires Distinct(q)
    ensures Distinct(Live(q, cutoff)) && Distinct(Served(q, cutoff, env, now))
  {
    LiveDistinct(q, cutoff);
    if env.id !in Ids(Live(q, cutoff)) { AppendDistinct(Live(q, cutoff), Item(env, now)); }
  }

  /** After the repeat each recipient has a tombstone or exactly one copy, wherever the crash was. */
  lemma RepeatSettles(m: Mail, c: Config, rs: seq<Str>, env: Envelope, now: int, crash: Mail, later: int, to: Str)
    requires NoRepeats(rs) && to in rs && Distinct(Queue(m, to))
    requires Interrupted(m, c, rs, env, now, crash)
    ensures var r := Repeat(crash, c, rs, env, later);
      EnvelopeKey(to, env.id) in r.acked ||
      (env.id in Ids(Queue(r, to)) && Distinct(Queue(r, to)))
  {
    InterruptedQueue(m, c, rs, env, now, crash, to);
    ServedDistinct(Queue(m, to), Cutoff(c, now), env.(to := to), now);
    FanOutEffect(SweepAcks(crash, c, later), c, rs, env, later, to);
    ServedDistinct(Queue(crash, to), Cutoff(c, later), env.(to := to), later);
  }

  lemma SweptLater(m: Mail, c: Config, now: int, crash: Mail, later: int)
    requires now <= later
    requires SweepAcks(m, c, now).acked.Keys <= crash.acked.Keys <= m.acked.Keys
    requires forall k :: k in crash.acked ==> crash.acked[k] == m.acked[k]
    ensures SweepAcks(crash, c, later).acked == SweepAcks(m, c, later).acked
  {
  }

  /** At a later cutoff all stages hold the same ids apart from the message itself. */
  lemma StageIds(q: seq<Item>, q': seq<Item>, c: Config, env: Envelope, now: int, later: int)
    requires now <= later && Stage(q, q', c, env, now)
    ensures Ids(Live(q', Cutoff(c, later))) + {env.id} == Ids(Live(q, Cutoff(c, later))) + {env.id}
  {
    var early, late := Cutoff(c, now), Cutoff(c, later);
    LiveTwice(q, early, late);
    LiveAppend(Live(q, early), Item(env, now), late);
    IdsConcat(Live(q, late), [Item(env, now)]);
    assert Live(q, late) + [] == Live(q, late);
  }

  lemma RepeatIds(m: Mail, c: Config, rs: seq<Str>, env: Envelope, now: int, crash: Mail, later: int, to: Str)
    requires NoRepeats(rs) && now <= later
    requires Interrupted(m, c, rs, env, now, crash)
    ensures Repeat(crash, c, rs, env, later).acked == SweepAcks(m, c, later).acked
    ensures Ids(Queue(Repeat(crash, c, rs, env, later), to)) ==
      if to in rs && EnvelopeKey(to, env.id) !in SweepAcks(m, c, later).acked
      then Ids(Live(Queue(m, to), Cutoff(c, later))) + {env.id} else Ids(Queue(m, to))
  {
    InterruptedQueue(m, c, rs, env, now, crash, to);
    SweptLater(m, c, now, crash, later);
    FanOutEffect(SweepAcks(crash, c, later), c, rs, env, later, to);
    StageIds(Queue(m, to), Queue(crash, to), c, env.(to := to), now, later);
  }

  lemma CompletionIsAnInterruption(m: Mail, c: Config, rs: seq<Str>, env: Envelope, now: int)
    ensures Interrupted(m, c, rs, env, now, FanOut(SweepAcks(m, c, now), c, rs, env, now))
  {
    assert rs[..|rs|] == rs;
    assert PartWay(SweepAcks(m, c, now), c, rs, env, now, |rs|, FanOut(SweepAcks(m, c, now), c, rs, env, now));
  }

  /** Crash and repeat delivers the same messages to every queue as completing and repeating. */
  lemma RepeatConverges(m: Mail, c: Config, rs: seq<Str>, env: Envelope, now: int, crash: Mail, later: int, to: Str)
    requires NoRepeats(rs) && now <= later
    requires Interrupted(m, c, rs, env, now, crash)
    ensures var full := FanOut(SweepAcks(m, c, now), c, rs, env, now);
      Repeat(crash, c, rs, env, later).acked == Repeat(full, c, rs, env, later).acked &&
      Ids(Queue(Repeat(crash, c, rs, env, later), to)) == Ids(Queue(Repeat(full, c, rs, env, later), to))
  {
    var full := FanOut(SweepAcks(m, c, now), c, rs, env, now);
    CompletionIsAnInterruption(m, c, rs, env, now);
    RepeatIds(m, c, rs, env, now, crash, later, to);
    RepeatIds(m, c, rs, env, now, full, later, to);
  }
}
