/** The relay process: five persistent maps that the handlers and the sweeps update in place. Each
    method is proved to take exactly the step of the transition system. Every update of a map is
    written through to disk before the next statement runs; `trail` records the states that were
    durable in turn, so that it lists every state a crash can leave behind. */
module RelayServer {
  import opened JsText
  import opened RelayTypes
  import opened RelayMail
  import opened RelayFanOut
  import opened RelayGroups
  import opened RelayUploads
  import opened RelayMachine
  import opened RelayGroupLaws
  import opened RelayMailRuns
  import opened RelayCrash
  import opened RelayCrashRuns
  import opened RelayWrites
  import opened RelayDisks
  import RelayLives
  import UploadLives

  datatype GroupReply = GroupReply(verdict: Verdict, stored: nat, duplicate: nat)

  /** A store entry that is as before or swept makes a queue that is as before or swept. */
  lemma SweptEntryQueue(m: Mail, t: Mail, cutoff: int, to: Str)
    requires EntryOf(t, to) == EntryOf(m, to) || EntryOf(t, to) == SweptEntry(EntryOf(m, to), cutoff)
    ensures Queue(t, to) == Queue(m, to) || Queue(t, to) == Live(Queue(m, to), cutoff)
  {
  }

  class Relay {
    const cfg: Config
    var store: map<Str, seq<Item>>
    var acked: map<Str, Tombstone>
    var groups: Groups
    var blobs: map<Str, StoredBlob>
    var uploads: map<Str, Upload>
    ghost var trail: seq<State>

    ghost function Now(): State
      reads this
    {
      State(Mail(store, acked), groups, Files(blobs, uploads))
    }

    /** Whatever has become durable since `from` lies between the state before the request and the
        state after it. */
    ghost predicate AllBetween(from: nat, s: State, event: Event, now: int)
      reads this`trail
    {
      from <= |trail| && forall i :: from <= i < |trail| ==> Between(cfg, s, At(now, event), trail[i])
    }

    /** The last durable state is the present one, and each came from the one before by one change. */
    ghost predicate Valid()
      reads this
    {
      trail != [] && trail[|trail| - 1] == Now() && Chain(trail)
    }

    /** A map has been changed, and the change written through. */
    ghost method Persist(change: Change)
      requires trail != [] && Chain(trail) && Now() == Changed(trail[|trail| - 1], change)
      modifies this`trail
      ensures Valid() && trail == old(trail) + [Now()]
    {
      ChainGrows(trail, change, Now());
      trail := trail + [Now()];
    }

    /** A crash in a request, before, between or during its writes: the process that is started on what
        is found then starts in a state between the one before the request and the one after it. */
    lemma CrashInRequest(from: nat, s: State, event: Event, now: int, fs: RelayFs, d: Disks)
      requires Valid() && 0 < from <= |trail| && trail[from - 1] == s && AllBetween(from, s, event, now)
      requires Settled(fs, s) && DiesWriting(fs, trail[from - 1..], d)
      ensures Between(cfg, s, At(now, event), Loaded(d)) && Settled(BootAll(d), Loaded(d))
      ensures RelayLives.Happens(cfg, fs, s, RelayLives.Dies(At(now, event), trail[from..], d))
    {
      assert trail[from - 1..] == [s] + trail[from..];
      forall t | t in trail[from..] ensures Between(cfg, s, At(now, event), t) {
        var i :| 0 <= i < |trail[from..]| && trail[from..][i] == t;
        assert trail[from + i] == t;
      }
      CrashIsBetween(cfg, s, At(now, event), fs, trail[from..], d);
      DeathSettles(fs, [s] + trail[from..], d);
    }

    /** A request that has taken its step is a turn of the runs on disk. */
    lemma RequestIsTurn(from: nat, s: State, event: Event, now: int, fs: RelayFs) returns (after: RelayFs)
      requires Valid() && 0 < from <= |trail| && trail[from - 1] == s && Now() == Step(cfg, s, At(now, event))
      ensures RelayLives.Happens(cfg, fs, s, RelayLives.Finishes(At(now, event), trail[from..], after))
    {
      var states := trail[from - 1..];
      assert states == [s] + trail[from..];
      forall i | 0 <= i < |states| - 1 ensures Adjacent(states[i], states[i + 1]) {
        assert Adjacent(trail[from - 1 + i], trail[from + i]);
      }
      after := RelayLives.ChainIsWritten(fs, states);
    }

    /** The process starts on what it finds. */
    constructor (cfg: Config, found: Disks)
      ensures this.cfg == cfg && Now() == Loaded(found) && trail == [Now()] && Valid()
    {
      this.cfg := cfg;
      var s := Loaded(found);
      store, acked, groups := s.mail.store, s.mail.acked, s.groups;
      blobs, uploads := s.files.blobs, s.files.uploads;
      trail := [s];
    }

    // ----- relay-lifecycle.js -----

    method PruneRecipient(to: Str, now: int)
      requires Valid()
      modifies this`store, this`trail
      ensures Valid()
      ensures Now().mail == SweepQueue(old(Now()).mail, cfg, to, now)
      ensures trail == if Now() == old(Now()) then old(trail) else old(trail) + [Now()]
    {
      if to !in store || store[to] == [] {
        return;
      }
      var live := Live(store[to], Cutoff(cfg, now));
      if live == [] {
        store := store - {to};
        Persist(Queues(store));
      } else if |live| != |store[to]| {
        store := store[to := live];
        Persist(Queues(store));
      }
    }

    method PruneAckTombstones(now: int)
      requires Valid()
      modifies this`acked, this`trail
      ensures Valid()
      ensures Now().mail == SweepAcks(old(Now()).mail, cfg, now)
      ensures old(trail) <= trail
      ensures forall i :: |old(trail)| <= i < |trail| ==>
                trail[i] == old(Now()).(mail := trail[i].mail) && PartlySwept(old(Now()).mail, cfg, now, trail[i].mail)
    {
      var todo := acked.Keys;
      while todo != {}
        invariant todo <= acked.Keys <= old(acked).Keys
        invariant forall k :: k in old(acked) ==> (k in acked <==> k in todo || now < ExpiryOf(old(acked)[k], cfg))
        invariant forall k :: k in acked ==> acked[k] == old(acked)[k]
        invariant Valid() && old(trail) <= trail
        invariant forall i :: |old(trail)| <= i < |trail| ==>
                    trail[i] == old(Now()).(mail := trail[i].mail) &&
                      PartlySwept(old(Now()).mail, cfg, now, trail[i].mail)
        decreases todo
      {
        var k :| k in todo;
        todo := todo - {k};
        if now >= ExpiryOf(acked[k], cfg) {
          acked := acked - {k};
          Persist(Tombstones(acked));
        }
      }
    }

    method PruneGroupMemberships(now: int)
      requires Valid()
      modifies this`groups, this`trail
      ensures Valid()
      ensures groups == SweepGroups(old(groups), cfg, now)
      ensures old(trail) <= trail
      ensures forall i :: |old(trail)| <= i < |trail| ==>
                trail[i] == old(Now()).(groups := trail[i].groups) &&
                  GroupsPartlySwept(old(groups), cfg, now, trail[i].groups)
    {
      var todo := groups.Keys;
      while todo != {}
        invariant todo <= old(groups).Keys
        invariant forall g :: g in todo ==> Lookup(groups, g) == Lookup(old(groups), g)
        invariant forall g :: g !in todo ==> Lookup(groups, g) == Swept(Lookup(old(groups), g), cfg, now)
        invariant Valid() && old(trail) <= trail
        invariant forall i :: |old(trail)| <= i < |trail| ==>
                    trail[i] == old(Now()).(groups := trail[i].groups) &&
                      GroupsPartlySwept(old(groups), cfg, now, trail[i].groups)
        decreases todo
      {
        var g :| g in todo;
        todo := todo - {g};
        assert Lookup(groups, g) == Lookup(old(groups), g);
        if groups[g].Expired? {
          if groups[g].expiredAtMs < now - cfg.groupTombstoneTtlSeconds * 1000 {
            groups := groups - {g};
            Persist(Memberships(groups));
          }
        } else if groups[g].updatedAtMs < now - cfg.groupTtlSeconds * 1000 {
          groups := groups[g := Expired(now)];
          Persist(Memberships(groups));
        }
      }
      SameLookups(groups, SweepGroups(old(groups), cfg, now));
    }

    lemma SameLookups(a: Groups, b: Groups)
      requires forall g :: Lookup(a, g) == Lookup(b, g)
      ensures a == b
    {
      assert forall g :: g in a <==> Lookup(a, g).Some?;
      assert forall g :: g in b <==> Lookup(b, g).Some?;
      assert forall g :: g in a ==> Lookup(a, g).value == a[g];
      assert forall g :: g in b ==> Lookup(b, g).value == b[g];
    }

    method PruneBlobs(now: int)
      requires Valid()
      modifies this`blobs, this`trail
      ensures Valid()
      ensures Files(blobs, uploads) == SweepBlobs(old(Now()).files, now)
      ensures old(trail) <= trail
      ensures forall i :: |old(trail)| <= i < |trail| ==>
                trail[i] == old(Now()).(files := trail[i].files) &&
                  BlobsPartlySwept(old(Now()).files, now, trail[i].files)
    {
      var todo := blobs.Keys;
      while todo != {}
        invariant Valid() && old(trail) <= trail
        invariant forall i :: |old(trail)| <= i < |trail| ==>
                    trail[i] == old(Now()).(files := trail[i].files) &&
                      BlobsPartlySwept(old(Now()).files, now, trail[i].files)
        invariant todo <= blobs.Keys <= old(blobs).Keys
        invariant forall k :: k in old(blobs) ==> (k in blobs <==> k in todo || !BlobIsDue(old(blobs)[k], now))
        invariant forall k :: k in blobs ==> blobs[k] == old(blobs)[k]
        decreases todo
      {
        var k :| k in todo;
        todo := todo - {k};
        if BlobIsDue(blobs[k], now) {
          blobs := blobs - {k};
          Persist(Blobs(blobs));
        }
      }
    }

    method PruneUploads(now: int)
      requires Valid()
      modifies this`uploads, this`trail
      ensures Valid()
      ensures Files(blobs, uploads) == SweepUploads(old(Now()).files, cfg, now)
      ensures old(trail) <= trail
      ensures forall i :: |old(trail)| <= i < |trail| ==>
                trail[i] == old(Now()).(files := trail[i].files) &&
                  UploadsPartlySwept(old(Now()).files, cfg, now, trail[i].files)
    {
      var cutoff := now - cfg.uploadTtlSeconds * 1000;
      var todo := uploads.Keys;
      while todo != {}
        invariant Valid() && old(trail) <= trail
        invariant forall i :: |old(trail)| <= i < |trail| ==>
                    trail[i] == old(Now()).(files := trail[i].files) &&
                      UploadsPartlySwept(old(Now()).files, cfg, now, trail[i].files)
        invariant todo <= uploads.Keys <= old(uploads).Keys
        invariant forall k :: k in old(uploads) ==>
          (k in uploads <==> k in todo || old(uploads)[k].insertedAtMs >= cutoff)
        invariant forall k :: k in uploads ==> uploads[k] == old(uploads)[k]
        decreases todo
      {
        var k :| k in todo;
        todo := todo - {k};
        if uploads[k].insertedAtMs < cutoff {
          uploads := uploads - {k};
          Persist(Sessions(UploadLives.DropSession(k, [])));
        }
      }
    }

    method PruneAllRecipients(now: int)
      requires Valid()
      modifies this`store, this`trail
      ensures Valid()
      ensures Now().mail == SweepAllQueues(old(Now()).mail, cfg, now)
      ensures old(trail) <= trail
      ensures forall i :: |old(trail)| <= i < |trail| ==>
                trail[i] == old(Now()).(mail := trail[i].mail) &&
                  QueuesPartlySwept(old(Now()).mail, cfg, now, trail[i].mail)
    {
      ghost var m := Now().mail;
      var todo := store.Keys;
      while todo != {}
        invariant Valid() && old(trail) <= trail
        invariant forall i :: |old(trail)| <= i < |trail| ==>
                    trail[i] == old(Now()).(mail := trail[i].mail) && QueuesPartlySwept(m, cfg, now, trail[i].mail)
        invariant todo <= m.store.Keys && acked == m.acked
        invariant forall to :: EntryOf(Now().mail, to) ==
                    if to in todo then EntryOf(m, to) else SweptEntry(EntryOf(m, to), Cutoff(cfg, now))
        decreases todo
      {
        var to :| to in todo;
        todo := todo - {to};
        ghost var before := Now().mail;
        PruneRecipient(to, now);
        assert forall other :: other != to ==> EntryOf(Now().mail, other) == EntryOf(before, other);
        forall other ensures Queue(Now().mail, other) == Queue(m, other) ||
                             Queue(Now().mail, other) == Live(Queue(m, other), Cutoff(cfg, now)) {
          SweptEntryQueue(m, Now().mail, Cutoff(cfg, now), other);
        }
      }
      SameEntries(Now().mail, SweepAllQueues(m, cfg, now));
    }

    lemma SameEntries(a: Mail, b: Mail)
      requires a.acked == b.acked && forall to :: EntryOf(a, to) == EntryOf(b, to)
      ensures a == b
    {
      assert forall to :: to in a.store <==> EntryOf(a, to).Some?;
      assert forall to :: to in b.store <==> EntryOf(b, to).Some?;
      assert forall to :: to in a.store ==> a.store[to] == EntryOf(a, to).value;
      assert forall to :: to in b.store ==> b.store[to] == EntryOf(b, to).value;
      assert a.store == b.store;
    }

    /** The first three sweeps of the timer. */
    method PruneStores(now: int)
      requires Valid()
      modifies this`store, this`blobs, this`uploads, this`trail
      ensures Valid()
      ensures Now() == State(SweepAllQueues(old(Now()).mail, cfg, now), old(groups),
                             SweepUploads(SweepBlobs(old(Now()).files, now), cfg, now))
      ensures old(trail) <= trail && AllBetween(|old(trail)|, old(Now()), Sweep, now)
    {
      ghost var s, from := Now(), |trail|;
      PruneAllRecipients(now);
      forall i | from <= i < |trail| ensures Between(cfg, s, At(now, Sweep), trail[i]) {
        QueueSweepIsBetween(cfg, s, now, trail[i]);
      }
      from := |trail|;
      PruneBlobs(now);
      forall i | from <= i < |trail| ensures Between(cfg, s, At(now, Sweep), trail[i]) {
        BlobSweepIsBetween(cfg, s, now, trail[i]);
      }
      from := |trail|;
      PruneUploads(now);
      forall i | from <= i < |trail| ensures Between(cfg, s, At(now, Sweep), trail[i]) {
        UploadSweepIsBetween(cfg, s, now, trail[i]);
      }
    }

    /** The timer, and the start of the process. */
    method PrunePersistentState(now: int)
      requires Valid()
      modifies this
      ensures Valid()
      ensures Now() == Step(cfg, old(Now()), At(now, Sweep))
      ensures old(trail) <= trail && AllBetween(|old(trail)|, old(Now()), Sweep, now)
    {
      ghost var s := Now();
      PruneStores(now);
      ghost var from := |trail|;
      PruneAckTombstones(now);
      forall i | from <= i < |trail| ensures Between(cfg, s, At(now, Sweep), trail[i]) {
        AckSweepIsBetween(cfg, s, now, trail[i]);
      }
      from := |trail|;
      PruneGroupMemberships(now);
      forall i | from <= i < |trail| ensures Between(cfg, s, At(now, Sweep), trail[i]) {
        GroupSweepIsBetween(cfg, s, now, trail[i]);
      }
    }

    // ----- messages -----

    lemma DepositAfterSweep(m: Mail, env: Envelope, now: int, swept: Mail)
      requires EnvelopeKey(env.to, env.id) !in m.acked && swept == SweepQueue(m, cfg, env.to, now)
      ensures var list := Queue(swept, env.to);
        var known := exists i :: 0 <= i < |list| && list[i].envelope.id == env.id;
        (Deposits(m, cfg, env, now) <==> !known) &&
        Deposit(m, cfg, env, now) ==
          if known then swept else swept.(store := swept.store[env.to := list + [Item(env, now)]])
    {
    }

    /** One envelope into one queue: the part that single and group stores share. */
    method PutEnvelope(env: Envelope, now: int) returns (stored: bool)
      requires Valid()
      modifies this`store, this`trail
      ensures Valid()
      ensures Now().mail == Deposit(old(Now()).mail, cfg, env, now)
      ensures stored <==> Deposits(old(Now()).mail, cfg, env, now)
      ensures old(trail) <= trail
      ensures forall i :: |old(trail)| <= i < |trail| ==>
                trail[i] == old(Now()).(mail := trail[i].mail) &&
                (trail[i].mail == Now().mail ||
                 (EnvelopeKey(env.to, env.id) !in acked &&
                   trail[i].mail == SweepQueue(old(Now()).mail, cfg, env.to, now)))
    {
      if EnvelopeKey(env.to, env.id) in acked {
        return false;
      }
      DepositAfterSweep(Now().mail, env, now, SweepQueue(Now().mail, cfg, env.to, now));
      PruneRecipient(env.to, now);
      var list := if env.to in store then store[env.to] else [];
      stored := !(exists i :: 0 <= i < |list| && list[i].envelope.id == env.id);
      if stored {
        store := store[env.to := list + [Item(env, now)]];
        Persist(Queues(store));
      }
    }

    method HandleStore(env: Envelope, now: int) returns (status: nat, stored: bool)
      requires Valid()
      modifies this
      ensures Valid()
      ensures Now() == Step(cfg, old(Now()), At(now, Store(env)))
      ensures status == if EnvelopeSigned(cfg, env) then 200 else 401
      ensures stored <==>
        EnvelopeSigned(cfg, env) && NeedsCopy(SweepAcks(old(Now()).mail, cfg, now), cfg, env.to, env.id, now)
      ensures old(trail) <= trail && AllBetween(|old(trail)|, old(Now()), Store(env), now)
    {
      ghost var s, from := Now(), |trail|;
      if !cfg.verify(EnvelopeText(env.id, env.from, env.to, env.ts, env.ttl, env.payload), env.sig, env.signingPub) {
        return 401, false;
      }
      PruneAckTombstones(now);
      SweepQueueEffect(Now().mail, cfg, env.to, now, env.to);
      stored := PutEnvelope(env, now);
      status := 200;
      StepIsBetween(cfg, s, At(now, Store(env)));
      forall i | from <= i < |trail| ensures Between(cfg, s, At(now, Store(env)), trail[i]) {
        if trail[i] != Now() { StoreIsBetween(cfg, s, env, now, trail[i]); }
      }
    }

    method HandleFetch(to: Str, cursor: Option<Str>, limit: Option<int>, now: int)
      returns (messages: seq<Item>, next: Option<Str>)
      requires Valid()
      modifies this
      ensures Valid()
      ensures Now() == Step(cfg, old(Now()), At(now, Fetch(to, cursor, limit)))
      ensures messages == Fetched(cfg, old(Now()), now, to, cursor, limit)
      ensures next == NextCursor(messages, cursor)
      ensures old(trail) <= trail && AllBetween(|old(trail)|, old(Now()), Fetch(to, cursor, limit), now)
    {
      StepIsBetween(cfg, Now(), At(now, Fetch(to, cursor, limit)));
      PruneRecipient(to, now);
      var list := if to in store then store[to] else [];
      var start := PageStart(list, cursor);
      messages := list[start..PageEnd(list, start, PageLimit(limit))];
      next := NextCursor(messages, cursor);
    }

    /** The tombstone becomes durable before the queue changes. */
    method HandleAck(a: AckRequest, now: int) returns (status: nat)
      requires Valid()
      modifies this
      ensures Valid()
      ensures Now() == Step(cfg, old(Now()), At(now, Ack(a)))
      ensures status == if AckSigned(cfg, a) then 200 else 401
      ensures forall i :: |old(trail)| <= i < |trail| ==>
                trail[i].mail in {AckMark(old(Now()).mail, cfg, a.to, a.id, now),
                                  AckMail(old(Now()).mail, cfg, a.to, a.id, now)}
      ensures old(trail) <= trail && AllBetween(|old(trail)|, old(Now()), Ack(a), now)
    {
      ghost var s := Now();
      if !cfg.verify(AckText(a.id, a.from, a.to, a.ts), a.sig, a.signingPub) {
        return 401;
      }
      acked := acked[EnvelopeKey(a.to, a.id) := Tombstone(a.to, a.id, now, Some(now + cfg.ackTtlSeconds * 1000))];
      Persist(Tombstones(acked));
      ghost var marked := Now();
      RemoveAcked(a.to, a.id);
      status := 200;
      AckWrites(s, a, now, marked);
    }

    /** The message leaves its queue, if it is there. */
    method RemoveAcked(to: Str, id: Str)
      requires Valid()
      modifies this`store, this`trail
      ensures Valid()
      ensures Now() == old(Now()).(mail := AckDrop(old(Now()).mail, to, id))
      ensures trail == old(trail) || trail == old(trail) + [Now()]
    {
      if to in store && store[to] != [] {
        var filtered := Dropping(store[to], id);
        if filtered == [] {
          store := store - {to};
        } else {
          store := store[to := filtered];
        }
        Persist(Queues(store));
      }
    }

    /** The two writes of an ACK. */
    lemma AckWrites(s: State, a: AckRequest, now: int, marked: State)
      requires AckSigned(cfg, a) && marked == s.(mail := AckMark(s.mail, cfg, a.to, a.id, now))
      ensures Between(cfg, s, At(now, Ack(a)), marked) &&
        Between(cfg, s, At(now, Ack(a)), Step(cfg, s, At(now, Ack(a))))
    {
      AckIsBetween(cfg, s, a, now, marked);
      StepIsBetween(cfg, s, At(now, Ack(a)));
    }

    method HandleGroupStore(g: GroupStoreRequest, now: int) returns (reply: GroupReply)
      requires Valid()
      modifies this
      ensures Valid()
      ensures Now() == Step(cfg, old(Now()), At(now, GroupStore(g)))
      ensures reply.verdict == GroupVerdict(cfg, old(Now()), g, now)
      ensures reply.verdict == Accepted ==>
        reply.stored ==
          FanOutStored(SweepAcks(old(Now()).mail, cfg, now), cfg, Recipients(g), FanOutEnvelope(g), now) &&
        reply.stored + reply.duplicate == |Recipients(g)|
      ensures old(trail) <= trail
      ensures reply.verdict == Accepted ==> InCrash(|old(trail)|, old(Now()), g, now)
      ensures AllBetween(|old(trail)|, old(Now()), GroupStore(g), now)
    {
      ghost var s, from := Now(), |trail|;
      var recipients := GroupRecipients(g.recipients, g.from);
      if recipients == [] {
        return GroupReply(Refused(400), 0, 0);
      }
      var text := GroupEnvelopeText(g.id, g.from, g.groupId, recipients, g.ts, g.ttl, g.payload);
      if !cfg.verify(text, g.sig, g.signingPub) {
        return GroupReply(Refused(401), 0, 0);
      }
      var verdict := AdmitGroup(g, recipients, now);
      if verdict != Accepted {
        forall i | from <= i < |trail| ensures Between(cfg, s, At(now, GroupStore(g)), trail[i]) {
          AdmissionIsBetween(cfg, s, g, now, trail[i]);
        }
        return GroupReply(verdict, 0, 0);
      }
      ghost var length := |trail|;
      reply := FanOutLoop(g, recipients, now);
      forall i | length <= i < |trail| ensures GroupStoreCrash(cfg, old(Now()), g, now, trail[i]) {
        FanOutIsCrash(cfg, old(Now()), g, now, trail[i]);
      }
      forall i | from <= i < |trail| ensures Between(cfg, s, At(now, GroupStore(g)), trail[i]) {
        GroupStoreIsBetween(cfg, s, g, now, trail[i]);
      }
    }

    /** What has become durable since `from` is a part-way sweep, which the retry law covers. */
    ghost predicate InSweeps(from: nat, s: State, g: GroupStoreRequest, now: int)
      reads this`trail
    {
      from <= |trail| && forall i :: from <= i < |trail| ==> SweptPartly(cfg, s, g, now, trail[i])
    }

    /** What has become durable since `from` is covered by the retry law. */
    ghost predicate InCrash(from: nat, s: State, g: GroupStoreRequest, now: int)
      reads this`trail
    {
      from <= |trail| && forall i :: from <= i < |trail| ==> GroupStoreCrash(cfg, s, g, now, trail[i])
    }

    lemma SweepsAreCrash(from: nat, s: State, g: GroupStoreRequest, now: int)
      requires InSweeps(from, s, g, now)
      ensures InCrash(from, s, g, now)
    {
      forall i | from <= i < |trail| ensures GroupStoreCrash(cfg, s, g, now, trail[i]) {
        assert SweptPartly(cfg, s, g, now, trail[i]);
      }
    }

    /** The sweeps that precede admission. */
    method SweepForGroup(g: GroupStoreRequest, now: int)
      requires Valid()
      modifies this`acked, this`groups, this`trail
      ensures Valid()
      ensures Now() ==
        old(Now()).(mail := SweepAcks(old(Now()).mail, cfg, now), groups := SweepGroups(old(groups), cfg, now))
      ensures old(trail) <= trail && InSweeps(|old(trail)|, old(Now()), g, now)
    {
      ghost var s, from := Now(), |trail|;
      PruneAckTombstones(now);
      forall i | from <= i < |trail| ensures SweptPartly(cfg, s, g, now, trail[i]) {
        SweepingAcksIsCrash(cfg, s, g, now, trail[i]);
      }
      ghost var mid := |trail|;
      PruneGroupMemberships(now);
      forall i | mid <= i < |trail| ensures SweptPartly(cfg, s, g, now, trail[i]) {
        SweepingGroupsIsCrash(cfg, s, g, now, trail[i]);
      }
    }

    /** The sweeps, the membership check and the bootstrap that precede the loop. */
    method AdmitGroup(g: GroupStoreRequest, recipients: seq<Str>, now: int) returns (verdict: Verdict)
      requires recipients == Recipients(g)
      requires Valid()
      modifies this`acked, this`groups, this`trail
      ensures Valid()
      ensures verdict == AdmitFanOut(SweepGroups(old(groups), cfg, now), g.groupId, g.from, recipients)
      ensures Now() == old(Now()).(mail := SweepAcks(old(Now()).mail, cfg, now),
                                   groups := GroupStoreGroups(cfg, old(groups), g, verdict == Accepted, now))
      ensures old(trail) <= trail && InCrash(|old(trail)|, old(Now()), g, now)
      ensures verdict != Accepted ==> InSweeps(|old(trail)|, old(Now()), g, now)
    {
      ghost var s, from := Now(), |trail|;
      SweepForGroup(g, now);
      SweepsAreCrash(from, s, g, now);
      verdict := CheckMembers(g, recipients);
      if verdict == Accepted {
        BootstrapIsCrash(cfg, s, g, now, Now().(groups := Bootstrap(groups, g.groupId, g.from, recipients, now)));
        BootstrapGroup(g, recipients, now);
      }
    }

    /** A group that is not known begins with the sender and the recipients as its members. */
    method BootstrapGroup(g: GroupStoreRequest, recipients: seq<Str>, now: int)
      requires Valid()
      modifies this`groups, this`trail
      ensures Valid()
      ensures Now() == old(Now()).(groups := Bootstrap(old(groups), g.groupId, g.from, recipients, now))
      ensures trail == if g.groupId in old(groups) then old(trail) else old(trail) + [Now()]
    {
      if g.groupId !in groups {
        groups := groups[g.groupId := Active(g.from, {g.from} + Elements(recipients), map[], now, true)];
        Persist(Memberships(groups));
      }
    }

    /** A known group must be in force and have the sender and the recipients among its members. */
    method CheckMembers(g: GroupStoreRequest, recipients: seq<Str>) returns (verdict: Verdict)
      ensures verdict == AdmitFanOut(groups, g.groupId, g.from, recipients)
    {
      if g.groupId in groups {
        if groups[g.groupId].Expired? {
          return Refused(409);
        }
        if g.from !in groups[g.groupId].members {
          return Refused(403);
        }
        if exists r :: r in recipients && r !in groups[g.groupId].members {
          return Refused(403);
        }
      }
      verdict := Accepted;
    }

    /** Whatever the loop has made durable since `from` is a shorter fan-out, or one with the next queue
        swept. */
    ghost predicate InFanOut(from: nat, s: State, recipients: seq<Str>, env: Envelope, now: int)
      reads this`trail
    {
      from <= |trail| && forall i :: from <= i < |trail| ==>
        trail[i] == s.(mail := trail[i].mail) && FanOutStage(s.mail, cfg, recipients, env, now, trail[i].mail)
    }

    /** The r-th turn of the loop. */
    method ServeRecipient(g: GroupStoreRequest, recipients: seq<Str>, r: nat, now: int, ghost s: State, ghost from: nat)
      returns (stored: bool)
      requires recipients == Recipients(g) && r < |recipients|
      requires Now() == s.(mail := FanOut(s.mail, cfg, recipients[..r], FanOutEnvelope(g), now))
      requires InFanOut(from, s, recipients, FanOutEnvelope(g), now)
      requires Valid()
      modifies this`store, this`trail
      ensures Valid()
      ensures Now() == s.(mail := FanOut(s.mail, cfg, recipients[..r + 1], FanOutEnvelope(g), now))
      ensures FanOutStored(s.mail, cfg, recipients[..r + 1], FanOutEnvelope(g), now) ==
        FanOutStored(s.mail, cfg, recipients[..r], FanOutEnvelope(g), now) + (if stored then 1 else 0)
      ensures old(trail) <= trail && InFanOut(from, s, recipients, FanOutEnvelope(g), now)
    {
      var to := recipients[r];
      ghost var length := |trail|;
      FanOutTurn(s.mail, cfg, recipients, FanOutEnvelope(g), now, r, Now().mail);
      var env := Envelope(g.id, g.from, to, Some(g.groupId), recipients, g.ts, g.ttl, g.payload, g.sig, g.signingPub);
      stored := PutEnvelope(env, now);
      forall i | length <= i < |trail|
        ensures FanOutStage(s.mail, cfg, recipients, FanOutEnvelope(g), now, trail[i].mail)
      {
        PutIsStage(s.mail, cfg, recipients, FanOutEnvelope(g), now, r, trail[i].mail);
      }
    }

    /** The loop over the recipients; after each turn the queues are those of a shorter fan-out. */
    method FanOutLoop(g: GroupStoreRequest, recipients: seq<Str>, now: int) returns (reply: GroupReply)
      requires recipients == Recipients(g)
      requires Valid()
      modifies this`store, this`trail
      ensures Valid()
      ensures Now() == old(Now()).(mail := FanOut(old(Now()).mail, cfg, recipients, FanOutEnvelope(g), now))
      ensures reply.verdict == Accepted && reply.stored + reply.duplicate == |recipients|
      ensures reply.stored == FanOutStored(old(Now()).mail, cfg, recipients, FanOutEnvelope(g), now)
      ensures old(trail) <= trail && InFanOut(|old(trail)|, old(Now()), recipients, FanOutEnvelope(g), now)
    {
      ghost var s, from := Now(), |trail|;
      var storedCount, duplicateCount := 0, 0;
      for r := 0 to |recipients|
        invariant Now() == s.(mail := FanOut(s.mail, cfg, recipients[..r], FanOutEnvelope(g), now))
        invariant storedCount == FanOutStored(s.mail, cfg, recipients[..r], FanOutEnvelope(g), now)
        invariant storedCount + duplicateCount == r
        invariant Valid() && old(trail) <= trail && InFanOut(from, s, recipients, FanOutEnvelope(g), now)
      {
        var stored := ServeRecipient(g, recipients, r, now, s, from);
        if stored {
          storedCount := storedCount + 1;
        } else {
          duplicateCount := duplicateCount + 1;
        }
      }
      assert recipients[..|recipients|] == recipients;
      reply := GroupReply(Accepted, storedCount, duplicateCount);
    }

    // ----- groups -----

    /** An update changes the groups at most, in one write at most. */
    lemma UpdateWrites(s: State, req: MembersRequest, now: int, before: seq<State>)
      requires Now() == s.(groups := UpdateMembers(cfg, s.groups, req, now))
      requires trail == before || trail == before + [Now()]
      ensures Now() == Step(cfg, s, At(now, Update(req))) && AllBetween(|before|, s, Update(req), now)
    {
      StepIsBetween(cfg, s, At(now, Update(req)));
    }

    method HandleUpdate(req: MembersRequest, now: int) returns (verdict: Verdict)
      requires Valid()
      modifies this`groups, this`trail
      ensures Valid()
      ensures verdict == UpdateVerdict(cfg, old(groups), req, now)
      ensures Now() == Step(cfg, old(Now()), At(now, Update(req)))
      ensures trail == if verdict == Accepted then old(trail) + [Now()] else old(trail)
      ensures AllBetween(|old(trail)|, old(Now()), Update(req), now)
    {
      ghost var s, before := Now(), trail;
      var members := NormalizePeerIds(req.memberPeerIds);
      var delegations;
      verdict, delegations := CheckUpdate(req, members, now);
      if verdict == Accepted {
        groups := groups[req.groupId := Active(req.owner, Elements(members), delegations, now, false)];
        Persist(Memberships(groups));
      }
      UpdateWrites(s, req, now, before);
    }

    /** All checks of an update, and the tokens the group holds if it passes them. */
    method CheckUpdate(req: MembersRequest, members: seq<Str>, now: int)
      returns (verdict: Verdict, delegations: map<Str, Token>)
      requires members == NormalizePeerIds(req.memberPeerIds)
      ensures verdict == UpdateVerdict(cfg, groups, req, now)
      ensures verdict == Accepted ==> delegations == NextDelegations(cfg, groups, req, now)
    {
      delegations := map[];
      if members == [] || req.owner !in members {
        return Refused(400), delegations;
      }
      var known := req.groupId in groups && groups[req.groupId].Active?;
      if known && groups[req.groupId].owner != req.owner && !groups[req.groupId].provisional {
        return Refused(409), delegations;
      }
      delegations := if known then groups[req.groupId].delegations else map[];
      if req.from == req.owner {
        var published;
        verdict, published := CheckOwner(req, members, now);
        if verdict == Accepted && req.delegationVersion.Some? {
          delegations := published;
        }
      } else {
        verdict := CheckDelegate(req, members, now);
      }
    }

    /** The owner branch: the loop stops at the first delegation that fails. */
    method CheckOwner(req: MembersRequest, members: seq<Str>, now: int)
      returns (verdict: Verdict, tokens: map<Str, Token>)
      ensures verdict == OwnerVerdict(cfg, req, members, now)
      ensures verdict == Accepted && req.delegationVersion.Some? ==>
        req.adminDelegations.Some? && tokens == PublishedTokens(cfg, req, req.adminDelegations.value, now).0
    {
      tokens := map[];
      if req.delegationVersion.Some? && (!IsNaturalNumber(req.delegationVersion.value) || req.adminDelegations.None?) {
        return Refused(400), tokens;
      }
      if !OwnerSigned(cfg, req, members) {
        return Refused(401), tokens;
      }
      if req.delegationVersion.Some? {
        var ds := req.adminDelegations.value;
        for i := 0 to |ds|
          invariant PublishedTokens(cfg, req, ds[..i], now) == (tokens, None)
        {
          var d := ds[i];
          assert ds[..i + 1][..i] == ds[..i] && ds[..i + 1][i] == d;
          RefusalStays(cfg, req, ds, i + 1, now);
          if d.version != 1.0 || d.groupId != req.groupId || d.delegationVersion != req.delegationVersion.value ||
             d.ownerSigningPub != req.signingPub || d.expiresAtMs < now as real {
            return Refused(400), tokens;
          }
          if !DelegationSigned(cfg, d) {
            return Refused(401), tokens;
          }
          tokens := tokens[d.adminPeerId := Token(d.ownerSig, d.delegationVersion, d.expiresAtMs)];
        }
        assert ds[..|ds|] == ds;
      }
      verdict := Accepted;
    }

    static lemma {:induction false} RefusalStays(c: Config, req: MembersRequest, ds: seq<Delegation>, k: nat, now: int)
      requires k <= |ds|
      ensures PublishedTokens(c, req, ds[..k], now).1.Some? ==>
        PublishedTokens(c, req, ds, now).1 == PublishedTokens(c, req, ds[..k], now).1
    {
      if k < |ds| {
        RefusalStays(c, req, ds[..|ds| - 1], k, now);
        assert ds[..|ds| - 1][..k] == ds[..k];
      } else {
        assert ds[..k] == ds;
      }
    }

    /** The administrator branch. */
    method CheckDelegate(req: MembersRequest, members: seq<Str>, now: int) returns (verdict: Verdict)
      ensures verdict == DelegatedVerdict(cfg, groups, req, members, now)
    {
      if req.adminDelegation.None? {
        return Refused(403);
      }
      var d := req.adminDelegation.value;
      var changed := NormalizePeerIds(req.changedPeerIds);
      if d.version != 1.0 || d.groupId != req.groupId || d.adminPeerId != req.from || req.action.Unknown? ||
        changed == [] {
        return Refused(400);
      }
      if d.expiresAtMs < now as real || Permission(req.action) !in d.permissions {
        return Refused(403);
      }
      if req.groupId !in groups || groups[req.groupId].Expired? || groups[req.groupId].provisional {
        return Refused(409);
      }
      var existing := groups[req.groupId];
      if req.from !in existing.delegations || existing.delegations[req.from] != TokenOf(d) {
        return Refused(403);
      }
      var protectedIds := NormalizePeerIds(d.protectedPeerIds);
      if req.owner !in protectedIds || Touches(changed, protectedIds) {
        return Refused(403);
      }
      if !DelegationSigned(cfg, d) {
        return Refused(401);
      }
      var expected := ApplyChange(existing.members, req.action, changed);
      if req.owner !in expected || !JoinsLike(expected, members) {
        return Refused(409);
      }
      if !AdminSigned(cfg, req, members, changed, d) {
        return Refused(401);
      }
      verdict := Accepted;
    }

    static method ApplyChange(members: set<Str>, action: MemberAction, changed: seq<Str>) returns (expected: set<Str>)
      ensures expected == ExpectedMembers(members, action, changed)
    {
      expected := members;
      for i := 0 to |changed|
        invariant expected == ExpectedMembers(members, action, changed[..i])
      {
        assert changed[..i + 1] == changed[..i] + [changed[i]];
        if action.Add? {
          expected := expected + {changed[i]};
        } else {
          expected := expected - {changed[i]};
        }
      }
      assert changed[..|changed|] == changed;
    }

    // ----- blobs -----

    method HandleUploadBlob(b: BlobRequest, now: int) returns (reply: BlobReply)
      requires Valid()
      modifies this`blobs, this`trail
      ensures Valid()
      ensures reply == SingleShotReply(old(Now()).files, cfg, b)
      ensures Now() == Step(cfg, old(Now()), At(now, UploadBlob(b)))
      ensures old(trail) <= trail && AllBetween(|old(trail)|, old(Now()), UploadBlob(b), now)
    {
      StepIsBetween(cfg, Now(), At(now, UploadBlob(b)));
      if !BlobSigned(cfg, b) {
        return Failed(401);
      }
      if b.id in blobs {
        return Duplicate;
      }
      blobs := blobs[b.id := StoredBlob(b, now)];
      Persist(Blobs(blobs));
      reply := Created;
    }

    method HandleUploadChunk(req: ChunkRequest, now: int) returns (reply: BlobReply)
      requires Valid()
      modifies this`uploads, this`trail
      ensures Valid()
      ensures reply == ChunkReply(old(Now()).files, req)
      ensures Now() == Step(cfg, old(Now()), At(now, UploadChunk(req)))
      ensures old(trail) <= trail && AllBetween(|old(trail)|, old(Now()), UploadChunk(req), now)
    {
      StepIsBetween(cfg, Now(), At(now, UploadChunk(req)));
      if req.chunkIndex < 0 || req.meta.totalChunks <= 0 || req.chunkIndex >= req.meta.totalChunks ||
         req.meta.totalChunks > MAX_CHUNKS {
        return Failed(400);
      }
      var key := KeyOf(req.meta);
      if key in uploads && uploads[key].meta.totalChunks != req.meta.totalChunks {
        return Failed(409);
      }
      var upload := if key in uploads then uploads[key] else Upload(req.meta, map[], now);
      upload := upload.(chunks := upload.chunks[req.chunkIndex := req.payload]);
      uploads := uploads[key := upload];
      Persist(Sessions(UploadLives.PutChunk(key, req.meta, now, req.chunkIndex, req.payload)));
      reply := ChunkTaken(|upload.chunks|);
    }

    method HandleCompleteUpload(req: CompleteRequest, now: int) returns (reply: BlobReply)
      requires Valid()
      modifies this`blobs, this`uploads, this`trail
      ensures Valid()
      ensures reply == CompleteReply(old(Now()).files, cfg, req)
      ensures Now() == Step(cfg, old(Now()), At(now, CompleteUpload(req)))
      ensures old(trail) <= trail && AllBetween(|old(trail)|, old(Now()), CompleteUpload(req), now)
    {
      ghost var s := Now();
      StepIsBetween(cfg, s, At(now, CompleteUpload(req)));
      var n, key := req.meta.totalChunks, KeyOf(req.meta);
      if n <= 0 || n > MAX_CHUNKS {
        return Failed(400);
      }
      if key !in uploads {
        return Failed(404);
      }
      var chunks := uploads[key].chunks;
      if |chunks| != n {
        return Failed(409);
      }
      var payload: Bytes := [];
      for i := 0 to n
        invariant HasAll(chunks, i) && payload == Assemble(chunks, i)
      {
        if i !in chunks {
          return Failed(409);
        }
        payload := payload + chunks[i];
      }
      var blob := Completed(req, payload);
      if !BlobSigned(cfg, blob) {
        return Failed(401);
      }
      reply := if req.meta.id in blobs then Duplicate else Created;
      if req.meta.id !in blobs {
        blobs := blobs[req.meta.id := StoredBlob(blob, now)];
        Persist(Blobs(blobs));
        CompletionIsBetween(cfg, s, req, now, Now());
      }
      uploads := uploads - {key};
      Persist(Sessions(UploadLives.DropSession(key, [])));
    }

    method HandleReadBlob(blobId: Str, now: int) returns (found: Option<Blob>)
      requires Valid()
      modifies this`blobs, this`trail
      ensures Valid()
      ensures Now() == Step(cfg, old(Now()), At(now, ReadBlob(blobId)))
      ensures var kept := blobId in old(blobs) && !BlobIsDue(old(blobs)[blobId], now);
        found == if kept then Some(old(blobs)[blobId].blob) else None
      ensures old(trail) <= trail && AllBetween(|old(trail)|, old(Now()), ReadBlob(blobId), now)
    {
      ghost var s, from := Now(), |trail|;
      PruneBlobs(now);
      forall i | from <= i < |trail| ensures Between(cfg, s, At(now, ReadBlob(blobId)), trail[i]) {
        ReadIsBetween(cfg, s, now, blobId, trail[i]);
      }
      found := if blobId in blobs then Some(blobs[blobId].blob) else None;
    }
  }
}
