/** The writes of each handler, one after the other, lie between the state before the request and the
    state after it. */
module RelayWrites {
  import opened JsText
  import opened RelayTypes
  import opened RelayMail
  import opened RelayMailLaws
  import opened RelayFanOut
  import opened RelayGroups
  import opened RelayUploads
  import opened RelayMachine
  import opened RelayGroupLaws
  import opened RelayMailRuns
  import opened RelayCrash
  import opened RelayCrashRuns

  // ----- sweeps that are part-way -----

  ghost predicate QueuesPartlySwept(m: Mail, c: Config, now: int, t: Mail) {
    t.acked == m.acked &&
    forall to :: Queue(t, to) == Queue(m, to) || Queue(t, to) == Live(Queue(m, to), Cutoff(c, now))
  }

  ghost predicate GroupsPartlySwept(gs: Groups, c: Config, now: int, t: Groups) {
    forall g :: Lookup(t, g) == Lookup(gs, g) || Lookup(t, g) == Swept(Lookup(gs, g), c, now)
  }

  ghost predicate BlobsPartlySwept(f: Files, now: int, t: Files) {
    t.uploads == f.uploads &&
    forall id :: BlobAt(t, id) == BlobAt(f, id) || BlobAt(t, id) == BlobAt(SweepBlobs(f, now), id)
  }

  ghost predicate UploadsPartlySwept(f: Files, c: Config, now: int, t: Files) {
    t.blobs == f.blobs &&
    forall k :: SessionAt(t, k) == SessionAt(f, k) || SessionAt(t, k) == SessionAt(SweepUploads(f, c, now), k)
  }

  // ----- a request that is done, or that writes once -----

  lemma StepIsBetween(c: Config, s: State, entry: Entry)
    ensures Between(c, s, entry, Step(c, s, entry))
  {
    forall to ensures BetweenQueue(c, s, entry, StepMail(c, s, entry), to) { StepQueue(c, s, entry, to); }
    if entry.event.Ack? { StepAcked(c, s, entry, EnvelopeKey(entry.event.ack.to, entry.event.ack.id)); }
    assert StoredFirst(c, s, entry, StepFiles(c, s, entry));
  }

  /** Only the mail is touched. */
  lemma MailIsBetween(c: Config, s: State, entry: Entry, t: State)
    requires t == s.(mail := t.mail) && BetweenMail(c, s, entry, t.mail)
    ensures Between(c, s, entry, t)
  {
  }

  /** Only the files are touched. */
  lemma FilesAreBetween(c: Config, s: State, entry: Entry, t: State)
    requires t == s.(files := t.files) && StoredFirst(c, s, entry, t.files)
    requires forall id :: BetweenFile(c, s, entry, t.files, id)
    ensures Between(c, s, entry, t)
  {
    forall to ensures BetweenQueue(c, s, entry, t.mail, to) {}
    forall key ensures BetweenTombstone(c, s, entry, t.mail, key) {}
  }

  // ----- /relay/store -----

  /** The tombstones are what is left of them after all or part of their sweep. */
  ghost predicate AcksBetween(m: Mail, c: Config, now: int, t: Mail) {
    SweepAcks(m, c, now).acked.Keys <= t.acked.Keys <= m.acked.Keys &&
    forall k :: k in t.acked ==> t.acked[k] == m.acked[k]
  }

  lemma AcksAreBetween(c: Config, s: State, entry: Entry, t: Mail, key: Str)
    requires AcksBetween(s.mail, c, entry.now, t)
    requires StepMail(c, s, entry).acked == SweepAcks(s.mail, c, entry.now).acked
    ensures BetweenTombstone(c, s, entry, t, key)
  {
  }

  lemma StoreAcks(c: Config, s: State, env: Envelope, now: int)
    requires EnvelopeSigned(c, env)
    ensures StepMail(c, s, At(now, Store(env))).acked == SweepAcks(s.mail, c, now).acked
  {
    DepositEffect(SweepAcks(s.mail, c, now), c, env, now, env.to);
  }

  /** Tombstones part-way, or swept and the one queue swept. */
  lemma StoreIsBetween(c: Config, s: State, env: Envelope, now: int, t: State)
    requires EnvelopeSigned(c, env) && t == s.(mail := t.mail)
    requires PartlySwept(s.mail, c, now, t.mail) || t.mail == SweepQueue(SweepAcks(s.mail, c, now), c, env.to, now)
    ensures Between(c, s, At(now, Store(env)), t)
  {
    var entry, swept := At(now, Store(env)), SweepAcks(s.mail, c, now);
    forall to ensures BetweenQueue(c, s, entry, t.mail, to) {
      SweepQueueEffect(swept, c, env.to, now, to);
      assert Queue(swept, to) == Queue(s.mail, to);
    }
    SweepQueueEffect(swept, c, env.to, now, env.to);
    StoreAcks(c, s, env, now);
    forall key ensures BetweenTombstone(c, s, entry, t.mail, key) { AcksAreBetween(c, s, entry, t.mail, key); }
    MailIsBetween(c, s, entry, t);
  }

  // ----- /relay/ack -----

  lemma AckIsBetween(c: Config, s: State, a: AckRequest, now: int, t: State)
    requires AckSigned(c, a) && t == s.(mail := AckMark(s.mail, c, a.to, a.id, now))
    ensures Between(c, s, At(now, Ack(a)), t)
  {
    var entry := At(now, Ack(a));
    forall to ensures BetweenQueue(c, s, entry, t.mail, to) {}
    AckEffect(s.mail, c, a.to, a.id, now, a.to);
    forall key ensures BetweenTombstone(c, s, entry, t.mail, key) {}
    MailIsBetween(c, s, entry, t);
  }

  // ----- /relay/group/store -----

  lemma GroupStoreAcks(c: Config, s: State, group: GroupStoreRequest, now: int)
    requires GroupSigned(c, group)
    ensures StepMail(c, s, At(now, GroupStore(group))).acked == SweepAcks(s.mail, c, now).acked
  {
    FanOutKeepsAcks(SweepAcks(s.mail, c, now), c, Recipients(group), FanOutEnvelope(group), now);
  }

  /** While the request is being admitted no queue changes. */
  lemma AdmissionIsBetween(c: Config, s: State, group: GroupStoreRequest, now: int, t: State)
    requires GroupSigned(c, group) && t.files == s.files && t.mail.store == s.mail.store
    requires AcksBetween(s.mail, c, now, t.mail) && GroupsPartlySwept(s.groups, c, now, t.groups)
    ensures Between(c, s, At(now, GroupStore(group)), t)
  {
    var entry := At(now, GroupStore(group));
    forall to ensures BetweenQueue(c, s, entry, t.mail, to) {
      assert Queue(t.mail, to) == Queue(s.mail, to);
    }
    GroupStoreAcks(c, s, group, now);
    forall key ensures BetweenTombstone(c, s, entry, t.mail, key) { AcksAreBetween(c, s, entry, t.mail, key); }
    forall g ensures BetweenGroup(c, s, entry, t.groups, g) {}
  }

  /** A state on the way of the sweeps that precede admission. */
  ghost predicate SweptPartly(c: Config, s: State, group: GroupStoreRequest, now: int, t: State) {
    t.files == s.files && t.mail.store == s.mail.store && AcksBetween(s.mail, c, now, t.mail) &&
    GroupsPartlySwept(s.groups, c, now, t.groups) && GroupStoreCrash(c, s, group, now, t)
  }

  /** The group has been created, and no queue touched yet. */
  lemma BootstrapIsCrash(c: Config, s: State, group: GroupStoreRequest, now: int, t: State)
    requires t == State(SweepAcks(s.mail, c, now), GroupStoreGroups(c, s.groups, group, true, now), s.files)
    ensures GroupStoreCrash(c, s, group, now, t)
  {
    assert PartWay(t.mail, c, Recipients(group), FanOutEnvelope(group), now, 0, t.mail);
    FanOutIsCrash(c, s, group, now, t);
  }

  lemma FanOutQueueIsBetween(c: Config, s: State, group: GroupStoreRequest, now: int, t: Mail, to: Str)
    requires GroupVerdict(c, s, group, now) == Accepted
    requires Interrupted(s.mail, c, Recipients(group), FanOutEnvelope(group), now, t)
    ensures BetweenQueue(c, s, At(now, GroupStore(group)), t, to) && AcksBetween(s.mail, c, now, t)
  {
    AscendingHasNoRepeats(Recipients(group));
    InterruptedQueue(s.mail, c, Recipients(group), FanOutEnvelope(group), now, t, to);
  }

  /** Every state the retry law speaks of lies between. */
  lemma GroupStoreIsBetween(c: Config, s: State, group: GroupStoreRequest, now: int, t: State)
    requires GroupVerdict(c, s, group, now) == Accepted && GroupStoreCrash(c, s, group, now, t)
    ensures Between(c, s, At(now, GroupStore(group)), t)
  {
    var entry := At(now, GroupStore(group));
    FanOutQueueIsBetween(c, s, group, now, t.mail, []);
    GroupStoreAcks(c, s, group, now);
    forall to ensures BetweenQueue(c, s, entry, t.mail, to) { FanOutQueueIsBetween(c, s, group, now, t.mail, to); }
    forall key ensures BetweenTombstone(c, s, entry, t.mail, key) { AcksAreBetween(c, s, entry, t.mail, key); }
    forall g ensures BetweenGroup(c, s, entry, t.groups, g) {}
  }

  // ----- the timer -----

  lemma SweepIsBetween(c: Config, s: State, now: int, t: State)
    requires forall to ::
      Queue(t.mail, to) == Queue(s.mail, to) || Queue(t.mail, to) == Live(Queue(s.mail, to), Cutoff(c, now))
    requires AcksBetween(s.mail, c, now, t.mail) && GroupsPartlySwept(s.groups, c, now, t.groups)
    requires BlobsPartlySwept(s.files, now, Files(t.files.blobs, s.files.uploads))
    requires UploadsPartlySwept(s.files, c, now, Files(s.files.blobs, t.files.uploads))
    ensures Between(c, s, At(now, Sweep), t)
  {
    var entry := At(now, Sweep);
    SweepMailEffect(s.mail, c, now, []);
    forall to ensures BetweenQueue(c, s, entry, t.mail, to) {}
    forall key ensures BetweenTombstone(c, s, entry, t.mail, key) { AcksAreBetween(c, s, entry, t.mail, key); }
    forall g ensures BetweenGroup(c, s, entry, t.groups, g) {}
    forall id ensures BetweenFile(c, s, entry, t.files, id) {}
  }

  lemma SweptQueues(m: Mail, t: Mail, c: Config, now: int, to: Str)
    requires t.store == SweepAllQueues(m, c, now).store
    ensures Queue(t, to) == Live(Queue(m, to), Cutoff(c, now))
  {
    SweepMailEffect(m, c, now, to);
  }

  /** The five sweeps in turn: queues, blobs, sessions, tombstones, groups. */
  lemma QueueSweepIsBetween(c: Config, s: State, now: int, t: State)
    requires t == s.(mail := t.mail) && QueuesPartlySwept(s.mail, c, now, t.mail)
    ensures Between(c, s, At(now, Sweep), t)
  {
    SweepIsBetween(c, s, now, t);
  }

  lemma BlobSweepIsBetween(c: Config, s: State, now: int, t: State)
    requires t == State(SweepAllQueues(s.mail, c, now), s.groups, t.files) && BlobsPartlySwept(s.files, now, t.files)
    ensures Between(c, s, At(now, Sweep), t)
  {
    forall to ensures Queue(t.mail, to) == Live(Queue(s.mail, to), Cutoff(c, now)) {
      SweptQueues(s.mail, t.mail, c, now, to);
    }
    SweepIsBetween(c, s, now, t);
  }

  lemma SweepsOfFiles(f: Files, c: Config, now: int, t: Files)
    requires UploadsPartlySwept(SweepBlobs(f, now), c, now, t)
    ensures BlobsPartlySwept(f, now, Files(t.blobs, f.uploads)) &&
      UploadsPartlySwept(f, c, now, Files(f.blobs, t.uploads))
  {
    var swept := SweepBlobs(f, now);
    assert SweepUploads(swept, c, now).uploads == SweepUploads(f, c, now).uploads;
    forall k ensures SessionAt(Files(f.blobs, t.uploads), k) == SessionAt(f, k) ||
                     SessionAt(Files(f.blobs, t.uploads), k) == SessionAt(SweepUploads(f, c, now), k) {
      assert SessionAt(t, k) == SessionAt(swept, k) || SessionAt(t, k) == SessionAt(SweepUploads(swept, c, now), k);
    }
    forall id ensures BlobAt(Files(t.blobs, f.uploads), id) == BlobAt(swept, id) {}
  }

  lemma UploadSweepIsBetween(c: Config, s: State, now: int, t: State)
    requires t == State(SweepAllQueues(s.mail, c, now), s.groups, t.files)
    requires UploadsPartlySwept(SweepBlobs(s.files, now), c, now, t.files)
    ensures Between(c, s, At(now, Sweep), t)
  {
    SweepsOfFiles(s.files, c, now, t.files);
    forall to ensures Queue(t.mail, to) == Live(Queue(s.mail, to), Cutoff(c, now)) {
      SweptQueues(s.mail, t.mail, c, now, to);
    }
    SweepIsBetween(c, s, now, t);
  }

  lemma AckSweepIsBetween(c: Config, s: State, now: int, t: State)
    requires t.groups == s.groups && t.files == SweepUploads(SweepBlobs(s.files, now), c, now)
    requires PartlySwept(SweepAllQueues(s.mail, c, now), c, now, t.mail)
    ensures Between(c, s, At(now, Sweep), t)
  {
    forall to ensures Queue(t.mail, to) == Live(Queue(s.mail, to), Cutoff(c, now)) {
      SweptQueues(s.mail, t.mail, c, now, to);
    }
    SweepIsBetween(c, s, now, t);
  }

  lemma GroupSweepIsBetween(c: Config, s: State, now: int, t: State)
    requires t.mail == SweepMail(s.mail, c, now) && t.files == SweepUploads(SweepBlobs(s.files, now), c, now)
    requires GroupsPartlySwept(s.groups, c, now, t.groups)
    ensures Between(c, s, At(now, Sweep), t)
  {
    forall to ensures Queue(t.mail, to) == Live(Queue(s.mail, to), Cutoff(c, now)) {
      SweptQueues(s.mail, t.mail, c, now, to);
    }
    SweepIsBetween(c, s, now, t);
  }

  // ----- blobs -----

  lemma ReadIsBetween(c: Config, s: State, now: int, id: Str, t: State)
    requires t == s.(files := t.files) && BlobsPartlySwept(s.files, now, t.files)
    ensures Between(c, s, At(now, ReadBlob(id)), t)
  {
    FilesAreBetween(c, s, At(now, ReadBlob(id)), t);
  }

  /** The blob is stored and the session still there. */
  lemma CompletionIsBetween(c: Config, s: State, req: CompleteRequest, now: int, t: State)
    requires !CompleteReply(s.files, c, req).Failed?
    requires t == s.(files := s.files.(blobs := StepFiles(c, s, At(now, CompleteUpload(req))).blobs))
    ensures Between(c, s, At(now, CompleteUpload(req)), t)
  {
    FilesAreBetween(c, s, At(now, CompleteUpload(req)), t);
  }
}
