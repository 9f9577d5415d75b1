/** A group store that crashes. The states a crash can leave are those the handler makes durable one
    write at a time. */
module RelayCrash {
  import opened JsText
  import opened RelayTypes
  import opened RelayMail
  import opened RelayFanOut
  import opened RelayGroups
  import opened RelayMachine
  import opened RelayGroupLaws

  /** A membership table that can be durable when /relay/group/store stops early: every group is as
      before the sweep or as after it, and the bootstrap may have happened. */
  ghost predicate InterruptedGroups(c: Config, gs: Groups, group: GroupStoreRequest, now: int, crash: Groups) {
    forall g :: Lookup(crash, g) == Lookup(gs, g) || Lookup(crash, g) == Swept(Lookup(gs, g), c, now) ||
      (g == group.groupId && Swept(Lookup(gs, g), c, now) == None &&
       Lookup(crash, g) == Lookup(GroupStoreGroups(c, gs, group, true, now), g))
  }

  /** The durable states of an interrupted /relay/group/store. */
  ghost predicate GroupStoreCrash(c: Config, s: State, group: GroupStoreRequest, now: int, crash: State) {
    && crash.files == s.files
    && Interrupted(s.mail, c, Recipients(group), FanOutEnvelope(group), now, crash.mail)
    && InterruptedGroups(c, s.groups, group, now, crash.groups)
  }

  /** The state of an attempt that ran to its end. */
  function Finished(c: Config, s: State, group: GroupStoreRequest, now: int): State {
    Step(c, s, At(now, GroupStore(group)))
  }

  lemma CompletedIsInterrupted(c: Config, s: State, group: GroupStoreRequest, now: int)
    requires GroupVerdict(c, s, group, now) == Accepted
    ensures InterruptedGroups(c, s.groups, group, now, StepGroups(c, s, At(now, GroupStore(group))))
  {
    forall g ensures Lookup(SweepGroups(s.groups, c, now), g) == Swept(Lookup(s.groups, g), c, now) {}
  }

  // ----- the first store of a group, cut short -----

  /** The state when the process died in the first group store of a group, with k recipients served. */
  function DiedAfter(c: Config, group: GroupStoreRequest, now: int, k: nat): State
    requires k <= |Recipients(group)|
  {
    State(FanOut(EMPTY.mail, c, Recipients(group)[..k], FanOutEnvelope(group), now),
          GroupStoreGroups(c, EMPTY.groups, group, true, now), EMPTY.files)
  }

  /** Exactly the first k recipients have the message, and nothing else is stored. */
  lemma DiedAfterQueue(c: Config, group: GroupStoreRequest, now: int, k: nat, j: nat)
    requires j < |Recipients(group)| && k <= |Recipients(group)|
    ensures var m, to := DiedAfter(c, group, now, k).mail, Recipients(group)[j];
      m.acked == map[] && Queue(m, to) == if j < k then [Item(FanOutEnvelope(group).(to := to), now)] else []
  {
    var rs := Recipients(group);
    AscendingHasNoRepeats(rs);
    FanOutEffect(EMPTY.mail, c, rs[..k], FanOutEnvelope(group), now, rs[j]);
    assert rs[j] in rs[..k] <==> j < k;
  }

  /** A refused repeat only sweeps tombstones. */
  lemma RefusedRepeat(c: Config, s: State, group: GroupStoreRequest, later: int, to: Str)
    requires GroupVerdict(c, s, group, later) != Accepted
    ensures var m := StepMail(c, s, At(later, GroupStore(group)));
      Queue(m, to) == Queue(s.mail, to) && m.acked.Keys <= s.mail.acked.Keys
  {
  }

  lemma DiedAfterIsCrash(c: Config, group: GroupStoreRequest, now: int, k: nat)
    requires k <= |Recipients(group)|
    ensures GroupStoreCrash(c, EMPTY, group, now, DiedAfter(c, group, now, k))
  {
    var rs, env, crash := Recipients(group), FanOutEnvelope(group), DiedAfter(c, group, now, k);
    assert SweepAcks(EMPTY.mail, c, now) == EMPTY.mail && SweepGroups(EMPTY.groups, c, now) == map[];
    assert PartWay(EMPTY.mail, c, rs, env, now, k, crash.mail);
    forall g ensures Lookup(SweepGroups(EMPTY.groups, c, now), g) == Swept(Lookup(EMPTY.groups, g), c, now) {}
  }

  // ----- how the handler passes through these states -----

  ghost predicate FanOutStage(m: Mail, c: Config, rs: seq<Str>, env: Envelope, now: int, t: Mail) {
    exists k :: 0 <= k <= |rs| && PartWay(m, c, rs, env, now, k, t)
  }

  lemma PutIsStage(m: Mail, c: Config, rs: seq<Str>, env: Envelope, now: int, r: nat, t: Mail)
    requires r < |rs|
    requires var done := FanOut(m, c, rs[..r], env, now);
      t == Deposit(done, c, env.(to := rs[r]), now) ||
      (EnvelopeKey(rs[r], env.id) !in done.acked && t == SweepQueue(done, c, rs[r], now))
    ensures FanOutStage(m, c, rs, env, now, t)
  {
    assert rs[..r + 1][..r] == rs[..r] && rs[..r + 1][r] == rs[r];
    if t == Deposit(FanOut(m, c, rs[..r], env, now), c, env.(to := rs[r]), now) {
      assert PartWay(m, c, rs, env, now, r + 1, t);
    } else {
      assert PartWay(m, c, rs, env, now, r, t);
    }
  }

  /** One turn more. */
  lemma FanOutTurn(m: Mail, c: Config, rs: seq<Str>, env: Envelope, now: int, r: nat, done: Mail)
    requires r < |rs| && done == FanOut(m, c, rs[..r], env, now)
    ensures FanOut(m, c, rs[..r + 1], env, now) == Deposit(done, c, env.(to := rs[r]), now)
    ensures FanOutStored(m, c, rs[..r + 1], env, now) ==
      FanOutStored(m, c, rs[..r], env, now) + if Deposits(done, c, env.(to := rs[r]), now) then 1 else 0
  {
    assert rs[..r + 1][..r] == rs[..r] && rs[..r + 1][r] == rs[r];
  }

  lemma SweepingAcksIsCrash(c: Config, s: State, group: GroupStoreRequest, now: int, t: State)
    requires t == s.(mail := t.mail) && PartlySwept(s.mail, c, now, t.mail)
    ensures GroupStoreCrash(c, s, group, now, t)
  {
  }

  lemma SweepingGroupsIsCrash(c: Config, s: State, group: GroupStoreRequest, now: int, t: State)
    requires t.files == s.files && t.mail == SweepAcks(s.mail, c, now)
    requires forall g :: Lookup(t.groups, g) == Lookup(s.groups, g) ||
                         Lookup(t.groups, g) == Swept(Lookup(s.groups, g), c, now)
    ensures GroupStoreCrash(c, s, group, now, t)
  {
  }

  lemma FanOutIsCrash(c: Config, s: State, group: GroupStoreRequest, now: int, t: State)
    requires t.files == s.files && t.groups == GroupStoreGroups(c, s.groups, group, true, now)
    requires FanOutStage(SweepAcks(s.mail, c, now), c, Recipients(group), FanOutEnvelope(group), now, t.mail)
    ensures GroupStoreCrash(c, s, group, now, t)
  {
    forall g ensures Lookup(SweepGroups(s.groups, c, now), g) == Swept(Lookup(s.groups, g), c, now) {}
  }
}
