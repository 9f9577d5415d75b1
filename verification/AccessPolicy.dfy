/** Access policies in memory: versioned snapshots of a user's contacts, blocks and mutes, and the
    decisions made from them. */
module AccessPolicy {
  import opened JsText

  datatype Channel = MessagePeers | MessageGroups | CallPeers | CallGroups

  datatype ByChannel<T> = ByChannel(messagePeers: T, messageGroups: T, callPeers: T, callGroups: T) {
    function On(c: Channel): T {
      match c
      case MessagePeers => messagePeers
      case MessageGroups => messageGroups
      case CallPeers => callPeers
      case CallGroups => callGroups
    }
  }

  const NOBODY: ByChannel<set<Str>> := ByChannel({}, {}, {}, {})

  /** The date with a snapshot; for a missing one the server takes its own time. */
  datatype Date = Missing | NotADate | Given(at: int)

  /** A snapshot as a client sends it. `version` is `None` when it is not a finite number. */
  datatype Snapshot = Snapshot(
    onlyContacts: bool, contacts: seq<Str>, blocked: seq<Str>, muted: ByChannel<seq<Str>>,
    version: Option<real>, updatedAt: Date, hash: Str)

  datatype Row = Row(onlyContacts: bool, version: real, hash: Str, updatedAt: int, syncedAt: int)

  type Mutes = ByChannel<set<Str>>

  /** The four tables that a snapshot is spread over. */
  datatype State = State(
    policies: map<Str, Row>, contacts: map<Str, set<Str>>, blocked: map<Str, set<Str>>, mutes: map<Str, Mutes>)

  const EMPTY := State(map[], map[], map[], map[])

  /** What accessPolicyForUser puts together, but for the time of the last sync. */
  datatype Policy = Policy(
    onlyContacts: bool, version: real, hash: Str, updatedAt: int, contacts: set<Str>, blocked: set<Str>, mutes: Mutes)

  /** Ids of at most 128 units, trimmed. */
  function ShortIds(values: seq<Str>): (r: seq<Str>)
    ensures forall x :: x in r ==> x != [] && |x| <= 128 && Trim(x) == x
    ensures forall x :: x in r <==> |x| <= 128 && x != [] && IsTrimOf(x, values)
  {
    if values == [] then [] else
      var t := Trim(values[0]);
      TrimIdempotent(values[0]);
      TrimsOfRest(values);
      (if t == [] || |t| > 128 then [] else [t]) + ShortIds(values[1..])
  }

  /** normalizePolicyIds. */
  function NormalizePolicyIds(values: seq<Str>): (r: seq<Str>)
    ensures Ascending(r)
    ensures forall x :: x in r <==> |x| <= 128 && x != [] && IsTrimOf(x, values)
  {
    SortUnique(ShortIds(values))
  }

  function IdSet(values: seq<Str>): set<Str> {
    Elements(NormalizePolicyIds(values))
  }

  function MutesOf(s: Snapshot): Mutes {
    ByChannel(IdSet(s.muted.messagePeers), IdSet(s.muted.messageGroups), IdSet(s.muted.callPeers),
      IdSet(s.muted.callGroups))
  }

  function Version(s: Snapshot): real {
    if s.version.Some? then s.version.value else 0.0
  }

  /** When the client changed the policy, as far as the server knows at this time. */
  function DateOf(s: Snapshot, now: int): int {
    if s.updatedAt.Given? then s.updatedAt.at else now
  }

  /** The policy a snapshot stands for when it arrives at this time. */
  function PolicyOf(s: Snapshot, now: int): Policy {
    Policy(s.onlyContacts, Version(s), s.hash, DateOf(s, now), IdSet(s.contacts),
           IdSet(s.blocked), MutesOf(s))
  }

  datatype Upserted = InvalidUpdatedAt | Stale(version: real, hash: Str) | Stored(version: real, hash: Str)

  function Verdict(st: State, user: Str, s: Snapshot): Upserted {
    if s.updatedAt.NotADate? then InvalidUpdatedAt
    else if user in st.policies && Version(s) < st.policies[user].version
    then Stale(st.policies[user].version, st.policies[user].hash)
    else Stored(Version(s), s.hash)
  }

  /** upsertAccessPolicy. */
  function Upsert(st: State, user: Str, s: Snapshot, now: int): State {
    if !Verdict(st, user, s).Stored? then st else
      var p := PolicyOf(s, now);
      State(st.policies[user := Row(p.onlyContacts, p.version, p.hash, p.updatedAt, now)],
            st.contacts[user := p.contacts], st.blocked[user := p.blocked], st.mutes[user := p.mutes])
  }

  function SetOf(m: map<Str, set<Str>>, user: Str): set<Str> {
    if user in m then m[user] else {}
  }

  /** accessPolicyForUser. */
  function View(st: State, user: Str): Option<Policy> {
    if user !in st.policies then None else
      var row := st.policies[user];
      Some(Policy(row.onlyContacts, row.version, row.hash, row.updatedAt, SetOf(st.contacts, user),
                  SetOf(st.blocked, user),
                  if user in st.mutes then st.mutes[user] else NOBODY))
  }

  // ----- runs -----

  datatype Arrival = Arrival(now: int, user: Str, snapshot: Snapshot)

  function After(run: seq<Arrival>): State {
    if run == [] then EMPTY else
      var a := run[|run| - 1];
      Upsert(After(run[..|run| - 1]), a.user, a.snapshot, a.now)
  }

  /** The arrival is for this user and has no malformed date. */
  predicate Counts(run: seq<Arrival>, i: int, user: Str) {
    0 <= i < |run| && run[i].user == user && !run[i].snapshot.updatedAt.NotADate?
  }

  /** Greatest version; of several with that version, the last to arrive. */
  ghost predicate Wins(run: seq<Arrival>, i: int, user: Str) {
    Counts(run, i, user) &&
    forall j :: Counts(run, j, user) ==> NotBeaten(run, i, j)
  }

  predicate NotBeaten(run: seq<Arrival>, i: int, j: int)
    requires 0 <= i < |run| && 0 <= j < |run|
  {
    Version(run[j].snapshot) <= Version(run[i].snapshot) &&
    (j > i ==> Version(run[j].snapshot) < Version(run[i].snapshot))
  }

  /** The tables have the same users. */
  ghost predicate Together(st: State) {
    st.contacts.Keys == st.policies.Keys && st.blocked.Keys == st.policies.Keys && st.mutes.Keys == st.policies.Keys
  }

  /** The arrival that won, if any did; the run alone decides. */
  function Winner(run: seq<Arrival>, user: Str): (w: Option<nat>)
    ensures w.Some? ==> Wins(run, w.value, user)
    ensures w.None? ==> forall j :: !Counts(run, j, user)
  {
    if run == [] then None else
      var n := |run| - 1;
      var w := Winner(run[..n], user);
      var loses := w.Some? && Version(run[n].snapshot) < Version(run[w.value].snapshot);
      var r := if !Counts(run, n, user) || loses then w else Some(n);
      assert forall j :: Counts(run, j, user) ==> j == n || Counts(run[..n], j, user);
      assert r.Some? ==> forall j :: Counts(run, j, user) ==> NotBeaten(run, r.value, j) by {
        if r.Some? {
          forall j | Counts(run, j, user) ensures NotBeaten(run, r.value, j) {
            assert j == n || (w.Some? && NotBeaten(run[..n], w.value, j));
          }
        }
      }
      r
  }

  /** One arrival changes its own user's policy as a whole, or nothing. */
  lemma UpsertView(st: State, a: Arrival, user: Str)
    requires Together(st)
    ensures var after := Upsert(st, a.user, a.snapshot, a.now);
      Together(after) &&
      View(after, user) ==
        if a.user == user && !a.snapshot.updatedAt.NotADate? &&
           (View(st, user).Some? ==> Version(a.snapshot) >= View(st, user).value.version)
        then Some(PolicyOf(a.snapshot, a.now))
        else View(st, user)
  {
  }

  lemma {:induction false} StoredIsWinner(run: seq<Arrival>, user: Str)
    ensures Together(After(run))
    ensures View(After(run), user) ==
      var w := Winner(run, user);
      if w.Some? then Some(PolicyOf(run[w.value].snapshot, run[w.value].now)) else None
  {
    if run != [] {
      var n := |run| - 1;
      StoredIsWinner(run[..n], user);
      UpsertView(After(run[..n]), run[n], user);
    }
  }

  lemma WinnerUnique(run: seq<Arrival>, i: nat, j: nat, user: Str)
    requires Wins(run, i, user) && Wins(run, j, user)
    ensures i == j
  {
    assert NotBeaten(run, i, j) && NotBeaten(run, j, i);
  }

  /** What is stored for a user is the snapshot with the greatest version that arrived, the last one
      of several, whole: no table is ahead of another. */
  lemma GreatestVersionIsStored(run: seq<Arrival>, i: nat, user: Str)
    requires Wins(run, i, user)
    ensures View(After(run), user) == Some(PolicyOf(run[i].snapshot, run[i].now))
  {
    StoredIsWinner(run, user);
    if Winner(run, user).Some? { WinnerUnique(run, i, Winner(run, user).value, user); }
  }

  /** The snapshots of a user that have arrived without a malformed date. */
  function Snapshots(run: seq<Arrival>, user: Str): set<Snapshot> {
    if run == [] then {} else
      var n := |run| - 1;
      Snapshots(run[..n], user) + if Counts(run, n, user) then {run[n].snapshot} else {}
  }

  /** A version stands for one snapshot. */
  ghost predicate VersionsDistinct(snapshots: set<Snapshot>) {
    forall s, s' :: s in snapshots && s' in snapshots && Version(s) == Version(s') ==> s == s'
  }

  lemma {:induction false} SnapshotsCount(run: seq<Arrival>, user: Str, s: Snapshot)
    ensures s in Snapshots(run, user) <==> exists i :: Counts(run, i, user) && run[i].snapshot == s
  {
    if run != [] {
      var n := |run| - 1;
      SnapshotsCount(run[..n], user, s);
      if i :| Counts(run, i, user) && run[i].snapshot == s {
        assert i == n || Counts(run[..n], i, user);
      }
      if i :| Counts(run[..n], i, user) && run[..n][i].snapshot == s {
        assert Counts(run, i, user);
      }
    }
  }

  lemma WinnerIsGreatest(run: seq<Arrival>, user: Str, s: Snapshot)
    requires s in Snapshots(run, user)
    ensures Winner(run, user).Some?
    ensures run[Winner(run, user).value].snapshot in Snapshots(run, user)
    ensures Version(s) <= Version(run[Winner(run, user).value].snapshot)
  {
    SnapshotsCount(run, user, s);
    var i :| Counts(run, i, user) && run[i].snapshot == s;
    var w := Winner(run, user).value;
    assert NotBeaten(run, w, i);
    SnapshotsCount(run, user, run[w].snapshot);
  }

  ghost predicate Readable(snapshots: set<Snapshot>) {
    forall s :: s in snapshots ==> !s.updatedAt.NotADate?
  }

  ghost predicate Greatest(snapshots: set<Snapshot>, s: Snapshot) {
    s in snapshots && forall x :: x in snapshots ==> Version(x) <= Version(s)
  }

  /** Whatever wins a run has the greatest version, and something wins unless nothing arrived. */
  lemma WinnerOf(run: seq<Arrival>, user: Str)
    ensures var w := Winner(run, user);
      if Snapshots(run, user) == {} then w.None?
      else w.Some? && Greatest(Snapshots(run, user), run[w.value].snapshot)
  {
    var w := Winner(run, user);
    if w.Some? { SnapshotsCount(run, user, run[w.value].snapshot); }
    forall s | s in Snapshots(run, user) ensures w.Some? && Version(s) <= Version(run[w.value].snapshot) {
      WinnerIsGreatest(run, user, s);
    }
  }

  /** Replicas that have received these snapshots, in whatever order and however often, agree. */
  ghost predicate Convergent(snapshots: set<Snapshot>, user: Str) {
    forall p, q :: Snapshots(p, user) == snapshots && Snapshots(q, user) == snapshots ==>
      View(After(p), user) == View(After(q), user)
  }

  /** The greatest version comes with its date and stands for one policy. */
  ghost predicate OneGreatest(snapshots: set<Snapshot>) {
    forall s, s' :: Greatest(snapshots, s) && Greatest(snapshots, s') ==> SamePolicy(s, s')
  }

  predicate SamePolicy(s: Snapshot, s': Snapshot) {
    s.updatedAt.Given? && s'.updatedAt.Given? && PolicyOf(s, 0) == PolicyOf(s', 0)
  }

  /** What is stored, by way of the winner. */
  lemma StoredIsGreatest(run: seq<Arrival>, user: Str, snapshots: set<Snapshot>) returns (a: Option<Arrival>)
    requires Snapshots(run, user) == snapshots
    ensures a.Some? <==> snapshots != {}
    ensures a.Some? ==> Greatest(snapshots, a.value.snapshot)
    ensures View(After(run), user) == if a.Some? then Some(PolicyOf(a.value.snapshot, a.value.now)) else None
  {
    StoredIsWinner(run, user);
    WinnerOf(run, user);
    var w := Winner(run, user);
    a := if w.Some? then Some(run[w.value]) else None;
  }

  lemma SamePolicyAnytime(s: Snapshot, s': Snapshot, now: int, now': int)
    requires SamePolicy(s, s')
    ensures PolicyOf(s, now) == PolicyOf(s', now')
  {
  }

  lemma AgreeOnGreatest(p: seq<Arrival>, q: seq<Arrival>, user: Str, snapshots: set<Snapshot>)
    requires OneGreatest(snapshots)
    requires Snapshots(p, user) == snapshots && Snapshots(q, user) == snapshots
    ensures View(After(p), user) == View(After(q), user)
  {
    var a := StoredIsGreatest(p, user, snapshots);
    var b := StoredIsGreatest(q, user, snapshots);
    if snapshots != {} {
      SamePolicyAnytime(a.value.snapshot, b.value.snapshot, a.value.now, b.value.now);
    }
  }

  lemma {:induction false} SomeRun(snapshots: set<Snapshot>, user: Str) returns (run: seq<Arrival>)
    requires Readable(snapshots)
    ensures Snapshots(run, user) == snapshots
  {
    if snapshots == {} { return []; }
    var s :| s in snapshots;
    var front := SomeRun(snapshots - {s}, user);
    run := front + [Arrival(0, user, s)];
    assert run[..|front|] == front;
  }

  /** A snapshot of the greatest version is what is stored if it arrives last. */
  lemma LastGreatest(snapshots: set<Snapshot>, user: Str, s: Snapshot, now: int) returns (run: seq<Arrival>)
    requires Readable(snapshots) && Greatest(snapshots, s)
    ensures Snapshots(run, user) == snapshots && View(After(run), user) == Some(PolicyOf(s, now))
  {
    var front := SomeRun(snapshots, user);
    run := front + [Arrival(now, user, s)];
    var n := |front|;
    assert run[..n] == front;
    StoredIsWinner(run, user);
    WinnerOf(front, user);
  }

  /** Order and time of arrival are irrelevant exactly when the greatest version comes with its date and
      stands for one policy. */
  lemma ConvergentIff(snapshots: set<Snapshot>, user: Str)
    requires Readable(snapshots)
    ensures Convergent(snapshots, user) <==> OneGreatest(snapshots)
  {
    if OneGreatest(snapshots) {
      forall p, q | Snapshots(p, user) == snapshots && Snapshots(q, user) == snapshots
        ensures View(After(p), user) == View(After(q), user)
      {
        AgreeOnGreatest(p, q, user, snapshots);
      }
    } else {
      var s, s' :| Greatest(snapshots, s) && Greatest(snapshots, s') && !SamePolicy(s, s');
      if !s'.updatedAt.Given? { s := s'; }
      var p := LastGreatest(snapshots, user, s, 0);
      var q := LastGreatest(snapshots, user, if s.updatedAt.Given? then s' else s, 1);
    }
  }

  /** In particular, when no two snapshots share a version, exactly when the greatest one comes with its
      date. */
  lemma DistinctVersionsConverge(snapshots: set<Snapshot>, user: Str)
    requires Readable(snapshots) && VersionsDistinct(snapshots)
    ensures Convergent(snapshots, user) <==> forall s :: Greatest(snapshots, s) ==> s.updatedAt.Given?
  {
    ConvergentIff(snapshots, user);
    forall s, s' | Greatest(snapshots, s) && Greatest(snapshots, s') ensures s == s' {
      assert Version(s) <= Version(s') <= Version(s);
    }
    forall s | Greatest(snapshots, s) ensures SamePolicy(s, s) <==> s.updatedAt.Given? {}
  }

  // ----- decisions -----

  /** What the notification is about; `channel` is `None` when it is not one of the four. */
  datatype Mute = Mute(channel: Option<Channel>, target: Str)

  datatype Reason = MissingSnapshot | Blocked | MutedOn(channel: Channel) | AllowAll | Contact | NotContact

  /** `version` and `hash` are those of the policy, if there is one. */
  datatype Decision = Decision(allowed: bool, reason: Reason, version: Option<real>, hash: Str, contactsCount: nat,
                               blockedCount: nat)

  function Decided(p: Policy, allowed: bool, reason: Reason): Decision {
    Decision(allowed, reason, Some(p.version), p.hash, |p.contacts|, |p.blocked|)
  }

  /** notificationMuteDecision. */
  function MuteDecision(p: Policy, mute: Option<Mute>): Option<Reason> {
    if mute.None? || Trim(mute.value.target) == [] || mute.value.channel.None? then None
    else if Trim(mute.value.target) in p.mutes.On(mute.value.channel.value)
    then Some(MutedOn(mute.value.channel.value))
    else None
  }

  /** decideAccessPolicy. */
  function Decide(policy: Option<Policy>, sender: Str, mute: Option<Mute>, dropMissing: bool): Decision {
    match policy
    case None => Decision(!dropMissing, MissingSnapshot, None, [], 0, 0)
    case Some(p) =>
      if sender in p.blocked then Decided(p, false, Blocked)
      else if MuteDecision(p, mute).Some?
      then Decided(p, false, MuteDecision(p, mute).value)
      else if !p.onlyContacts then Decided(p, true, AllowAll)
      else if sender in p.contacts then Decided(p, true, Contact)
      else Decided(p, false, NotContact)
  }

  /** An id is in one of a snapshot's lists as the server reads it. */
  ghost predicate Lists(values: seq<Str>, id: Str) {
    id != [] && |id| <= 128 && IsTrimOf(id, values)
  }

  ghost predicate Mutes?(s: Snapshot, mute: Option<Mute>) {
    mute.Some? && mute.value.channel.Some? && Lists(s.muted.On(mute.value.channel.value), Trim(mute.value.target))
  }

  lemma NormalizedLists(values: seq<Str>, id: Str)
    ensures id in IdSet(values) <==> Lists(values, id)
  {
  }

  lemma MutesOn(s: Snapshot, c: Channel)
    ensures MutesOf(s).On(c) == IdSet(s.muted.On(c))
  {
  }

  lemma MuteOfSnapshot(s: Snapshot, now: int, mute: Option<Mute>)
    ensures MuteDecision(PolicyOf(s, now), mute) ==
      if Mutes?(s, mute) then Some(MutedOn(mute.value.channel.value)) else None
  {
    if mute.Some? && mute.value.channel.Some? {
      MutesOn(s, mute.value.channel.value);
      NormalizedLists(s.muted.On(mute.value.channel.value), Trim(mute.value.target));
    }
  }

  /** A decision depends on one snapshot, the winning one, and reads it in the order blocks, mutes,
      contacts. */
  lemma DecisionOfWinner(run: seq<Arrival>, i: nat, user: Str, sender: Str, mute: Option<Mute>, dropMissing: bool)
    requires Wins(run, i, user)
    ensures var s, d := run[i].snapshot, Decide(View(After(run), user), sender, mute, dropMissing);
      d.version == Some(Version(s)) &&
      (d.reason == Blocked <==> Lists(s.blocked, sender)) &&
      (d.reason.MutedOn? <==> !Lists(s.blocked, sender) && Mutes?(s, mute)) &&
      (d.reason == AllowAll <==> !Lists(s.blocked, sender) && !Mutes?(s, mute) && !s.onlyContacts) &&
      (d.reason == Contact <==>
        !Lists(s.blocked, sender) && !Mutes?(s, mute) && s.onlyContacts && Lists(s.contacts, sender)) &&
      (d.allowed <==>
        !Lists(s.blocked, sender) && !Mutes?(s, mute) && (s.onlyContacts ==> Lists(s.contacts, sender)))
  {
    GreatestVersionIsStored(run, i, user);
    MuteOfSnapshot(run[i].snapshot, run[i].now, mute);
    NormalizedLists(run[i].snapshot.blocked, sender);
    NormalizedLists(run[i].snapshot.contacts, sender);
  }

  /** Without its date the stored policy may differ, but when no two snapshots share a version every
      decision is the same, whatever the order, number and times of arrival. */
  lemma DecisionsConverge(p: seq<Arrival>, q: seq<Arrival>, user: Str, sender: Str, mute: Option<Mute>,
                          dropMissing: bool)
    requires VersionsDistinct(Snapshots(p, user)) && Snapshots(q, user) == Snapshots(p, user)
    ensures Decide(View(After(p), user), sender, mute, dropMissing) ==
      Decide(View(After(q), user), sender, mute, dropMissing)
  {
    var a := StoredIsGreatest(p, user, Snapshots(p, user));
    var b := StoredIsGreatest(q, user, Snapshots(p, user));
    if a.Some? {
      assert Version(a.value.snapshot) <= Version(b.value.snapshot) <= Version(a.value.snapshot);
      DateIsNotRead(a.value.snapshot, a.value.now, b.value.now, sender, mute, dropMissing);
    }
  }

  lemma DateIsNotRead(s: Snapshot, now: int, now': int, sender: Str, mute: Option<Mute>, dropMissing: bool)
    ensures Decide(Some(PolicyOf(s, now)), sender, mute, dropMissing) ==
      Decide(Some(PolicyOf(s, now')), sender, mute, dropMissing)
  {
  }

  lemma {:induction false} SyncedAtArrival(run: seq<Arrival>, user: Str)
    ensures user in After(run).policies <==> Winner(run, user).Some?
    ensures Winner(run, user).Some? ==> After(run).policies[user].syncedAt == run[Winner(run, user).value].now
  {
    if run != [] {
      SyncedAtArrival(run[..|run| - 1], user);
      StoredIsWinner(run[..|run| - 1], user);
    }
  }

  /** What is stored, field by field: the winning snapshot's, with its date or else the time of arrival. */
  lemma StoredFields(run: seq<Arrival>, i: nat, user: Str)
    requires Wins(run, i, user)
    ensures var a, view := run[i], View(After(run), user);
      view.Some? && view.value.onlyContacts == a.snapshot.onlyContacts && view.value.hash == a.snapshot.hash &&
      view.value.version == (if a.snapshot.version.Some? then a.snapshot.version.value else 0.0) &&
      view.value.updatedAt == (if a.snapshot.updatedAt.Given? then a.snapshot.updatedAt.at else a.now) &&
      (forall id :: id in view.value.contacts <==> Lists(a.snapshot.contacts, id)) &&
      (forall id :: id in view.value.blocked <==> Lists(a.snapshot.blocked, id)) &&
      (forall c: Channel, id :: id in view.value.mutes.On(c) <==> Lists(a.snapshot.muted.On(c), id)) &&
      user in After(run).policies && After(run).policies[user].syncedAt == a.now
  {
    GreatestVersionIsStored(run, i, user);
    SyncedAtArrival(run, user);
    WinnerUnique(run, i, Winner(run, user).value, user);
    forall c: Channel, id ensures id in MutesOf(run[i].snapshot).On(c) <==> Lists(run[i].snapshot.muted.On(c), id) {
      MutesOn(run[i].snapshot, c);
      NormalizedLists(run[i].snapshot.muted.On(c), id);
    }
  }

  /** Before anything readable has arrived for a user the mode decides: pass, or drop. */
  lemma DecisionWithoutSnapshot(run: seq<Arrival>, user: Str, sender: Str, mute: Option<Mute>, dropMissing: bool)
    requires forall j :: !Counts(run, j, user)
    ensures var d := Decide(View(After(run), user), sender, mute, dropMissing);
      d.allowed == !dropMissing && d.reason == MissingSnapshot && d.version == None && d.hash == []
  {
    StoredIsWinner(run, user);
  }

  /** A decision tells version, hash and numbers of the policy it was made by. */
  lemma DecisionTells(p: Policy, sender: Str, mute: Option<Mute>, dropMissing: bool)
    ensures var d := Decide(Some(p), sender, mute, dropMissing);
      d.version == Some(p.version) && d.hash == p.hash && d.contactsCount == |p.contacts| &&
      d.blockedCount == |p.blocked| && d.reason != MissingSnapshot
  {
  }

  /** The answer to a snapshot: refused without a readable date; stale, with version and hash of what is stored,
      exactly if a greater version has arrived; else stored, with its own. */
  lemma UpsertAnswer(run: seq<Arrival>, user: Str, s: Snapshot)
    ensures var v := Verdict(After(run), user, s);
      (v.InvalidUpdatedAt? <==> s.updatedAt.NotADate?) &&
      (v.Stale? <==> !s.updatedAt.NotADate? && exists i :: Outruns(run, i, user, s)) &&
      (v.Stale? ==> exists i ::
        Wins(run, i, user) && v.version == Version(run[i].snapshot) && v.hash == run[i].snapshot.hash) &&
      (v.Stored? ==> v.version == Version(s) && v.hash == s.hash)
  {
    StoredIsWinner(run, user);
    var w := Winner(run, user);
    if w.Some? {
      assert Wins(run, w.value, user);
      assert Version(s) < Version(run[w.value].snapshot) ==> Outruns(run, w.value, user, s);
      if i :| Outruns(run, i, user, s) { assert NotBeaten(run, w.value, i); }
    }
  }

  predicate Outruns(run: seq<Arrival>, i: int, user: Str, s: Snapshot) {
    Counts(run, i, user) && Version(s) < Version(run[i].snapshot)
  }
}
