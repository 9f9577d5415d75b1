/** What group membership updates and sweeps do in one step. */
module RelayGroupLaws {
  import opened JsText
  import opened RelayTypes
  import opened RelayGroups
  import opened RelayMachine

  function Lookup(gs: Groups, g: Str): Option<Membership> {
    if g in gs then Some(gs[g]) else None
  }

  predicate AcceptedUpdate(c: Config, s: State, entry: Entry, g: Str) {
    entry.event.Update? && entry.event.update.groupId == g &&
    UpdateVerdict(c, s.groups, entry.event.update, entry.now) == Accepted
  }

  predicate Delegated(req: MembersRequest) {
    req.from != req.owner
  }

  // ----- the membership after one step -----

  predicate Sweeps(c: Config, s: State, entry: Entry) {
    entry.event.Sweep? || (entry.event.GroupStore? && GroupSigned(c, entry.event.group))
  }

  function Swept(m: Option<Membership>, c: Config, now: int): Option<Membership> {
    if m.None? then None else SweepMembership(m.value, c, now)
  }

  /** Everything that can happen to one group in one step. */
  lemma StepGroup(c: Config, s: State, entry: Entry, g: Str)
    ensures var old', new' := Lookup(s.groups, g), Lookup(StepGroups(c, s, entry), g);
      if AcceptedUpdate(c, s, entry, g) then
        var req := entry.event.update;
        new' == Some(Active(req.owner, Elements(NormalizePeerIds(req.memberPeerIds)),
                            NextDelegations(c, s.groups, req, entry.now), entry.now, false))
      else if !Sweeps(c, s, entry) then new' == old'
      else
        var swept := Swept(old', c, entry.now);
        new' == swept ||
        (swept == None && entry.event.GroupStore? && entry.event.group.groupId == g &&
         new' == Some(Active(entry.event.group.from, {entry.event.group.from} + Elements(Recipients(entry.event.group)),
                             map[], entry.now, true)))
  {
    match entry.event
    case GroupStore(group) =>
      var swept := SweepGroups(s.groups, c, entry.now);
      assert Lookup(swept, g) == Swept(Lookup(s.groups, g), c, entry.now);
    case Sweep =>
    case Update(req) =>
    case _ =>
  }

  // ----- what every reachable table satisfies -----

  ghost predicate ProperMembership(m: Membership) {
    m.Active? ==>
      m.owner in m.members && (m.provisional ==> m.delegations == map[]) && (!m.provisional ==> Normal(m.members))
  }

  ghost predicate Proper(gs: Groups) {
    forall g :: g in gs ==> ProperMembership(gs[g])
  }

  lemma StepKeepsProper(c: Config, s: State, entry: Entry)
    requires Proper(s.groups)
    ensures Proper(StepGroups(c, s, entry))
  {
    forall g | g in StepGroups(c, s, entry) ensures ProperMembership(StepGroups(c, s, entry)[g]) {
      StepGroup(c, s, entry, g);
      assert Lookup(StepGroups(c, s, entry), g).Some?;
      assert g in s.groups ==> ProperMembership(s.groups[g]);
    }
  }

  /** In every reachable state the owner is a member, provisional records carry no administrator
      tokens, and updated records hold normalized ids. */
  lemma {:induction false} ReachableGroups(c: Config, run: seq<Entry>)
    ensures Proper(After(c, EMPTY, run).groups)
  {
    if run != [] {
      ReachableGroups(c, run[..|run| - 1]);
      StepKeepsProper(c, After(c, EMPTY, run[..|run| - 1]), run[|run| - 1]);
    }
  }

  // ----- the lifecycle: absent, provisional, owned, expired -----

  /** An owned group stays owned by the same peer or expires: it expires only when no update was
      accepted for longer than its lifetime, and it changes only by an accepted update. */
  lemma OwnedStep(c: Config, s: State, entry: Entry, g: Str)
    requires g in s.groups && s.groups[g].Active? && !s.groups[g].provisional
    ensures var gs' := StepGroups(c, s, entry);
      g in gs' && (gs'[g].Expired? || (!gs'[g].provisional && gs'[g].owner == s.groups[g].owner))
    ensures var new' := StepGroups(c, s, entry)[g];
      if new'.Expired?
      then new'.expiredAtMs == entry.now > s.groups[g].updatedAtMs + c.groupTtlSeconds * 1000 && Sweeps(c, s, entry)
      else if AcceptedUpdate(c, s, entry, g)
      then new'.updatedAtMs == entry.now && new'.members == Elements(NormalizePeerIds(entry.event.update.memberPeerIds))
      else new' == s.groups[g]
  {
    StepGroup(c, s, entry, g);
  }

  /** An expired group changes only by an update its owner signed or by the deletion of a tombstone
      that has outlived its retention. */
  lemma ExpiredStep(c: Config, s: State, entry: Entry, g: Str)
    requires g in s.groups && s.groups[g].Expired?
    ensures Lookup(StepGroups(c, s, entry), g) == Lookup(s.groups, g) ||
      (AcceptedUpdate(c, s, entry, g) && !Delegated(entry.event.update)) ||
      s.groups[g].expiredAtMs < entry.now - c.groupTombstoneTtlSeconds * 1000
  {
    StepGroup(c, s, entry, g);
  }

  /** A provisional record appears only where there was none, or only an outlived tombstone. */
  lemma BootstrapStep(c: Config, s: State, entry: Entry, g: Str)
    requires var gs' := StepGroups(c, s, entry);
      g in gs' && gs'[g].Active? && gs'[g].provisional && Lookup(s.groups, g) != Some(gs'[g])
    ensures entry.event.GroupStore? && entry.event.group.groupId == g
    ensures g in s.groups ==>
      s.groups[g].Expired? && s.groups[g].expiredAtMs < entry.now - c.groupTombstoneTtlSeconds * 1000
  {
    StepGroup(c, s, entry, g);
  }

  lemma {:induction false} OwnerIsStable(c: Config, s: State, run: seq<Entry>, g: Str)
    requires g in s.groups && s.groups[g].Active? && !s.groups[g].provisional
    requires forall k :: 0 <= k <= |run| ==> Lookup(After(c, s, run[..k]).groups, g) != None ==>
               Lookup(After(c, s, run[..k]).groups, g).value.Active?
    ensures var gs' := After(c, s, run).groups;
      g in gs' && gs'[g].Active? && !gs'[g].provisional && gs'[g].owner == s.groups[g].owner
  {
    if run != [] {
      var n := |run| - 1;
      forall k | 0 <= k <= n ensures run[..n][..k] == run[..k] {}
      OwnerIsStable(c, s, run[..n], g);
      OwnedStep(c, After(c, s, run[..n]), run[n], g);
      assert run[..|run|] == run;
    }
  }

  // ----- administrator tokens -----

  /** Only publication changes the token set of an owned group; taking over a provisional or expired
      group without publishing starts with none. */
  lemma UpdateTokens(c: Config, s: State, entry: Entry, g: Str)
    requires Proper(s.groups) && AcceptedUpdate(c, s, entry, g)
    ensures var req, new' := entry.event.update, StepGroups(c, s, entry)[g];
      new'.Active? && new'.delegations ==
        if Publishes(req) then PublishedTokens(c, req, req.adminDelegations.value, entry.now).0
        else if g in s.groups && s.groups[g].Active? && !s.groups[g].provisional then s.groups[g].delegations
        else map[]
    ensures Publishes(entry.event.update) ==> entry.event.update.adminDelegations.Some?
  {
    StepGroup(c, s, entry, g);
    assert g in s.groups ==> ProperMembership(s.groups[g]);
  }

  /** An accepted delegated update presents a token the group holds, for the group's own owner. */
  lemma DelegatedHoldsToken(c: Config, s: State, entry: Entry, g: Str)
    requires AcceptedUpdate(c, s, entry, g) && Delegated(entry.event.update)
    ensures var req := entry.event.update;
      g in s.groups && s.groups[g].Active? && !s.groups[g].provisional && s.groups[g].owner == req.owner &&
      req.adminDelegation.Some? && HoldsToken(s.groups[g], req.from, TokenOf(req.adminDelegation.value)) &&
      req.adminDelegation.value.expiresAtMs >= entry.now as real
  {
  }

  /** The k-th listed delegation is the last one for the administrator, signed by the key that signed
      the request, for the same group and version, and it yields the token. */
  ghost predicate Grants(c: Config, req: MembersRequest, ds: seq<Delegation>, k: nat, admin: Str, t: Token) {
    && k < |ds| && ds[k].adminPeerId == admin && TokenOf(ds[k]) == t
    && (forall j :: k < j < |ds| ==> ds[j].adminPeerId != admin)
    && DelegationSigned(c, ds[k]) && ds[k].ownerSigningPub == req.signingPub
    && ds[k].groupId == req.groupId && Some(ds[k].delegationVersion) == req.delegationVersion
  }

  /** Whether a token is granted is decided by the last delegation for the administrator. */
  lemma GrantsNext(c: Config, req: MembersRequest, ds: seq<Delegation>, d: Delegation, admin: Str, t: Token)
    ensures (exists k :: Grants(c, req, ds + [d], k, admin, t)) <==>
      if d.adminPeerId == admin then Grants(c, req, ds + [d], |ds|, admin, t)
      else exists k :: Grants(c, req, ds, k, admin, t)
  {
    var all := ds + [d];
    assert all[|ds|] == d && forall j :: 0 <= j < |ds| ==> all[j] == ds[j];
    if k :| Grants(c, req, all, k, admin, t) {
      if d.adminPeerId == admin {
        assert k == |ds|;
      } else {
        assert Grants(c, req, ds, k, admin, t);
      }
    }
    if d.adminPeerId != admin && exists k :: Grants(c, req, ds, k, admin, t) {
      var k :| Grants(c, req, ds, k, admin, t);
      assert Grants(c, req, all, k, admin, t);
    }
  }

  lemma PublishedNext(c: Config, req: MembersRequest, ds: seq<Delegation>, now: int)
    requires ds != [] && PublishedTokens(c, req, ds, now).1 == None
    ensures var d, front := ds[|ds| - 1], ds[..|ds| - 1];
      PublishedTokens(c, req, front, now).1 == None &&
      PublishedTokens(c, req, ds, now).0 == PublishedTokens(c, req, front, now).0[d.adminPeerId := TokenOf(d)] &&
      DelegationSigned(c, d) && d.ownerSigningPub == req.signingPub &&
      d.groupId == req.groupId && Some(d.delegationVersion) == req.delegationVersion
  {
  }

  /** The kept tokens are exactly the granted ones. */
  lemma {:induction false} PublishedEntries(c: Config, req: MembersRequest, ds: seq<Delegation>, now: int, admin: Str,
                                            t: Token)
    requires PublishedTokens(c, req, ds, now).1 == None
    ensures var tokens := PublishedTokens(c, req, ds, now).0;
      (admin in tokens && tokens[admin] == t) <==> exists k :: Grants(c, req, ds, k, admin, t)
  {
    if ds != [] {
      var n := |ds| - 1;
      assert ds == ds[..n] + [ds[n]];
      PublishedNext(c, req, ds, now);
      PublishedEntries(c, req, ds[..n], now, admin, t);
      GrantsNext(c, req, ds[..n], ds[n], admin, t);
    }
  }

  // ----- when an update is accepted -----

  /** A reissued token that belongs to this request and carries the owner's signature. */
  predicate Reissued(c: Config, req: MembersRequest, d: Delegation, now: int) {
    d.version == 1.0 && d.groupId == req.groupId && Some(d.delegationVersion) == req.delegationVersion &&
    d.ownerSigningPub == req.signingPub && d.expiresAtMs >= now as real && DelegationSigned(c, d)
  }

  lemma {:induction false} AllReissued(c: Config, req: MembersRequest, ds: seq<Delegation>, now: int)
    ensures PublishedTokens(c, req, ds, now).1 == None <==> forall k :: 0 <= k < |ds| ==> Reissued(c, req, ds[k], now)
  {
    if ds != [] {
      AllReissued(c, req, ds[..|ds| - 1], now);
      assert forall k :: 0 <= k < |ds| - 1 ==> ds[..|ds| - 1][k] == ds[k];
    }
  }

  /** The group takes this peer for its owner: it is unknown, expired or provisional, or has that owner. */
  predicate OwnerFits(s: State, g: Str, owner: Str) {
    g in s.groups && s.groups[g].Active? && !s.groups[g].provisional ==> s.groups[g].owner == owner
  }

  /** An owner's update is accepted exactly when the owner fits and is listed as a member, the owner's
      key signed it, and, if it carries a version, every token with it was reissued for it. */
  lemma OwnerAcceptedIff(c: Config, s: State, req: MembersRequest, now: int)
    requires !Delegated(req)
    ensures UpdateVerdict(c, s.groups, req, now) == Accepted <==>
      OwnerFits(s, req.groupId, req.owner) && req.owner in NormalizePeerIds(req.memberPeerIds) &&
      OwnerSigned(c, req, NormalizePeerIds(req.memberPeerIds)) &&
      (req.delegationVersion.Some? ==>
        IsNaturalNumber(req.delegationVersion.value) && req.adminDelegations.Some? &&
        forall k :: 0 <= k < |req.adminDelegations.value| ==> Reissued(c, req, req.adminDelegations.value[k], now))
  {
    if req.adminDelegations.Some? { AllReissued(c, req, req.adminDelegations.value, now); }
  }

  function MembersOf(s: State, g: Str): set<Str> {
    if g in s.groups && s.groups[g].Active? then s.groups[g].members else {}
  }

  /** The token names this group and administrator, is in force, and permits the action. */
  predicate TokenFits(req: MembersRequest, d: Delegation, now: int) {
    d.version == 1.0 && d.groupId == req.groupId && d.adminPeerId == req.from && d.expiresAtMs >= now as real &&
    !req.action.Unknown? && Permission(req.action) in d.permissions
  }

  /** The change spares the owner and the protected peers and leads to the listed members. */
  predicate ChangeFits(req: MembersRequest, d: Delegation, present: set<Str>) {
    var members, changed := NormalizePeerIds(req.memberPeerIds), NormalizePeerIds(req.changedPeerIds);
    changed != [] && req.owner in NormalizePeerIds(d.protectedPeerIds) &&
    !Touches(changed, NormalizePeerIds(d.protectedPeerIds)) &&
    req.owner in members && req.owner in ExpectedMembers(present, req.action, changed) &&
    JoinsLike(ExpectedMembers(present, req.action, changed), members)
  }

  /** What a delegated request must be by itself, given the present members. */
  predicate ProperDelegatedRequest(c: Config, req: MembersRequest, present: set<Str>, now: int) {
    req.adminDelegation.Some? &&
    var d := req.adminDelegation.value;
    TokenFits(req, d, now) && ChangeFits(req, d, present) && DelegationSigned(c, d) &&
    AdminSigned(c, req, NormalizePeerIds(req.memberPeerIds), NormalizePeerIds(req.changedPeerIds), d)
  }

  /** The group has this owner, and the token is one it holds for the administrator. */
  predicate GroupFits(s: State, req: MembersRequest, t: Token) {
    req.groupId in s.groups && s.groups[req.groupId].Active? && !s.groups[req.groupId].provisional &&
    s.groups[req.groupId].owner == req.owner && HoldsToken(s.groups[req.groupId], req.from, t)
  }

  /** The checks pass exactly when each of them does. */
  lemma ChecksPassIff(c: Config, gs: Groups, req: MembersRequest, d: Delegation, members: seq<Str>, changed: seq<Str>,
                      protectedIds: seq<Str>, now: int)
    ensures DelegateChecks(c, gs, req, d, members, changed, protectedIds, now) == Accepted <==>
      TokenFits(req, d, now) && changed != [] &&
      req.groupId in gs && gs[req.groupId].Active? && !gs[req.groupId].provisional &&
      HoldsToken(gs[req.groupId], req.from, TokenOf(d)) &&
      req.owner in protectedIds && !Touches(changed, protectedIds) && DelegationSigned(c, d) &&
      req.owner in ExpectedMembers(gs[req.groupId].members, req.action, changed) &&
      JoinsLike(ExpectedMembers(gs[req.groupId].members, req.action, changed), members) &&
      AdminSigned(c, req, members, changed, d)
  {
  }

  /** A delegated update is accepted exactly when it is proper by itself and the group has that owner
      and holds that token. */
  lemma DelegatedAcceptedIff(c: Config, s: State, req: MembersRequest, now: int)
    requires Delegated(req)
    ensures UpdateVerdict(c, s.groups, req, now) == Accepted <==>
      ProperDelegatedRequest(c, req, MembersOf(s, req.groupId), now) &&
        GroupFits(s, req, TokenOf(req.adminDelegation.value))
  {
    if req.adminDelegation.Some? {
      ChecksPassIff(c, s.groups, req, req.adminDelegation.value, NormalizePeerIds(req.memberPeerIds),
                    NormalizePeerIds(req.changedPeerIds),
                    NormalizePeerIds(req.adminDelegation.value.protectedPeerIds), now);
    }
  }

  // ----- the member change of a delegated update -----

  ghost predicate CommaFree(ids: set<Str>) {
    forall x :: x in ids ==> Without(COMMA, x)
  }

  /** The set a delegated request asks for. */
  function Requested(s: State, req: MembersRequest): set<Str>
    requires req.groupId in s.groups && s.groups[req.groupId].Active?
  {
    ExpectedMembers(s.groups[req.groupId].members, req.action, NormalizePeerIds(req.changedPeerIds))
  }

  /** An accepted delegated update has passed the comparison of joined lists; its changes spare the
      protected peers and the owner stays. */
  lemma DelegatedPassed(c: Config, s: State, entry: Entry, g: Str)
    requires AcceptedUpdate(c, s, entry, g) && Delegated(entry.event.update)
    ensures var req := entry.event.update;
      g in s.groups && s.groups[g].Active? && req.groupId == g && req.adminDelegation.Some? &&
      JoinsLike(Requested(s, req), NormalizePeerIds(req.memberPeerIds)) && req.owner in Requested(s, req) &&
      forall p :: p in NormalizePeerIds(req.adminDelegation.value.protectedPeerIds) ==>
        p !in NormalizePeerIds(req.changedPeerIds)
  {
  }

  /** Lists that join alike have the same elements exactly when neither has a comma in an id. */
  lemma JoinsLikeIff(expected: set<Str>, values: seq<Str>)
    requires Normal(expected) && CommaFree(Elements(NormalizePeerIds(values))) &&
      JoinsLike(expected, NormalizePeerIds(values))
    ensures Elements(NormalizePeerIds(values)) == expected <==> CommaFree(expected)
  {
    NormalizeListing(Listing(expected), expected);
    if CommaFree(expected) {
      JoinInjective(NormalizePeerIds(Listing(expected)), NormalizePeerIds(values));
    }
  }

  lemma RequestedIsNormal(s: State, req: MembersRequest)
    requires req.groupId in s.groups && s.groups[req.groupId].Active? && Normal(s.groups[req.groupId].members)
    ensures Normal(Requested(s, req))
  {
  }

  /** With comma-free ids in the request, the new member set is the old one plus or minus the
      changed peers exactly when the set asked for is free of commas too. */
  lemma DelegatedDelta(c: Config, s: State, entry: Entry, g: Str)
    requires Proper(s.groups) && AcceptedUpdate(c, s, entry, g) && Delegated(entry.event.update)
    requires CommaFree(Elements(NormalizePeerIds(entry.event.update.memberPeerIds)))
    ensures g in s.groups && s.groups[g].Active? && g in StepGroups(c, s, entry) && StepGroups(c, s, entry)[g].Active?
    ensures var req := entry.event.update;
      StepGroups(c, s, entry)[g].members == Requested(s, req) <==> CommaFree(Requested(s, req))
  {
    var req := entry.event.update;
    DelegatedHoldsToken(c, s, entry, g);
    DelegatedPassed(c, s, entry, g);
    StepGroup(c, s, entry, g);
    assert ProperMembership(s.groups[g]);
    RequestedIsNormal(s, req);
    JoinsLikeIff(Requested(s, req), req.memberPeerIds);
  }

  /** Every peer that the request does not name is a member afterwards exactly if it was one before. */
  ghost predicate OthersKept(s: State, s': Groups, req: MembersRequest)
    requires req.groupId in s.groups && s.groups[req.groupId].Active?
    requires req.groupId in s' && s'[req.groupId].Active?
  {
    forall p :: p !in NormalizePeerIds(req.changedPeerIds) ==>
      (p in s.groups[req.groupId].members <==> p in s'[req.groupId].members)
  }

  /** One more than the length of the joined text. */
  function Weight(xs: seq<Str>): nat {
    if xs == [] then 0 else |xs[0]| + 1 + Weight(xs[1..])
  }

  lemma {:induction false} JoinLength(xs: seq<Str>)
    requires xs != []
    ensures |Join(xs)| + 1 == Weight(xs)
  {
    if |xs| > 1 { JoinLength(xs[1..]); } else { assert Weight(xs[1..]) == 0; }
  }

  /** A proper part of an ascending list weighs less. */
  lemma {:induction false} PartWeighsLess(xs: seq<Str>, ys: seq<Str>)
    requires Ascending(xs) && Ascending(ys) && Elements(xs) <= Elements(ys)
    ensures Weight(xs) <= Weight(ys) && (Weight(xs) == Weight(ys) ==> xs == ys)
    decreases |ys|
  {
    if xs != [] {
      assert xs[0] in Elements(ys);
      forall x ensures (x in xs[1..] <==> x in xs && x != xs[0]) && (x in ys[1..] <==> x in ys && x != ys[0]) {
        TailDropsHead(xs, x);
        TailDropsHead(ys, x);
      }
      if xs[0] == ys[0] {
        PartWeighsLess(xs[1..], ys[1..]);
        assert xs == [xs[0]] + xs[1..] && ys == [ys[0]] + ys[1..];
      } else {
        HeadIsNotIn(xs, ys);
        PartWeighsLess(xs, ys[1..]);
      }
    }
  }

  lemma HeadIsNotIn(xs: seq<Str>, ys: seq<Str>)
    requires Ascending(xs) && Ascending(ys) && Elements(xs) <= Elements(ys) && xs != [] && ys != [] && xs[0] != ys[0]
    ensures ys[0] !in xs
  {
    assert xs[0] in Elements(ys);
    if i :| 0 <= i < |xs| && xs[i] == ys[0] {
      var j :| 0 <= j < |ys| && ys[j] == xs[0];
      assert Less(ys[0], ys[j]) && Less(xs[0], xs[i]);
      LessTransitive(xs[0], ys[0], xs[0]);
      LessTrichotomy(xs[0], xs[0]);
    }
  }

  /** Of two sets that join alike neither is a proper part of the other. */
  lemma JoinsLikePart(expected: set<Str>, values: seq<Str>)
    requires Normal(expected) && JoinsLike(expected, NormalizePeerIds(values))
    requires expected != {} && NormalizePeerIds(values) != []
    requires expected <= Elements(NormalizePeerIds(values)) || Elements(NormalizePeerIds(values)) <= expected
    ensures Elements(NormalizePeerIds(values)) == expected
  {
    var xs, ys := NormalizePeerIds(Listing(expected)), NormalizePeerIds(values);
    NormalizeListing(Listing(expected), expected);
    assert xs != [] by { var x :| x in expected; }
    JoinLength(xs);
    JoinLength(ys);
    if expected <= Elements(ys) { PartWeighsLess(xs, ys); } else { PartWeighsLess(ys, xs); }
  }

  /** What an accepted delegated update leaves behind. */
  lemma DelegatedOutcome(c: Config, s: State, entry: Entry, g: Str)
    requires Proper(s.groups) && AcceptedUpdate(c, s, entry, g) && Delegated(entry.event.update)
    ensures g in s.groups && s.groups[g].Active? && Normal(Requested(s, entry.event.update))
    ensures g in StepGroups(c, s, entry) && StepGroups(c, s, entry)[g].Active?
    ensures StepGroups(c, s, entry)[g].members == Elements(NormalizePeerIds(entry.event.update.memberPeerIds))
    ensures StepGroups(c, s, entry)[g].owner == s.groups[g].owner == entry.event.update.owner
    ensures s.groups[g].owner in s.groups[g].members && s.groups[g].owner in StepGroups(c, s, entry)[g].members
  {
    DelegatedHoldsToken(c, s, entry, g);
    DelegatedPassed(c, s, entry, g);
    StepGroup(c, s, entry, g);
    assert ProperMembership(s.groups[g]);
    RequestedIsNormal(s, entry.event.update);
  }

  /** Whatever the ids are, the peers that the request does not name keep their membership exactly when
      the members listed are the set asked for; with comma-free ids in the list, exactly when the set
      asked for is free of commas. */
  lemma OthersKeptIff(c: Config, s: State, entry: Entry, g: Str)
    requires Proper(s.groups) && AcceptedUpdate(c, s, entry, g) && Delegated(entry.event.update)
    ensures g in s.groups && s.groups[g].Active? && g in StepGroups(c, s, entry) && StepGroups(c, s, entry)[g].Active?
    ensures var req := entry.event.update; var listed := Elements(NormalizePeerIds(req.memberPeerIds));
      (OthersKept(s, StepGroups(c, s, entry), req) <==> listed == Requested(s, req)) &&
      (CommaFree(listed) ==> (OthersKept(s, StepGroups(c, s, entry), req) <==> CommaFree(Requested(s, req))))
  {
    var req := entry.event.update;
    DelegatedOutcome(c, s, entry, g);
    DelegatedPassed(c, s, entry, g);
    if OthersKept(s, StepGroups(c, s, entry), req) {
      KeptIsPart(s, StepGroups(c, s, entry), req);
      JoinsLikePart(Requested(s, req), req.memberPeerIds);
    }
    if CommaFree(Elements(NormalizePeerIds(req.memberPeerIds))) { JoinsLikeIff(Requested(s, req), req.memberPeerIds); }
  }

  lemma KeptIsPart(s: State, s': Groups, req: MembersRequest)
    requires req.groupId in s.groups && s.groups[req.groupId].Active?
    requires req.groupId in s' && s'[req.groupId].Active? && OthersKept(s, s', req)
    ensures Requested(s, req) <= s'[req.groupId].members || s'[req.groupId].members <= Requested(s, req)
  {
    var after, requested := s'[req.groupId].members, Requested(s, req);
    if req.action.Add? {
      forall p | p in after ensures p in requested {}
    } else {
      forall p | p in requested ensures p in after {}
    }
  }

  /** A protected peer keeps its membership exactly when it is listed as it is asked for; so each does if
      the members listed are the set asked for, as they are when neither has a comma. */
  lemma ProtectedUntouched(c: Config, s: State, entry: Entry, g: Str, peer: Str)
    requires Proper(s.groups) && AcceptedUpdate(c, s, entry, g) && Delegated(entry.event.update)
    requires entry.event.update.adminDelegation.Some?
    requires peer in NormalizePeerIds(entry.event.update.adminDelegation.value.protectedPeerIds)
    ensures g in s.groups && s.groups[g].Active? && g in StepGroups(c, s, entry) && StepGroups(c, s, entry)[g].Active?
    ensures var req := entry.event.update; var listed := Elements(NormalizePeerIds(req.memberPeerIds));
      var kept := peer in s.groups[g].members <==> peer in StepGroups(c, s, entry)[g].members;
      (kept <==> (peer in listed <==> peer in Requested(s, req))) &&
      (listed == Requested(s, req) || (CommaFree(listed) && CommaFree(Requested(s, req))) ==> kept)
  {
    OthersKeptIff(c, s, entry, g);
    DelegatedOutcome(c, s, entry, g);
    DelegatedPassed(c, s, entry, g);
  }

  /** The owner stays the owner and a member, whatever the ids are. */
  lemma OwnerUntouched(c: Config, s: State, entry: Entry, g: Str)
    requires Proper(s.groups) && AcceptedUpdate(c, s, entry, g) && Delegated(entry.event.update)
    ensures g in s.groups && s.groups[g].Active? && g in StepGroups(c, s, entry) && StepGroups(c, s, entry)[g].Active?
    ensures StepGroups(c, s, entry)[g].owner == s.groups[g].owner
    ensures s.groups[g].owner in s.groups[g].members && s.groups[g].owner in StepGroups(c, s, entry)[g].members
  {
    DelegatedOutcome(c, s, entry, g);
  }

  /** A member with a comma in its id that the request does not name drops out of any comma-free list,
      even if it is protected. */
  lemma CommaMemberDrops(c: Config, s: State, entry: Entry, g: Str, peer: Str)
    requires Proper(s.groups) && AcceptedUpdate(c, s, entry, g) && Delegated(entry.event.update)
    requires CommaFree(Elements(NormalizePeerIds(entry.event.update.memberPeerIds))) && !Without(COMMA, peer)
    ensures g in s.groups && s.groups[g].Active? && g in StepGroups(c, s, entry) && StepGroups(c, s, entry)[g].Active?
    ensures peer !in StepGroups(c, s, entry)[g].members
    ensures peer in s.groups[g].members && peer !in NormalizePeerIds(entry.event.update.changedPeerIds) ==>
      !OthersKept(s, StepGroups(c, s, entry), entry.event.update)
  {
    DelegatedOutcome(c, s, entry, g);
  }

  // "a", "b" and "o" sorted, and "a,b" with "o": two different normalized lists that join alike.
  const SPLIT: seq<Str> := [[97], [98], [111]]
  const WHOLE: seq<Str> := [[97, COMMA, 98], [111]]
  const OWNER: Str := [111]

  lemma ExampleLists()
    ensures Ascending(SPLIT) && Normal(Elements(SPLIT)) && Ascending(WHOLE) && Normal(Elements(WHOLE))
    ensures Join(SPLIT) == Join(WHOLE) && Elements(SPLIT) != Elements(WHOLE)
  {
    assert Join(SPLIT) == SPLIT[0] + [COMMA] + (SPLIT[1] + [COMMA] + Join([OWNER])) by {
      assert SPLIT[1..][1..] == [OWNER];
    }
    assert Join(WHOLE) == WHOLE[0] + [COMMA] + Join([OWNER]) by { assert WHOLE[1..] == [OWNER]; }
    assert WHOLE[0] == SPLIT[0] + [COMMA] + SPLIT[1];
    assert WHOLE[0] in Elements(WHOLE) && WHOLE[0] !in Elements(SPLIT);
    assert Trim(SPLIT[0]) == SPLIT[0] && Trim(SPLIT[1]) == SPLIT[1] && Trim(WHOLE[0]) == WHOLE[0];
  }

  /** The comma condition is needed: the delta check takes "a", "b" and the owner for the set that
      consists of "a,b" and the owner. */
  lemma CommaFoolsDeltaCheck()
    ensures NormalizePeerIds(SPLIT) == SPLIT && JoinsLike(Elements(WHOLE), SPLIT)
    ensures OWNER in Elements(WHOLE) && OWNER in Elements(SPLIT) && Elements(SPLIT) != Elements(WHOLE)
  {
    ExampleLists();
    AlreadyNormal(SPLIT);
    NormalizeListing(Listing(Elements(WHOLE)), Elements(WHOLE));
    AscendingUnique(NormalizePeerIds(Listing(Elements(WHOLE))), WHOLE);
    assert SPLIT[2] == OWNER && WHOLE[1] == OWNER;
  }

  lemma AlreadyNormal(xs: seq<Str>)
    requires Ascending(xs) && Normal(Elements(xs))
    ensures NormalizePeerIds(xs) == xs
  {
    NormalizeListing(xs, Elements(xs));
    AscendingUnique(NormalizePeerIds(xs), xs);
  }
}
