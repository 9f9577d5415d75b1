/** Runs in which an administrator's accepted update gives the group other members than it asked for,
    protected peers among them: the owner publishes a token, and the administrator adds a peer whose id
    holds a comma. */
module RelayCommaRun {
  import opened JsText
  import opened RelayTypes
  import opened RelayGroups
  import opened RelayMachine
  import opened RelayGroupLaws

  /** The group, the owner, the administrator, the peers the token protects, the peer to add and the
      members listed. */
  datatype Case = Case(g: Str, owner: Str, admin: Str, guarded: seq<Str>, added: Str, listed: seq<Str>)

  /** The owner's token: the administrator may add members other than the guarded ones. */
  function TokenFor(x: Case): Delegation {
    Delegation(1.0, x.g, x.admin, [MEMBERS_ADD], 10.0, 1.0, x.guarded, [], [])
  }

  /** The owner is the only member and publishes the token. */
  function Publish(x: Case): MembersRequest {
    MembersRequest([1], x.owner, x.g, x.owner, [x.owner], 0.0, 0.0, [], [], Some(1.0), Some([TokenFor(x)]), None,
                   Unknown, [])
  }

  /** The administrator adds one peer and lists some members. */
  function AddOne(x: Case): MembersRequest {
    MembersRequest([2], x.admin, x.g, x.owner, x.listed, 0.0, 0.0, [], [], None, None, Some(TokenFor(x)), Add,
                   [x.added])
  }

  /** The list has the owner and not the added peer, yet joins like the two of them; no id in it has a
      comma. The owner is guarded and the added peer is not. */
  ghost predicate Fools(x: Case) {
    && NormalizePeerIds([x.owner]) == [x.owner] && NormalizePeerIds([x.added]) == [x.added]
    && NormalizePeerIds(x.listed) == x.listed && NormalizePeerIds(x.guarded) == x.guarded
    && JoinsLike({x.owner} + {x.added}, x.listed) && CommaFree(Elements(x.listed))
    && x.owner in x.listed && x.added !in x.listed && x.added != x.owner
    && x.owner in x.guarded && x.added !in x.guarded && x.admin != x.owner
  }

  /** The three texts were signed by their authors. */
  predicate AllSigned(c: Config, x: Case) {
    OwnerSigned(c, Publish(x), [x.owner]) && DelegationSigned(c, TokenFor(x)) &&
    AdminSigned(c, AddOne(x), x.listed, [x.added], TokenFor(x))
  }

  lemma OneReissued(c: Config, req: MembersRequest, d: Delegation, now: int)
    requires Reissued(c, req, d, now)
    ensures PublishedTokens(c, req, [d], now) == (map[d.adminPeerId := TokenOf(d)], None)
  {
    AllReissued(c, req, [d], now);
    assert [d][..0] == [];
    assert PublishedTokens(c, req, [], now) == (map[], None);
    PublishedNext(c, req, [d], now);
  }

  /** The owner publishes one token with a list of members. */
  lemma OwnerPublishes(c: Config, req: MembersRequest, d: Delegation, members: seq<Str>, now: int)
    requires !Delegated(req) && req.adminDelegations == Some([d]) && req.delegationVersion == Some(1.0)
    requires Reissued(c, req, d, now) && NormalizePeerIds(req.memberPeerIds) == members && req.owner in members &&
      OwnerSigned(c, req, members)
    ensures UpdateMembers(c, map[], req, now) ==
      map[req.groupId := Active(req.owner, Elements(members), map[d.adminPeerId := TokenOf(d)], now, false)]
  {
    OneReissued(c, req, d, now);
    OwnerAcceptedIff(c, EMPTY, req, now);
    assert [d][0] == d;
  }

  lemma AfterOne(c: Config, req: MembersRequest, now: int)
    ensures After(c, EMPTY, [At(now, Update(req))]).groups == UpdateMembers(c, map[], req, now)
  {
    var run := [At(now, Update(req))];
    AfterNext(c, EMPTY, run, 0);
    assert run[..1] == run && run[..0] == [];
  }

  function Published(c: Config, x: Case): State {
    After(c, EMPTY, [At(1, Update(Publish(x)))])
  }

  function PublishedMembership(x: Case): Membership {
    Active(x.owner, {x.owner}, map[x.admin := TokenOf(TokenFor(x))], 1, false)
  }

  lemma PublishedGroup(c: Config, x: Case)
    requires OwnerSigned(c, Publish(x), [x.owner]) && DelegationSigned(c, TokenFor(x))
    requires NormalizePeerIds([x.owner]) == [x.owner]
    ensures Published(c, x).groups == map[x.g := PublishedMembership(x)]
  {
    assert Elements([x.owner]) == {x.owner};
    AfterOne(c, Publish(x), 1);
    OwnerPublishes(c, Publish(x), TokenFor(x), [x.owner], 1);
  }

  lemma AddFits(x: Case)
    requires Fools(x)
    ensures TokenFits(AddOne(x), TokenFor(x), 2) && ChangeFits(AddOne(x), TokenFor(x), {x.owner})
  {
    assert Elements([x.added]) == {x.added} && MEMBERS_ADD in [MEMBERS_ADD];
  }

  lemma AddIsProper(c: Config, x: Case)
    requires Fools(x) && AllSigned(c, x)
    ensures ProperDelegatedRequest(c, AddOne(x), {x.owner}, 2)
  {
    AddFits(x);
  }

  lemma GroupTakesToken(s: State, x: Case)
    requires s.groups == map[x.g := PublishedMembership(x)]
    ensures GroupFits(s, AddOne(x), TokenOf(TokenFor(x))) && MembersOf(s, x.g) == {x.owner}
  {
    assert s.groups[x.g] == PublishedMembership(x);
  }

  lemma AddIsAccepted(c: Config, s: State, x: Case, req: MembersRequest)
    requires Fools(x) && AllSigned(c, x) && s.groups == map[x.g := PublishedMembership(x)] && req == AddOne(x)
    ensures UpdateVerdict(c, s.groups, req, 2) == Accepted
  {
    AddIsProper(c, x);
    GroupTakesToken(s, x);
    DelegatedAcceptedIff(c, s, req, 2);
  }

  /** An accepted update of a group puts its normalized list in place. */
  lemma AcceptedMembers(c: Config, s: State, req: MembersRequest, now: int)
    requires UpdateVerdict(c, s.groups, req, now) == Accepted
    ensures var gs' := StepGroups(c, s, At(now, Update(req)));
      req.groupId in gs' && gs'[req.groupId].Active? &&
      gs'[req.groupId].members == Elements(NormalizePeerIds(req.memberPeerIds))
  {
    StepGroup(c, s, At(now, Update(req)), req.groupId);
    assert Lookup(StepGroups(c, s, At(now, Update(req))), req.groupId).Some?;
  }

  /** The update is accepted although its list is free of commas and is not the set it asked for: what
      is listed becomes the group, and the added peer is not in it. Every guarded peer that is listed and
      is not the owner becomes a member, although the request does not name it. */
  lemma CommaFoolsRelay(c: Config, x: Case)
    requires Fools(x) && AllSigned(c, x)
    ensures var s, req := Published(c, x), AddOne(x);
      var entry := At(2, Update(req));
      AcceptedUpdate(c, s, entry, x.g) && Delegated(req) && x.g in s.groups && s.groups[x.g].Active? &&
      x.g in StepGroups(c, s, entry) && StepGroups(c, s, entry)[x.g].Active? &&
      StepGroups(c, s, entry)[x.g].members == Elements(x.listed) != Requested(s, req) &&
      forall p :: p in x.guarded && p in x.listed && p != x.owner ==>
        p !in s.groups[x.g].members && p in StepGroups(c, s, entry)[x.g].members && p !in req.changedPeerIds
  {
    var s, req := Published(c, x), AddOne(x);
    PublishedGroup(c, x);
    AddIsAccepted(c, s, x, req);
    AcceptedMembers(c, s, req, 2);
    assert x.added in Elements([x.added]);
  }

  // "a" and "o" are protected.
  const GUARDED: seq<Str> := [SPLIT[0], OWNER]

  /** Such lists exist: "a", "b" and the owner, for a peer "a,b", with "a" guarded. */
  lemma FoolingListExists(g: Str, admin: Str)
    requires admin != OWNER
    ensures Fools(Case(g, OWNER, admin, GUARDED, WHOLE[0], SPLIT))
    ensures SPLIT[0] in GUARDED && SPLIT[0] in SPLIT && SPLIT[0] != OWNER
  {
    CommaFoolsDeltaCheck();
    SingletonsAreNormal();
    WholeIsTwo();
    SplitIsPlain();
    GuardedIsNormal();
  }

  lemma GuardedIsNormal()
    ensures NormalizePeerIds(GUARDED) == GUARDED && OWNER in GUARDED && WHOLE[0] !in GUARDED
  {
    ExampleLists();
    assert SPLIT[0] in Elements(SPLIT) && SPLIT[2] == OWNER && SPLIT[2] in Elements(SPLIT);
    assert Ascending(GUARDED) && Normal(Elements(GUARDED));
    AlreadyNormal(GUARDED);
    assert |WHOLE[0]| == 3 && |GUARDED[0]| == 1 && GUARDED[1] == OWNER;
  }

  lemma SingletonsAreNormal()
    ensures NormalizePeerIds([OWNER]) == [OWNER] && NormalizePeerIds([WHOLE[0]]) == [WHOLE[0]]
  {
    ExampleLists();
    SingletonIsNormal(OWNER);
    SingletonIsNormal(WHOLE[0]);
  }

  lemma SingletonIsNormal(x: Str)
    requires x != [] && Trim(x) == x
    ensures NormalizePeerIds([x]) == [x]
  {
    assert Normal(Elements([x]));
    AlreadyNormal([x]);
  }

  lemma WholeIsTwo()
    ensures Elements(WHOLE) == {OWNER} + {WHOLE[0]}
  {
    assert WHOLE == [WHOLE[0], OWNER];
  }

  lemma SplitIsPlain()
    ensures CommaFree(Elements(SPLIT)) && OWNER in SPLIT && WHOLE[0] !in SPLIT && WHOLE[0] != OWNER
  {
    assert forall x :: x in SPLIT ==> |x| == 1 && x[0] != COMMA;
    assert |WHOLE[0]| == 3 && OWNER == SPLIT[2];
  }
}
