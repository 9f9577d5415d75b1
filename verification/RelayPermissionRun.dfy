/** Runs in which the permission of an administrator's token decides: the owner publishes a token with one
    permission, and the administrator adds or removes a peer. */
module RelayPermissionRun {
  import opened JsText
  import opened RelayTypes
  import opened RelayGroups
  import opened RelayMachine
  import opened RelayGroupLaws
  import opened RelayCommaRun
  import opened RelayAnswers

  /** Who takes part, what the token permits, what the administrator does, and the members around it. */
  datatype Cast = Cast(
    g: Str, owner: Str, admin: Str, peer: Str, permission: Str, action: MemberAction, before: seq<Str>,
    after: seq<Str>)

  function GivenToken(x: Cast): Delegation {
    Delegation(1.0, x.g, x.admin, [x.permission], 10.0, 1.0, [x.owner], [], [])
  }

  function Publication(x: Cast): MembersRequest {
    MembersRequest([1], x.owner, x.g, x.owner, x.before, 0.0, 0.0, [], [], Some(1.0), Some([GivenToken(x)]), None,
                   Unknown, [])
  }

  function ChangeOf(x: Cast): MembersRequest {
    MembersRequest([2], x.admin, x.g, x.owner, x.after, 0.0, 0.0, [], [], None, None, Some(GivenToken(x)), x.action,
                   [x.peer])
  }

  /** The owner signed list and token, the administrator the change. */
  predicate SignedByAll(c: Config, x: Cast) {
    OwnerSigned(c, Publication(x), x.before) && DelegationSigned(c, GivenToken(x)) &&
    AdminSigned(c, ChangeOf(x), x.after, [x.peer], GivenToken(x))
  }

  /** Ids and lists are in order, and the list is what the change makes of the one before. */
  ghost predicate Ready(x: Cast) {
    && NormalizePeerIds(x.before) == x.before && NormalizePeerIds(x.after) == x.after
    && NormalizePeerIds([x.owner]) == [x.owner] && NormalizePeerIds([x.peer]) == [x.peer]
    && x.owner in x.before && x.owner in x.after && x.admin != x.owner && x.peer != x.owner && !x.action.Unknown?
    && Elements(x.after) == if x.action.Add? then Elements(x.before) + {x.peer} else Elements(x.before) - {x.peer}
  }

  function PublishedRecord(x: Cast): Membership {
    Active(x.owner, Elements(x.before), map[x.admin := Token([], 1.0, 10.0)], 1, false)
  }

  lemma PublicationAccepted(c: Config, x: Cast)
    requires Ready(x) && SignedByAll(c, x)
    ensures After(c, EMPTY, [At(1, Update(Publication(x)))]).groups == map[x.g := PublishedRecord(x)]
  {
    OwnerPublishes(c, Publication(x), GivenToken(x), x.before, 1);
    AfterOne(c, Publication(x), 1);
  }

  /** The list joins like the set it holds. */
  lemma JoinsItself(members: seq<Str>, ids: set<Str>)
    requires NormalizePeerIds(members) == members && Elements(members) == ids
    ensures Join(NormalizePeerIds(Listing(ids))) == Join(NormalizePeerIds(members))
  {
    NormalizeListing(Listing(ids), ids);
    AscendingUnique(NormalizePeerIds(Listing(ids)), members);
  }

  lemma ChangedAre(x: Cast, m: Option<Membership>)
    requires Ready(x) && m == Some(PublishedRecord(x))
    ensures ChangedMembers(m, x.action, [x.peer]) == Elements(x.after)
  {
    assert (set p | p in [x.peer]) == {x.peer};
  }

  lemma SharedPass(gs: Groups, x: Cast)
    requires Ready(x) && gs == map[x.g := PublishedRecord(x)]
    ensures FirstRefusal(SharedChecks(gs, ChangeOf(x))) == Accepted
  {
    TwoChecks(SharedChecks(gs, ChangeOf(x)));
  }

  lemma ListsPass(c: Config, gs: Groups, x: Cast, checks: seq<Check>)
    requires Ready(x) && SignedByAll(c, x) && gs == map[x.g := PublishedRecord(x)]
    requires checks == DelegationChecks(c, gs, ChangeOf(x), GivenToken(x), 2)
    ensures !checks[5].fails && !checks[7].fails && !checks[8].fails
  {
    ChangedAre(x, Lookup(gs, x.g));
    JoinsItself(x.after, Elements(x.after));
    SameLists(c, gs, ChangeOf(x), GivenToken(x), 2);
  }

  lemma HeadPasses(c: Config, gs: Groups, x: Cast, checks: seq<Check>)
    requires Ready(x) && gs == map[x.g := PublishedRecord(x)]
    requires checks == DelegationChecks(c, gs, ChangeOf(x), GivenToken(x), 2)
    ensures !checks[0].fails && !checks[1].fails && !checks[3].fails
  {
    HeadIs(c, Lookup(gs, x.g), ChangeOf(x), GivenToken(x), 2, x.after, [x.peer], [x.owner]);
  }

  lemma TokenPasses(c: Config, gs: Groups, x: Cast, checks: seq<Check>)
    requires Ready(x) && SignedByAll(c, x) && gs == map[x.g := PublishedRecord(x)]
    requires checks == DelegationChecks(c, gs, ChangeOf(x), GivenToken(x), 2)
    ensures !checks[4].fails
  {
    SameToken(c, gs, ChangeOf(x), GivenToken(x), 2);
    assert HoldsToken(PublishedRecord(x), x.admin, TokenOf(GivenToken(x)));
  }

  lemma SignaturePasses(c: Config, gs: Groups, x: Cast, checks: seq<Check>)
    requires SignedByAll(c, x) && checks == DelegationChecks(c, gs, ChangeOf(x), GivenToken(x), 2)
    ensures !checks[6].fails
  {
    SameSignature(c, gs, ChangeOf(x), GivenToken(x), 2);
  }

  /** When everything else is in order the change is accepted with the permission it needs, and refused
      with 403 with any other. */
  lemma PermissionRun(c: Config, x: Cast)
    requires Ready(x) && SignedByAll(c, x)
    ensures var s := After(c, EMPTY, [At(1, Update(Publication(x)))]);
      UpdateVerdict(c, s.groups, ChangeOf(x), 2) ==
        if x.permission == (if x.action.Add? then TO_ADD else TO_REMOVE) then Accepted else Refused(403)
  {
    var gs := After(c, EMPTY, [At(1, Update(Publication(x)))]).groups;
    PublicationAccepted(c, x);
    SharedPass(gs, x);
    var checks := DelegationChecks(c, gs, ChangeOf(x), GivenToken(x), 2);
    HeadPasses(c, gs, x, checks);
    TokenPasses(c, gs, x, checks);
    SignaturePasses(c, gs, x, checks);
    ListsPass(c, gs, x, checks);
    PermissionDecides(c, gs, ChangeOf(x), GivenToken(x), 2);
    assert x.permission in [x.permission];
  }

  const B: Str := [98]
  const O: Str := [111]
  const X: Str := [120]

  lemma Lists()
    ensures NormalizePeerIds([O, X]) == [O, X] && NormalizePeerIds([B, O, X]) == [B, O, X]
    ensures NormalizePeerIds([O]) == [O] && NormalizePeerIds([B]) == [B]
  {
    assert Trim(B) == B && Trim(O) == O && Trim(X) == X;
    assert Less(B, O) && Less(O, X) && Less(B, X);
    AlreadyNormal([O, X]);
    AlreadyNormal([B, O, X]);
    AlreadyNormal([O]);
    AlreadyNormal([B]);
  }

  lemma ThreeAndTwo(b: Str, o: Str, x: Str)
    requires b != o && b != x
    ensures o in [b, o, x] && o in [o, x]
    ensures Elements([b, o, x]) == Elements([o, x]) + {b} && Elements([o, x]) == Elements([b, o, x]) - {b}
  {
    assert [b, o, x][1] == o && [o, x][0] == o;
    assert Elements([b, o, x]) == {b, o, x} && Elements([o, x]) == {o, x};
  }

  /** Such casts exist for both actions: the owner "o", the administrator "x" and the peer "b". */
  lemma CastsExist(g: Str, permission: Str)
    ensures Ready(Cast(g, O, X, B, permission, Add, [O, X], [B, O, X]))
    ensures Ready(Cast(g, O, X, B, permission, Remove, [B, O, X], [O, X]))
  {
    Lists();
    ThreeAndTwo(B, O, X);
  }
}
