/** Group memberships of the relay: bootstrap by fan-out, updates by the owner or by a delegated
    administrator, and expiry. */
module RelayGroups {
  import opened JsText
  import opened RelayTypes

  /** What the relay keeps of a published administrator token. */
  datatype Token = Token(ownerSig: Str, delegationVersion: real, expiresAtMs: real)

  datatype Membership =
    | Active(owner: Str, members: set<Str>, delegations: map<Str, Token>, updatedAtMs: int, provisional: bool)
    | Expired(expiredAtMs: int)

  type Groups = map<Str, Membership>

  /** An owner-signed administrator token as it travels in a request. */
  datatype Delegation = Delegation(
    version: real, groupId: Str, adminPeerId: Str, permissions: seq<Str>, expiresAtMs: real,
    delegationVersion: real, protectedPeerIds: seq<Str>, ownerSigningPub: Str, ownerSig: Str)

  datatype MemberAction = Add | Remove | Unknown

  datatype MembersRequest = MembersRequest(
    id: Str, from: Str, groupId: Str, owner: Str, memberPeerIds: seq<Str>, ts: real, ttl: real,
    sig: Str, signingPub: Str,
    delegationVersion: Option<real>, adminDelegations: Option<seq<Delegation>>,
    adminDelegation: Option<Delegation>, action: MemberAction, changedPeerIds: seq<Str>)

  /** The HTTP status of a refusal, or acceptance. */
  datatype Verdict = Accepted | Refused(status: nat)

  // ----- expiry -----

  function SweepMembership(g: Membership, c: Config, now: int): Option<Membership> {
    if g.Expired? then
      if g.expiredAtMs < now - c.groupTombstoneTtlSeconds * 1000 then None else Some(g)
    else if g.updatedAtMs < now - c.groupTtlSeconds * 1000 then Some(Expired(now))
    else Some(g)
  }

  /** pruneGroupMemberships. */
  function SweepGroups(gs: Groups, c: Config, now: int): Groups {
    map g | g in gs && SweepMembership(gs[g], c, now).Some? :: SweepMembership(gs[g], c, now).value
  }

  // ----- the admission part of /relay/group/store -----

  function GroupRecipients(recipients: seq<Str>, from: Str): (r: seq<Str>)
    ensures Ascending(r)
    ensures forall x :: x in r <==> x in TrimmedNonEmpty(recipients) && x != from
  {
    SortUnique(Excluding(TrimmedNonEmpty(recipients), from))
  }

  function Excluding(xs: seq<Str>, from: Str): (r: seq<Str>)
    ensures forall x :: x in r <==> x in xs && x != from
  {
    if xs == [] then [] else
      assert xs == [xs[0]] + xs[1..];
      (if xs[0] == from then [] else [xs[0]]) + Excluding(xs[1..], from)
  }

  function AdmitFanOut(gs: Groups, groupId: Str, from: Str, recipients: seq<Str>): Verdict {
    if groupId !in gs then Accepted
    else if gs[groupId].Expired? then Refused(409)
    else if from !in gs[groupId].members then Refused(403)
    else if exists r :: r in recipients && r !in gs[groupId].members then Refused(403)
    else Accepted
  }

  function Bootstrap(gs: Groups, groupId: Str, from: Str, recipients: seq<Str>, now: int): Groups {
    if groupId in gs then gs
    else gs[groupId := Active(from, {from} + Elements(recipients), map[], now, true)]
  }

  // ----- /relay/group/members/update -----

  /** Checks the published tokens in request order; a later token for an administrator replaces an
      earlier one. The second component is the status of the first refusal. */
  function PublishedTokens(c: Config, req: MembersRequest, ds: seq<Delegation>, now: int)
    : (map<Str, Token>, Option<nat>)
  {
    if ds == [] then (map[], None) else
      var (tokens, refusal) := PublishedTokens(c, req, ds[..|ds| - 1], now);
      if refusal.Some? then (tokens, refusal) else
        var d := ds[|ds| - 1];
        if d.version != 1.0 || d.groupId != req.groupId || Some(d.delegationVersion) != req.delegationVersion ||
           d.ownerSigningPub != req.signingPub || d.expiresAtMs < now as real then (tokens, Some(400))
        else if !DelegationSigned(c, d) then (tokens, Some(401))
        else (tokens[d.adminPeerId := Token(d.ownerSig, d.delegationVersion, d.expiresAtMs)], None)
  }

  predicate DelegationSigned(c: Config, d: Delegation) {
    c.verify(DelegationText(d.groupId, d.adminPeerId, multiset(d.permissions), d.expiresAtMs,
                            d.delegationVersion, multiset(d.protectedPeerIds)), d.ownerSig, d.ownerSigningPub)
  }

  predicate OwnerSigned(c: Config, req: MembersRequest, members: seq<Str>) {
    if req.delegationVersion.Some? then
      c.verify(OwnerMembersText(req.id, req.from, req.groupId, req.owner, multiset(members), req.ts, req.ttl,
                                req.delegationVersion.value), req.sig, req.signingPub)
    else
      c.verify(MembersText(req.id, req.from, req.groupId, req.owner, multiset(members), req.ts, req.ttl),
               req.sig, req.signingPub)
  }

  predicate IsNaturalNumber(x: real) {
    x >= 0.0 && x.Floor as real == x
  }

  function OwnerVerdict(c: Config, req: MembersRequest, members: seq<Str>, now: int): Verdict {
    if req.delegationVersion.Some? && !IsNaturalNumber(req.delegationVersion.value) then Refused(400)
    else if req.delegationVersion.Some? && req.adminDelegations.None? then Refused(400)
    else if !OwnerSigned(c, req, members) then Refused(401)
    else if req.delegationVersion.None? then Accepted
    else
      var refusal := PublishedTokens(c, req, req.adminDelegations.value, now).1;
      if refusal.Some? then Refused(refusal.value) else Accepted
  }

  const MEMBERS_ADD: Str := [109, 101, 109, 98, 101, 114, 115, 58, 97, 100, 100]
  const MEMBERS_REMOVE: Str := [109, 101, 109, 98, 101, 114, 115, 58, 114, 101, 109, 111, 118, 101]

  function Permission(action: MemberAction): Str {
    if action.Add? then MEMBERS_ADD else MEMBERS_REMOVE
  }

  function ExpectedMembers(members: set<Str>, action: MemberAction, changed: seq<Str>): set<Str> {
    if action.Add? then members + Elements(changed) else members - Elements(changed)
  }

  predicate IsLeast(x: Str, ids: set<Str>) {
    x in ids && forall y :: y in ids && y != x ==> Less(x, y)
  }

  lemma {:induction false} HasLeast(ids: set<Str>) returns (least: Str)
    requires ids != {}
    ensures IsLeast(least, ids)
  {
    least :| least in ids;
    if ids != {least} {
      var x := HasLeast(ids - {least});
      LessTrichotomy(x, least);
      if Less(x, least) {
        least := x;
      } else {
        forall y | y in ids && y != least ensures Less(least, y) {
          if y != x { LessTransitive(least, x, y); }
        }
      }
    }
  }

  lemma LeastIsUnique(ids: set<Str>)
    ensures forall x, y :: IsLeast(x, ids) && IsLeast(y, ids) ==> x == y
  {
    forall x, y | IsLeast(x, ids) && IsLeast(y, ids) ensures x == y { LessTrichotomy(x, y); }
  }

  /** A list of the elements of a set, standing for `[...ids]`: the only use sorts it anyway. */
  function Listing(ids: set<Str>): (r: seq<Str>)
    ensures forall x :: x in r <==> x in ids
    ensures Ascending(r)
  {
    if ids == {} then [] else
      assert exists x :: IsLeast(x, ids) by { var least := HasLeast(ids); }
      LeastIsUnique(ids);
      var x :| IsLeast(x, ids);
      var rest := Listing(ids - {x});
      assert forall j :: 0 <= j < |rest| ==> rest[j] in rest;
      [x] + rest
  }

  /** The delta check compares joined texts. */
  predicate JoinsLike(expected: set<Str>, members: seq<Str>) {
    Join(NormalizePeerIds(Listing(expected))) == Join(members)
  }

  predicate AdminSigned(c: Config, req: MembersRequest, members: seq<Str>, changed: seq<Str>, d: Delegation) {
    c.verify(DelegatedMembersText(req.id, req.from, req.groupId, req.owner, multiset(members), req.ts, req.ttl,
                                  req.action.Add?, multiset(changed), d.delegationVersion, d.expiresAtMs, d.ownerSig),
             req.sig, req.signingPub)
  }

  predicate Touches(changed: seq<Str>, protectedIds: seq<Str>) {
    exists p :: p in changed && p in protectedIds
  }

  function DelegatedVerdict(c: Config, gs: Groups, req: MembersRequest, members: seq<Str>, now: int): Verdict {
    if req.adminDelegation.None? then Refused(403) else
      DelegateChecks(c, gs, req, req.adminDelegation.value, members, NormalizePeerIds(req.changedPeerIds),
                     NormalizePeerIds(req.adminDelegation.value.protectedPeerIds), now)
  }

  /** The checks in their order, on normalized lists. */
  function DelegateChecks(c: Config, gs: Groups, req: MembersRequest, d: Delegation, members: seq<Str>,
                          changed: seq<Str>, protectedIds: seq<Str>, now: int): Verdict {
    if d.version != 1.0 || d.groupId != req.groupId || d.adminPeerId != req.from ||
       req.action.Unknown? || changed == [] then Refused(400)
    else if d.expiresAtMs < now as real then Refused(403)
    else if Permission(req.action) !in d.permissions then Refused(403)
    else if req.groupId !in gs || gs[req.groupId].Expired? || gs[req.groupId].provisional then Refused(409)
    else if !HoldsToken(gs[req.groupId], req.from, TokenOf(d)) then Refused(403)
    else if req.owner !in protectedIds || Touches(changed, protectedIds) then Refused(403)
    else if !DelegationSigned(c, d) then Refused(401)
    else
      var expected := ExpectedMembers(gs[req.groupId].members, req.action, changed);
      if req.owner !in expected || !JoinsLike(expected, members) then Refused(409)
      else if !AdminSigned(c, req, members, changed, d) then Refused(401)
      else Accepted
  }

  function TokenOf(d: Delegation): Token {
    Token(d.ownerSig, d.delegationVersion, d.expiresAtMs)
  }

  predicate HoldsToken(g: Membership, admin: Str, t: Token) {
    g.Active? && admin in g.delegations && g.delegations[admin] == t
  }

  function UpdateVerdict(c: Config, gs: Groups, req: MembersRequest, now: int): Verdict {
    var members := NormalizePeerIds(req.memberPeerIds);
    if members == [] then Refused(400)
    else if req.owner !in members then Refused(400)
    else if req.groupId in gs && gs[req.groupId].Active? && gs[req.groupId].owner != req.owner &&
            !gs[req.groupId].provisional then Refused(409)
    else if req.from == req.owner then OwnerVerdict(c, req, members, now)
    else DelegatedVerdict(c, gs, req, members, now)
  }

  /** The request re-publishes the administrator tokens. */
  predicate Publishes(req: MembersRequest) {
    req.from == req.owner && req.delegationVersion.Some?
  }

  function NextDelegations(c: Config, gs: Groups, req: MembersRequest, now: int): map<Str, Token> {
    if Publishes(req) && req.adminDelegations.Some? then PublishedTokens(c, req, req.adminDelegations.value, now).0
    else if req.groupId in gs && gs[req.groupId].Active? then gs[req.groupId].delegations
    else map[]
  }

  function UpdateMembers(c: Config, gs: Groups, req: MembersRequest, now: int): Groups {
    if UpdateVerdict(c, gs, req, now) != Accepted then gs
    else gs[req.groupId := Active(req.owner, Elements(NormalizePeerIds(req.memberPeerIds)),
                                  NextDelegations(c, gs, req, now), now, false)]
  }
}
