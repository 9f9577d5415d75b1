/** Which answer each request of the relay gets: the checks of the handlers one after the other, each with
    the status of its failure. */
module RelayAnswers {
  import opened JsText
  import opened RelayTypes
  import opened RelayGroups
  import opened RelayUploads
  import opened RelayMachine
  import opened RelayGroupLaws

  datatype Check = Check(fails: bool, status: nat)

  /** The first check that fails decides. */
  function FirstRefusal(checks: seq<Check>): Verdict {
    if checks == [] then Accepted
    else if checks[0].fails then Refused(checks[0].status)
    else FirstRefusal(checks[1..])
  }

  // ----- /relay/group/store -----

  /** The group is closed: active past its lifetime, or a tombstone not yet outlived. */
  predicate Closed(c: Config, m: Option<Membership>, now: int) {
    m.Some? &&
    if m.value.Active? then m.value.updatedAtMs + c.groupTtlSeconds * 1000 < now
    else now <= m.value.expiredAtMs + c.groupTombstoneTtlSeconds * 1000
  }

  predicate Outsider(m: Option<Membership>, p: Str) {
    m.Some? && m.value.Active? && p !in m.value.members
  }

  function GroupStoreChecks(c: Config, s: State, g: GroupStoreRequest, now: int): seq<Check> {
    var m, rs := Lookup(s.groups, g.groupId), Recipients(g);
    [Check(rs == [], 400),
     Check(!c.verify(GroupEnvelopeText(g.id, g.from, g.groupId, rs, g.ts, g.ttl, g.payload), g.sig, g.signingPub), 401),
     Check(Closed(c, m, now), 409),
     Check(Outsider(m, g.from), 403),
     Check(exists r :: r in rs && Outsider(m, r), 403)]
  }

  /** Recipients are the listed ids, trimmed, apart from the sender. */
  lemma RecipientsAre(g: GroupStoreRequest, p: Str)
    ensures p in Recipients(g) <==> p != [] && p != g.from && IsTrimOf(p, g.recipients)
  {
  }

  lemma GroupStoreAnswer(c: Config, s: State, g: GroupStoreRequest, now: int)
    ensures GroupVerdict(c, s, g, now) == FirstRefusal(GroupStoreChecks(c, s, g, now))
  {
    var m, checks := Lookup(s.groups, g.groupId), GroupStoreChecks(c, s, g, now);
    assert Lookup(SweepGroups(s.groups, c, now), g.groupId) == Swept(m, c, now);
    FiveChecks(checks);
  }

  lemma FiveChecks(checks: seq<Check>)
    requires |checks| == 5
    ensures FirstRefusal(checks) ==
      if checks[0].fails then Refused(checks[0].status) else if checks[1].fails then Refused(checks[1].status)
      else if checks[2].fails then Refused(checks[2].status) else if checks[3].fails then Refused(checks[3].status)
      else if checks[4].fails then Refused(checks[4].status) else Accepted
  {
    Peel(checks, 0);
    Peel(checks, 1);
    Peel(checks, 2);
    Peel(checks, 3);
    Peel(checks, 4);
    assert checks[0..] == checks;
  }

  lemma Peel(checks: seq<Check>, k: nat)
    requires k < |checks|
    ensures FirstRefusal(checks[k..]) ==
      if checks[k].fails then Refused(checks[k].status) else FirstRefusal(checks[k + 1..])
    ensures k + 1 == |checks| ==> FirstRefusal(checks[k + 1..]) == Accepted
  {
    assert checks[k..][1..] == checks[k + 1..];
  }

  // ----- /relay/group/members/update -----

  /** The checks both branches share. */
  function SharedChecks(gs: Groups, req: MembersRequest): seq<Check> {
    var members, m := NormalizePeerIds(req.memberPeerIds), Lookup(gs, req.groupId);
    [Check(members == [] || req.owner !in members, 400),
     Check(m.Some? && m.value.Active? && !m.value.provisional && m.value.owner != req.owner, 409)]
  }

  /** The token text, spelled out. */
  function TextOfToken(d: Delegation): SignedText {
    DelegationText(d.groupId, d.adminPeerId, multiset(d.permissions), d.expiresAtMs, d.delegationVersion,
                   multiset(d.protectedPeerIds))
  }

  function ReissueChecks(c: Config, req: MembersRequest, ds: seq<Delegation>, now: int): seq<Check> {
    if ds == [] then [] else
      var d := ds[|ds| - 1];
      ReissueChecks(c, req, ds[..|ds| - 1], now) +
      [Check(d.version != 1.0 || d.groupId != req.groupId || Some(d.delegationVersion) != req.delegationVersion ||
             d.ownerSigningPub != req.signingPub || d.expiresAtMs < now as real, 400),
       Check(!c.verify(TextOfToken(d), d.ownerSig, d.ownerSigningPub), 401)]
  }

  function OwnerText(req: MembersRequest): SignedText {
    var members := multiset(NormalizePeerIds(req.memberPeerIds));
    if req.delegationVersion.Some?
    then OwnerMembersText(req.id, req.from, req.groupId, req.owner, members, req.ts, req.ttl,
                          req.delegationVersion.value)
    else MembersText(req.id, req.from, req.groupId, req.owner, members, req.ts, req.ttl)
  }

  function Whole(n: nat): real {
    n as real
  }

  ghost predicate IsNatural(x: real) {
    exists n :: x == Whole(n)
  }

  ghost function OwnerChecks(c: Config, req: MembersRequest, now: int): seq<Check> {
    var versioned := req.delegationVersion.Some?;
    [Check(versioned && !IsNatural(req.delegationVersion.value), 400),
     Check(versioned && req.adminDelegations.None?, 400),
     Check(!c.verify(OwnerText(req), req.sig, req.signingPub), 401)] +
    if versioned && req.adminDelegations.Some? then ReissueChecks(c, req, req.adminDelegations.value, now) else []
  }

  const TO_ADD := Ascii("members:add")
  const TO_REMOVE := Ascii("members:remove")

  /** "members:add" for an addition, "members:remove" for a removal. */
  predicate Permitted(req: MembersRequest, d: Delegation) {
    if req.action.Add? then TO_ADD in d.permissions else TO_REMOVE in d.permissions
  }

  function DelegatedText(req: MembersRequest, d: Delegation): SignedText {
    DelegatedMembersText(req.id, req.from, req.groupId, req.owner, multiset(NormalizePeerIds(req.memberPeerIds)),
                         req.ts, req.ttl, req.action.Add?, multiset(NormalizePeerIds(req.changedPeerIds)),
                         d.delegationVersion, d.expiresAtMs, d.ownerSig)
  }

  /** The members after the change, if there is a group. */
  function ChangedMembers(m: Option<Membership>, action: MemberAction, changed: seq<Str>): set<Str> {
    var named := set p | p in changed;
    var present := if m.Some? && m.value.Active? then m.value.members else {};
    if action.Add? then present + named else present - named
  }

  function DelegationChecks(c: Config, gs: Groups, req: MembersRequest, d: Delegation, now: int): seq<Check> {
    ListChecks(c, Lookup(gs, req.groupId), req, d, now, NormalizePeerIds(req.memberPeerIds),
               NormalizePeerIds(req.changedPeerIds), NormalizePeerIds(d.protectedPeerIds))
  }

  /** The checks of a delegated update, on the normalized lists. */
  function ListChecks(c: Config, m: Option<Membership>, req: MembersRequest, d: Delegation, now: int,
                      members: seq<Str>, changed: seq<Str>, safe: seq<Str>): seq<Check> {
    [Check(d.version != 1.0 || d.groupId != req.groupId || d.adminPeerId != req.from || req.action.Unknown? ||
           changed == [], 400),
     Check(d.expiresAtMs < now as real, 403),
     Check(!Permitted(req, d), 403),
     Check(m.None? || m.value.Expired? || m.value.provisional, 409),
     Check(!(m.Some? && m.value.Active? && req.from in m.value.delegations &&
             m.value.delegations[req.from] == Token(d.ownerSig, d.delegationVersion, d.expiresAtMs)), 403),
     Check(req.owner !in safe || exists p :: p in changed && p in safe, 403),
     Check(!c.verify(TextOfToken(d), d.ownerSig, d.ownerSigningPub), 401),
     Check(req.owner !in ChangedMembers(m, req.action, changed) ||
           Join(NormalizePeerIds(Listing(ChangedMembers(m, req.action, changed)))) != Join(members), 409),
     Check(!c.verify(DelegatedText(req, d), req.sig, req.signingPub), 401)]
  }

  ghost function UpdateChecks(c: Config, gs: Groups, req: MembersRequest, now: int): seq<Check> {
    SharedChecks(gs, req) +
    if req.from == req.owner then OwnerChecks(c, req, now)
    else if req.adminDelegation.None? then [Check(true, 403)]
    else DelegationChecks(c, gs, req, req.adminDelegation.value, now)
  }

  lemma {:induction false} RefusalOf(a: seq<Check>, b: seq<Check>)
    ensures FirstRefusal(a + b) == if FirstRefusal(a) == Accepted then FirstRefusal(b) else FirstRefusal(a)
  {
    if a == [] {
      assert a + b == b;
    } else {
      assert (a + b)[1..] == a[1..] + b;
      RefusalOf(a[1..], b);
    }
  }

  lemma TwoChecks(checks: seq<Check>)
    requires |checks| == 2
    ensures FirstRefusal(checks) ==
      if checks[0].fails then Refused(checks[0].status) else if checks[1].fails then Refused(checks[1].status)
      else Accepted
  {
    assert checks[1..][1..] == [];
    assert FirstRefusal(checks[1..]) == if checks[1].fails then Refused(checks[1].status) else Accepted;
  }

  lemma {:induction false} ReissueAnswer(c: Config, req: MembersRequest, ds: seq<Delegation>, now: int)
    ensures FirstRefusal(ReissueChecks(c, req, ds, now)) ==
      var refusal := PublishedTokens(c, req, ds, now).1;
      if refusal.Some? then Refused(refusal.value) else Accepted
  {
    if ds != [] {
      var rest, all := ReissueChecks(c, req, ds[..|ds| - 1], now), ReissueChecks(c, req, ds, now);
      ReissueAnswer(c, req, ds[..|ds| - 1], now);
      assert all == rest + all[|rest|..];
      RefusalOf(rest, all[|rest|..]);
      TwoChecks(all[|rest|..]);
    }
  }

  lemma NaturalIff(x: real)
    ensures IsNaturalNumber(x) <==> IsNatural(x)
  {
    if IsNaturalNumber(x) {
      var n: nat := x.Floor;
      assert x == Whole(n);
    }
  }

  lemma ThreeChecks(checks: seq<Check>)
    requires |checks| == 3
    ensures FirstRefusal(checks) ==
      if checks[0].fails then Refused(checks[0].status) else if checks[1].fails then Refused(checks[1].status)
      else if checks[2].fails then Refused(checks[2].status) else Accepted
  {
    TwoChecks(checks[1..]);
  }

  lemma OwnerAnswer(c: Config, req: MembersRequest, now: int)
    ensures OwnerVerdict(c, req, NormalizePeerIds(req.memberPeerIds), now) == FirstRefusal(OwnerChecks(c, req, now))
  {
    var checks := OwnerChecks(c, req, now);
    if req.delegationVersion.Some? { NaturalIff(req.delegationVersion.value); }
    if req.adminDelegations.Some? { ReissueAnswer(c, req, req.adminDelegations.value, now); }
    assert checks == checks[..3] + checks[3..];
    RefusalOf(checks[..3], checks[3..]);
    ThreeChecks(checks[..3]);
  }

  lemma PermittedIff(req: MembersRequest, d: Delegation)
    ensures Permitted(req, d) <==> Permission(req.action) in d.permissions
  {
    assert TO_ADD == MEMBERS_ADD;
    assert TO_REMOVE == MEMBERS_REMOVE;
  }

  /** Each check is the one the relay makes. */
  lemma SameToken(c: Config, gs: Groups, req: MembersRequest, d: Delegation, now: int)
    ensures var checks, m := DelegationChecks(c, gs, req, d, now), Lookup(gs, req.groupId);
      m.Some? ==> (checks[4].fails <==> !HoldsToken(m.value, req.from, TokenOf(d)))
  {
  }

  lemma HeadIs(c: Config, m: Option<Membership>, req: MembersRequest, d: Delegation, now: int, members: seq<Str>,
               changed: seq<Str>, safe: seq<Str>)
    requires d.version == 1.0 && d.groupId == req.groupId && d.adminPeerId == req.from && !req.action.Unknown?
    requires changed != [] && now as real <= d.expiresAtMs && m.Some? && m.value.Active? && !m.value.provisional
    ensures var checks := ListChecks(c, m, req, d, now, members, changed, safe);
      !checks[0].fails && !checks[1].fails && !checks[3].fails
  {
  }

  lemma SameSignature(c: Config, gs: Groups, req: MembersRequest, d: Delegation, now: int)
    ensures DelegationChecks(c, gs, req, d, now)[6].fails <==> !DelegationSigned(c, d)
  {
  }

  lemma SameLists(c: Config, gs: Groups, req: MembersRequest, d: Delegation, now: int)
    ensures var checks, m := DelegationChecks(c, gs, req, d, now), Lookup(gs, req.groupId);
      var members, changed := NormalizePeerIds(req.memberPeerIds), NormalizePeerIds(req.changedPeerIds);
      (checks[5].fails <==> req.owner !in NormalizePeerIds(d.protectedPeerIds) ||
                            Touches(changed, NormalizePeerIds(d.protectedPeerIds))) &&
      (m.Some? && m.value.Active? ==>
        (checks[7].fails <==> req.owner !in ExpectedMembers(m.value.members, req.action, changed) ||
                              !JoinsLike(ExpectedMembers(m.value.members, req.action, changed), members))) &&
      (checks[8].fails <==> !AdminSigned(c, req, members, changed, d))
  {
    var changed := NormalizePeerIds(req.changedPeerIds);
    assert (set p | p in changed) == Elements(changed);
  }

  lemma DelegateAnswer(c: Config, gs: Groups, req: MembersRequest, d: Delegation, now: int)
    ensures var members, changed := NormalizePeerIds(req.memberPeerIds), NormalizePeerIds(req.changedPeerIds);
      DelegateChecks(c, gs, req, d, members, changed, NormalizePeerIds(d.protectedPeerIds), now) ==
        FirstRefusal(DelegationChecks(c, gs, req, d, now))
  {
    PermittedIff(req, d);
    SameToken(c, gs, req, d, now);
    SameSignature(c, gs, req, d, now);
    SameLists(c, gs, req, d, now);
    NineChecks(DelegationChecks(c, gs, req, d, now));
  }

  lemma NineChecks(checks: seq<Check>)
    requires |checks| == 9
    ensures FirstRefusal(checks) ==
      if checks[0].fails then Refused(checks[0].status) else if checks[1].fails then Refused(checks[1].status)
      else if checks[2].fails then Refused(checks[2].status) else if checks[3].fails then Refused(checks[3].status)
      else if checks[4].fails then Refused(checks[4].status) else if checks[5].fails then Refused(checks[5].status)
      else if checks[6].fails then Refused(checks[6].status) else if checks[7].fails then Refused(checks[7].status)
      else if checks[8].fails then Refused(checks[8].status) else Accepted
  {
    FiveChecks(checks[4..]);
    Peel(checks, 0);
    Peel(checks, 1);
    Peel(checks, 2);
    Peel(checks, 3);
    assert checks[0..] == checks;
  }

  /** Every update is answered by the first of these checks that fails. */
  lemma UpdateAnswer(c: Config, gs: Groups, req: MembersRequest, now: int)
    ensures UpdateVerdict(c, gs, req, now) == FirstRefusal(UpdateChecks(c, gs, req, now))
  {
    var shared, checks := SharedChecks(gs, req), UpdateChecks(c, gs, req, now);
    RefusalOf(shared, checks[2..]);
    assert checks == shared + checks[2..];
    TwoChecks(shared);
    if req.from == req.owner {
      OwnerAnswer(c, req, now);
      assert checks[2..] == OwnerChecks(c, req, now);
    } else if req.adminDelegation.Some? {
      DelegateAnswer(c, gs, req, req.adminDelegation.value, now);
      assert checks[2..] == DelegationChecks(c, gs, req, req.adminDelegation.value, now);
    } else {
      assert checks[2..] == [Check(true, 403)];
    }
  }

  /** An accepted change was permitted by the token, by name. */
  lemma AcceptedIsPermitted(c: Config, gs: Groups, req: MembersRequest, now: int)
    requires UpdateVerdict(c, gs, req, now) == Accepted && Delegated(req)
    ensures req.adminDelegation.Some?
    ensures req.action.Add? ==> TO_ADD in req.adminDelegation.value.permissions
    ensures req.action.Remove? ==> TO_REMOVE in req.adminDelegation.value.permissions
    ensures !req.action.Unknown?
  {
    if req.adminDelegation.Some? { PermittedIff(req, req.adminDelegation.value); }
  }

  /** All checks of an administrator's update but the one of the permission. */
  predicate OthersPass(checks: seq<Check>)
    requires |checks| == 9
  {
    !checks[0].fails && !checks[1].fails && !checks[3].fails && !checks[4].fails && !checks[5].fails &&
    !checks[6].fails && !checks[7].fails && !checks[8].fails
  }

  /** When every other check passes, the permission decides. */
  lemma PermissionDecides(c: Config, gs: Groups, req: MembersRequest, d: Delegation, now: int)
    requires Delegated(req) && req.adminDelegation == Some(d)
    requires FirstRefusal(SharedChecks(gs, req)) == Accepted && OthersPass(DelegationChecks(c, gs, req, d, now))
    ensures UpdateVerdict(c, gs, req, now) == if Permitted(req, d) then Accepted else Refused(403)
  {
    UpdateAnswer(c, gs, req, now);
    RefusalOf(SharedChecks(gs, req), DelegationChecks(c, gs, req, d, now));
    NineChecks(DelegationChecks(c, gs, req, d, now));
  }

  // ----- blobs -----

  /** The signed text of a blob, whole or in chunks: an absent media type is empty. */
  function TextOfBlob(m: Meta, payload: Bytes): SignedText {
    BlobText(m.id, m.from, m.groupId, m.fileName, if m.mimeType.Some? then Trim(m.mimeType.value) else [], m.ts, m.ttl,
             payload)
  }

  /** The blob that is stored for these fields. */
  predicate IsBlobOf(b: Blob, m: Meta, payload: Bytes, sig: Str, signingPub: Str) {
    b.id == m.id && b.from == m.from && b.groupId == m.groupId && b.fileName == m.fileName &&
    b.mimeType == m.mimeType && b.payload == payload && b.ts == m.ts && b.ttl == m.ttl && b.sig == sig &&
    b.signingPub == signingPub
  }

  /** A single-shot upload is refused with 401 exactly if its signature fails; otherwise it is stored whole
      under its id, unless that is taken. */
  lemma UploadAnswer(f: Files, c: Config, b: BlobRequest, now: int, m: Meta)
    requires IsBlobOf(b, m, b.payload, b.sig, b.signingPub)
    ensures var reply, f' := SingleShotReply(f, c, b), SingleShot(f, c, b, now);
      (reply == Failed(401) <==> !c.verify(TextOfBlob(m, b.payload), b.sig, b.signingPub)) &&
      (reply == Duplicate <==> reply != Failed(401) && m.id in f.blobs) &&
      reply in {Created, Duplicate, Failed(401)} &&
      f'.uploads == f.uploads &&
      f'.blobs == if reply == Created then f.blobs[m.id := StoredBlob(b, now)] else f.blobs
  {
    TrimEmpty();
  }

  lemma TrimEmpty()
    ensures Trim([]) == []
  {
  }

  /** The session of a chunk. */
  function SessionKey(m: Meta): Str {
    m.id + [124] + m.from + [124] + m.groupId
  }

  function ChunkChecks(f: Files, req: ChunkRequest): seq<Check> {
    var m, key := req.meta, SessionKey(req.meta);
    [Check(req.chunkIndex < 0 || m.totalChunks <= 0 || req.chunkIndex >= m.totalChunks || m.totalChunks > 10000, 400),
     Check(key in f.uploads && f.uploads[key].meta.totalChunks != m.totalChunks, 409)]
  }

  /** A chunk is refused by the first of these checks that fails; otherwise its bytes are put into its
      session, which the first chunk opens with its own fields and time, and the number of chunks is told. */
  lemma ChunkAnswer(f: Files, req: ChunkRequest, now: int)
    ensures var reply, f', key := ChunkReply(f, req), AddChunk(f, req, now), SessionKey(req.meta);
      match FirstRefusal(ChunkChecks(f, req))
      case Refused(status) => reply == Failed(status) && f' == f
      case Accepted =>
        f'.blobs == f.blobs && f'.uploads.Keys == f.uploads.Keys + {key} &&
        (forall k :: k in f.uploads && k != key ==> f'.uploads[k] == f.uploads[k]) &&
        var u, chunks := f'.uploads[key], if key in f.uploads then f.uploads[key].chunks else map[];
        u.chunks == chunks[req.chunkIndex := req.payload] && reply == ChunkTaken(|u.chunks|) &&
        u.meta == (if key in f.uploads then f.uploads[key].meta else req.meta) &&
        u.insertedAtMs == (if key in f.uploads then f.uploads[key].insertedAtMs else now)
  {
    TwoChecks(ChunkChecks(f, req));
  }

  /** The chunks of a session by index, one after the other; `None` if one is missing. */
  function Gathered(chunks: map<int, Bytes>, n: nat): Option<Bytes> {
    if n == 0 then Some([]) else
      var front := Gathered(chunks, n - 1);
      if front.Some? && n - 1 in chunks then Some(front.value + chunks[n - 1]) else None
  }

  lemma {:induction false} GatheredIs(chunks: map<int, Bytes>, n: nat)
    ensures Gathered(chunks, n) == if HasAll(chunks, n) then Some(Assemble(chunks, n)) else None
  {
    if n > 0 { GatheredIs(chunks, n - 1); }
  }

  function CompleteChecks(f: Files, c: Config, req: CompleteRequest): seq<Check> {
    var m, key := req.meta, SessionKey(req.meta);
    var chunks := if key in f.uploads then f.uploads[key].chunks else map[];
    var bytes := if m.totalChunks > 0 then Gathered(chunks, m.totalChunks) else None;
    [Check(m.totalChunks <= 0 || m.totalChunks > 10000, 400),
     Check(key !in f.uploads, 404),
     Check(|chunks| != m.totalChunks, 409),
     Check(bytes.None?, 409),
     Check(bytes.None? || !c.verify(TextOfBlob(m, bytes.value), req.sig, req.signingPub), 401)]
  }

  /** Completion is refused by the first of these checks that fails; otherwise the session is gone, and the
      bytes of its chunks are stored under the request's own fields, unless the id is taken. */
  lemma CompleteAnswer(f: Files, c: Config, req: CompleteRequest, now: int)
    ensures var reply, f', key := CompleteReply(f, c, req), Complete(f, c, req, now), SessionKey(req.meta);
      match FirstRefusal(CompleteChecks(f, c, req))
      case Refused(status) => reply == Failed(status) && f' == f
      case Accepted =>
        key in f.uploads && f'.uploads == f.uploads - {key} &&
        reply == (if req.meta.id in f.blobs then Duplicate else Created) &&
        var bytes := Gathered(f.uploads[key].chunks, req.meta.totalChunks);
        bytes.Some? && f'.blobs.Keys == f.blobs.Keys + {req.meta.id} &&
        (forall id :: id in f.blobs ==> f'.blobs[id] == f.blobs[id]) &&
        (req.meta.id !in f.blobs ==>
          IsBlobOf(f'.blobs[req.meta.id].blob, req.meta, bytes.value, req.sig, req.signingPub) &&
          f'.blobs[req.meta.id].insertedAtMs == now)
  {
    var key := SessionKey(req.meta);
    FiveChecks(CompleteChecks(f, c, req));
    TrimEmpty();
    if req.meta.totalChunks > 0 && key in f.uploads { GatheredIs(f.uploads[key].chunks, req.meta.totalChunks); }
  }

  /** Upload sessions last for their own lifetime from their first chunk on. */
  lemma SessionLifetime(f: Files, c: Config, now: int, key: Str)
    ensures key in SweepUploads(f, c, now).uploads <==>
      key in f.uploads && now <= f.uploads[key].insertedAtMs + c.uploadTtlSeconds * 1000
    ensures key in SweepUploads(f, c, now).uploads ==> SweepUploads(f, c, now).uploads[key] == f.uploads[key]
  {
  }
}
