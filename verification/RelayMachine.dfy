/** The relay as one transition system: requests and timer sweeps, each one atomic step at one
    reading of a clock that never runs backwards. */
module RelayMachine {
  import opened JsText
  import opened RelayTypes
  import opened RelayMail
  import opened RelayGroups
  import opened RelayUploads

  datatype State = State(mail: Mail, groups: Groups, files: Files)

  const EMPTY := State(Mail(map[], map[]), map[], Files(map[], map[]))

  datatype GroupStoreRequest = GroupStoreRequest(
    id: Str, from: Str, groupId: Str, recipients: seq<Str>, ts: real, ttl: real, payload: Bytes,
    sig: Str, signingPub: Str)

  datatype AckRequest = AckRequest(id: Str, from: Str, to: Str, ts: real, sig: Str, signingPub: Str)

  datatype Event =
    | Store(env: Envelope)
    | GroupStore(group: GroupStoreRequest)
    | Update(update: MembersRequest)
    | UploadBlob(blob: BlobRequest)
    | UploadChunk(chunk: ChunkRequest)
    | CompleteUpload(complete: CompleteRequest)
    | ReadBlob(blobId: Str)
    | Fetch(to: Str, cursor: Option<Str>, limit: Option<int>)
    | Ack(ack: AckRequest)
    | Sweep

  datatype Entry = At(now: int, event: Event)

  // ----- /relay/store and /relay/ack -----

  predicate EnvelopeSigned(c: Config, e: Envelope) {
    c.verify(EnvelopeText(e.id, e.from, e.to, e.ts, e.ttl, e.payload), e.sig, e.signingPub)
  }

  predicate AckSigned(c: Config, a: AckRequest) {
    c.verify(AckText(a.id, a.from, a.to, a.ts), a.sig, a.signingPub)
  }

  // ----- /relay/group/store -----

  function Recipients(g: GroupStoreRequest): (r: seq<Str>)
    ensures Ascending(r)
  {
    GroupRecipients(g.recipients, g.from)
  }

  predicate GroupSigned(c: Config, g: GroupStoreRequest) {
    Recipients(g) != [] &&
    c.verify(GroupEnvelopeText(g.id, g.from, g.groupId, Recipients(g), g.ts, g.ttl, g.payload), g.sig, g.signingPub)
  }

  /** The copy for one recipient; the recipient itself is filled in by the loop. */
  function FanOutEnvelope(g: GroupStoreRequest): Envelope {
    Envelope(g.id, g.from, [], Some(g.groupId), Recipients(g), g.ts, g.ttl, g.payload, g.sig, g.signingPub)
  }

  function GroupVerdict(c: Config, s: State, g: GroupStoreRequest, now: int): (v: Verdict)
    ensures v == Accepted ==> GroupSigned(c, g)
  {
    if Recipients(g) == [] then Refused(400)
    else if !GroupSigned(c, g) then Refused(401)
    else AdmitFanOut(SweepGroups(s.groups, c, now), g.groupId, g.from, Recipients(g))
  }

  function GroupStoreMail(c: Config, m: Mail, g: GroupStoreRequest, admitted: bool, now: int): Mail {
    if admitted then FanOut(SweepAcks(m, c, now), c, Recipients(g), FanOutEnvelope(g), now) else SweepAcks(m, c, now)
  }

  function GroupStoreGroups(c: Config, gs: Groups, g: GroupStoreRequest, admitted: bool, now: int): Groups {
    if admitted then Bootstrap(SweepGroups(gs, c, now), g.groupId, g.from, Recipients(g), now)
    else SweepGroups(gs, c, now)
  }

  // ----- the step -----

  /** A signed group request sweeps before it is admitted or refused. */
  function StepMail(c: Config, s: State, entry: Entry): Mail {
    var now, m := entry.now, s.mail;
    match entry.event
    case Store(env) => if EnvelopeSigned(c, env) then StoreMail(m, c, env, now) else m
    case GroupStore(g) =>
      if GroupSigned(c, g) then GroupStoreMail(c, m, g, GroupVerdict(c, s, g, now) == Accepted, now) else m
    case Fetch(to, _, _) => SweepQueue(m, c, to, now)
    case Ack(a) => if AckSigned(c, a) then AckMail(m, c, a.to, a.id, now) else m
    case Sweep => SweepMail(m, c, now)
    case _ => m
  }

  function StepGroups(c: Config, s: State, entry: Entry): Groups {
    var now, gs := entry.now, s.groups;
    match entry.event
    case GroupStore(g) =>
      if GroupSigned(c, g) then GroupStoreGroups(c, gs, g, GroupVerdict(c, s, g, now) == Accepted, now) else gs
    case Update(req) => UpdateMembers(c, gs, req, now)
    case Sweep => SweepGroups(gs, c, now)
    case _ => gs
  }

  function StepFiles(c: Config, s: State, entry: Entry): Files {
    var now, f := entry.now, s.files;
    match entry.event
    case UploadBlob(b) => SingleShot(f, c, b, now)
    case UploadChunk(req) => AddChunk(f, req, now)
    case CompleteUpload(req) => Complete(f, c, req, now)
    case ReadBlob(_) => SweepBlobs(f, now)
    case Sweep => SweepUploads(SweepBlobs(f, now), c, now)
    case _ => f
  }

  function Step(c: Config, s: State, entry: Entry): State {
    State(StepMail(c, s, entry), StepGroups(c, s, entry), StepFiles(c, s, entry))
  }

  /** The messages a fetch returns. */
  function Fetched(c: Config, s: State, now: int, to: Str, cursor: Option<Str>, limit: Option<int>): seq<Item> {
    Page(Queue(SweepQueue(s.mail, c, to, now), to), cursor, limit)
  }

  // ----- runs -----

  function After(c: Config, s: State, run: seq<Entry>): State {
    if run == [] then s else Step(c, After(c, s, run[..|run| - 1]), run[|run| - 1])
  }

  ghost predicate Clocked(run: seq<Entry>) {
    forall i, j :: 0 <= i < j < |run| ==> run[i].now <= run[j].now
  }

  lemma AfterNext(c: Config, s: State, run: seq<Entry>, i: nat)
    requires i < |run|
    ensures After(c, s, run[..i + 1]) == Step(c, After(c, s, run[..i]), run[i])
  {
    assert run[..i + 1][..i] == run[..i];
  }
}
