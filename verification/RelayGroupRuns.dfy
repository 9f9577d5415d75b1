/** Laws of group administration over whole runs of the relay. */
module RelayGroupRuns {
  import opened JsText
  import opened RelayTypes
  import opened RelayGroups
  import opened RelayMachine
  import opened RelayGroupLaws

  /** What one step means for the administrator tokens of one group: its owner publishes a list, an
      update is accepted that publishes nothing, an owned group expires, or none of these. */
  datatype Outcome = Published(owner: Str, tokens: map<Str, Token>) | Confirmed(owner: Str) | Lapsed | Nothing

  function OutcomeOf(c: Config, s: State, entry: Entry, g: Str): Outcome {
    if AcceptedUpdate(c, s, entry, g) then
      var req := entry.event.update;
      if Publishes(req) && req.adminDelegations.Some?
      then Published(req.owner, PublishedTokens(c, req, req.adminDelegations.value, entry.now).0)
      else Confirmed(req.owner)
    else if Sweeps(c, s, entry) && ViewOf(s, g).Owned? && s.groups[g].updatedAtMs < entry.now - c.groupTtlSeconds * 1000
    then Lapsed
    else Nothing
  }

  /** What the relay knows of the administration of one group. */
  datatype View = NotOwned | Owned(owner: Str, tokens: map<Str, Token>)

  function ViewOf(s: State, g: Str): View {
    if g in s.groups && s.groups[g].Active? && !s.groups[g].provisional
    then Owned(s.groups[g].owner, s.groups[g].delegations) else NotOwned
  }

  /** Publication replaces the tokens; other updates of an owned group keep them and its owner;
      taking over a group that is not owned starts without tokens; expiry clears everything. */
  function Observe(v: View, o: Outcome): View {
    match o
    case Published(owner, tokens) => Owned(owner, tokens)
    case Confirmed(owner) => if v.Owned? then v else Owned(owner, map[])
    case Lapsed => NotOwned
    case Nothing => v
  }

  lemma ViewStep(c: Config, s: State, entry: Entry, g: Str)
    requires Proper(s.groups)
    ensures ViewOf(Step(c, s, entry), g) == Observe(ViewOf(s, g), OutcomeOf(c, s, entry, g))
  {
    StepGroup(c, s, entry, g);
    assert g in s.groups ==> ProperMembership(s.groups[g]);
    if AcceptedUpdate(c, s, entry, g) {
      UpdateTokens(c, s, entry, g);
    } else {
      assert g in StepGroups(c, s, entry) ==> Lookup(StepGroups(c, s, entry), g) == Some(StepGroups(c, s, entry)[g]);
    }
  }

  // ----- reasoning on the log alone -----

  function ObserveAll(log: seq<Outcome>): View {
    if log == [] then NotOwned else Observe(ObserveAll(log[..|log| - 1]), log[|log| - 1])
  }

  /** Entry i of the log published the tokens and nothing since has published, lapsed or ended them. */
  ghost predicate LastPublication(log: seq<Outcome>, i: nat, owner: Str, tokens: map<Str, Token>) {
    i < |log| && log[i] == Published(owner, tokens) &&
    forall j :: i < j < |log| ==> log[j].Confirmed? || log[j].Nothing?
  }

  lemma {:induction false} TokensComeFromPublication(log: seq<Outcome>)
    requires ObserveAll(log).Owned? && ObserveAll(log).tokens != map[]
    ensures exists i :: LastPublication(log, i, ObserveAll(log).owner, ObserveAll(log).tokens)
  {
    var n := |log| - 1;
    var v := ObserveAll(log);
    if log[n].Published? {
      assert LastPublication(log, n, v.owner, v.tokens);
    } else {
      TokensComeFromPublication(log[..n]);
      var i :| LastPublication(log[..n], i, v.owner, v.tokens);
      assert LastPublication(log, i, v.owner, v.tokens);
    }
  }

  lemma LastPublicationUnique(log: seq<Outcome>, p: nat, owner: Str, tokens: map<Str, Token>, i: nat)
    requires LastPublication(log, p, owner, tokens) && i < |log| && log[i].Published?
    requires forall j :: i < j < |log| ==> !log[j].Published?
    ensures p == i && log[i].tokens == tokens
  {
  }

  // ----- runs -----

  /** The outcome of the i-th request. */
  function OutcomeAt(c: Config, run: seq<Entry>, g: Str, i: nat): Outcome
    requires i < |run|
  {
    OutcomeOf(c, After(c, EMPTY, run[..i]), run[i], g)
  }

  function LogOf(c: Config, run: seq<Entry>, g: Str): (log: seq<Outcome>)
    ensures |log| == |run|
  {
    seq(|run|, i requires 0 <= i < |run| => OutcomeAt(c, run, g, i))
  }

  /** The log of a prefix is the prefix of the log. */
  lemma LogOfPrefix(c: Config, run: seq<Entry>, g: Str)
    requires run != []
    ensures LogOf(c, run, g)[..|run| - 1] == LogOf(c, run[..|run| - 1], g)
    ensures LogOf(c, run, g)[|run| - 1] == OutcomeAt(c, run, g, |run| - 1)
  {
    var n := |run| - 1;
    forall i | 0 <= i < n ensures OutcomeAt(c, run, g, i) == OutcomeAt(c, run[..n], g, i) {
      assert run[..n][..i] == run[..i];
    }
  }

  lemma {:induction false} PublicationStands(log: seq<Outcome>, i: nat, owner: Str, tokens: map<Str, Token>)
    requires LastPublication(log, i, owner, tokens)
    ensures ObserveAll(log) == Owned(owner, tokens)
    decreases log
  {
    var n := |log| - 1;
    if i < n {
      assert LastPublication(log[..n], i, owner, tokens);
      PublicationStands(log[..n], i, owner, tokens);
    }
  }

  /** The request shows a token of the list. */
  predicate Shows(req: MembersRequest, tokens: map<Str, Token>) {
    req.adminDelegation.Some? && req.from in tokens && tokens[req.from] == TokenOf(req.adminDelegation.value)
  }

  ghost predicate StandsPublished(c: Config, run: seq<Entry>, req: MembersRequest, i: nat, tokens: map<Str, Token>) {
    LastPublication(LogOf(c, run, req.groupId), i, req.owner, tokens) && Shows(req, tokens)
  }

  /** An entry of the log that publishes is an accepted owner update, and it holds exactly the tokens
      the owner's key granted in that request. */
  lemma PublicationGrants(c: Config, run: seq<Entry>, g: Str, i: nat, admin: Str, t: Token)
    requires i < |run| && LogOf(c, run, g)[i].Published?
    ensures run[i].event.Update?
    ensures var req, tokens := run[i].event.update, LogOf(c, run, g)[i].tokens;
      req.groupId == g && req.from == req.owner == LogOf(c, run, g)[i].owner && req.adminDelegations.Some? &&
      ((admin in tokens && tokens[admin] == t) <==> exists k :: Grants(c, req, req.adminDelegations.value, k, admin, t))
  {
    assert LogOf(c, run, g)[i] == OutcomeAt(c, run, g, i);
    var s, req := After(c, EMPTY, run[..i]), run[i].event.update;
    AcceptedPublication(c, s.groups, req, run[i].now);
    PublishedEntries(c, req, req.adminDelegations.value, run[i].now, admin, t);
  }

  lemma AcceptedPublication(c: Config, gs: Groups, req: MembersRequest, now: int)
    requires UpdateVerdict(c, gs, req, now) == Accepted && Publishes(req)
    ensures req.adminDelegations.Some? && PublishedTokens(c, req, req.adminDelegations.value, now).1 == None
  {
  }
}
