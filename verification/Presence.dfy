/** Who is online: the signaling server's sessions, taken over by later registers and ended by close
    events that may come late. */
module Presence {
  import opened JsText

  type Conn = nat

  /** A socket is open, or closing and not yet reported closed; a closed one is forgotten. */
  datatype Phase = Open | Closing

  /** `names` is each connection's registeredPeerId. */
  datatype State = State(
    peers: map<Str, Conn>, lastSeen: map<Str, int>, names: map<Conn, Str>, phases: map<Conn, Phase>, next: Conn)

  /** A register frame that verified; its peer id is not empty. A closing socket may still deliver
      frames that were on their way, until its close event. */
  datatype Event =
    | Connect
    | Register(conn: Conn, peer: Str)
    | PeersRequest(conn: Conn)
    | Drop(conn: Conn)
    | Close(conn: Conn)

  datatype Entry = At(now: int, event: Event)

  const START := State(map[], map[], map[], map[], 0)

  predicate IsOpen(s: State, c: Conn) {
    c in s.phases && s.phases[c] == Open
  }

  function Closed(s: State, c: Conn): State {
    if IsOpen(s, c) then s.(phases := s.phases[c := Closing]) else s
  }

  /** cleanupOfflinePeers. */
  function Cleaned(s: State, now: int): State {
    s.(peers := map p | p in s.peers && IsOpen(s, s.peers[p]) :: s.peers[p],
       lastSeen := map p | p in s.lastSeen.Keys + s.peers.Keys && (p in s.lastSeen || !IsOpen(s, s.peers[p])) ::
         if p in s.peers && !IsOpen(s, s.peers[p]) then now else s.lastSeen[p])
  }

  /** A register replaces, and closes, another session of the same peer. */
  function Registered(s: State, c: Conn, p: Str): State {
    var s1 := if p in s.peers && s.peers[p] != c then Closed(s, s.peers[p]) else s;
    s1.(peers := s1.peers[p := c], names := s1.names[c := p], lastSeen := s1.lastSeen - {p})
  }

  /** The close handler ends the session only if it is still this connection's. */
  function Ended(s: State, c: Conn, now: int): State {
    var s1 := s.(phases := s.phases - {c});
    if c in s.names && s.names[c] in s.peers && s.peers[s.names[c]] == c
    then s1.(peers := s.peers - {s.names[c]}, lastSeen := s.lastSeen[s.names[c] := now])
    else s1
  }

  /** Frames and close events come only from connections that have not been reported closed. */
  predicate Happens(s: State, e: Event) {
    match e
    case Connect => true
    case Register(c, p) => c in s.phases && p != []
    case PeersRequest(c) => c in s.phases && c in s.names
    case Drop(c) => c in s.phases
    case Close(c) => c in s.phases
  }

  function Step(s: State, e: Entry): State {
    if !Happens(s, e.event) then s else
      match e.event
      case Connect => s.(phases := s.phases[s.next := Open], next := s.next + 1)
      case Register(c, p) => Registered(s, c, p)
      case PeersRequest(c) => Cleaned(s, e.now)
      case Drop(c) => Closed(s, c)
      case Close(c) => Ended(s, c, e.now)
  }

  function After(run: seq<Entry>): State {
    if run == [] then START else Step(After(run[..|run| - 1]), run[|run| - 1])
  }

  /** The connection a signal frame is forwarded to. */
  function Receiver(s: State, from: Conn, to: Str): Option<Conn> {
    if from in s.names && to != [] && to in s.peers && IsOpen(s, s.peers[to]) then Some(s.peers[to]) else None
  }

  // ----- what the run says -----

  predicate Registers(run: seq<Entry>, i: nat, p: Str)
    requires i < |run|
  {
    run[i].event.Register? && run[i].event.peer == p && Happens(After(run[..i]), run[i].event)
  }

  /** The connection that registered the peer last. */
  function Latest(run: seq<Entry>, p: Str): Option<Conn> {
    if run == [] then None
    else if Registers(run, |run| - 1, p) then Some(run[|run| - 1].event.conn)
    else Latest(run[..|run| - 1], p)
  }

  /** The connection has registered the peer at some time. */
  predicate EverHeld(run: seq<Entry>, p: Str, c: Conn) {
    run != [] &&
    ((Registers(run, |run| - 1, p) && run[|run| - 1].event.conn == c) || EverHeld(run[..|run| - 1], p, c))
  }

  // ----- invariants -----

  ghost predicate Numbered(s: State) {
    forall c :: c in s.phases || c in s.names ==> c < s.next
  }

  /** A peer is online or has been seen, not both, and it is one of them exactly when it ever
      registered. */
  ghost predicate Split(s: State, latest: Option<Conn>, p: Str) {
    (latest.Some? <==> p in s.peers || p in s.lastSeen) && !(p in s.peers && p in s.lastSeen)
  }

  /** The table holds nobody but the latest session, and holds it while its socket is open. */
  ghost predicate Current(s: State, latest: Option<Conn>, p: Str) {
    (p in s.peers ==> latest == Some(s.peers[p])) &&
    (latest.Some? && IsOpen(s, latest.value) ==> p in s.peers)
  }

  /** What a step does to the table and to the open sockets, seen from one peer. */
  lemma StepKeeps(s: State, e: Entry, latest: Option<Conn>, p: Str)
    requires Split(s, latest, p) && Current(s, latest, p) && Numbered(s) && (latest.Some? ==> latest.value < s.next)
    ensures var enters := e.event.Register? && e.event.peer == p && Happens(s, e.event);
      var now := if enters then Some(e.event.conn) else latest;
      Split(Step(s, e), now, p) && Current(Step(s, e), now, p) && (now.Some? ==> now.value < Step(s, e).next)
  {
    if Happens(s, e.event) {
      match e.event {
        case Register(c, q) => assert Step(s, e) == Registered(s, c, q);
        case Close(c) => assert Step(s, e) == Ended(s, c, e.now);
        case _ =>
      }
    }
  }

  lemma StepNumbered(s: State, e: Entry)
    requires Numbered(s)
    ensures Numbered(Step(s, e))
  {
    forall c | c in Step(s, e).phases || c in Step(s, e).names ensures c < Step(s, e).next {
      assert c in s.phases || c in s.names || (e.event.Connect? && c == s.next);
    }
  }

  lemma {:induction false} ReachableSession(run: seq<Entry>, p: Str)
    ensures Split(After(run), Latest(run, p), p) && Current(After(run), Latest(run, p), p)
    ensures Numbered(After(run)) && (Latest(run, p).Some? ==> Latest(run, p).value < After(run).next)
  {
    if run != [] {
      ReachableSession(run[..|run| - 1], p);
      StepNumbered(After(run[..|run| - 1]), run[|run| - 1]);
      StepKeeps(After(run[..|run| - 1]), run[|run| - 1], Latest(run[..|run| - 1], p), p);
    }
  }

  // ----- since when a peer is away -----

  /** When the peer left: since its last register, the close event of its connection, if that had not
      registered another peer after it, or the first clean-up that found its socket not open. */
  function LeftAt(run: seq<Entry>, p: Str): Option<int> {
    if run == [] then None else
      var n := |run| - 1;
      var latest, before := Latest(run[..n], p), LeftAt(run[..n], p);
      if Registers(run, n, p) then None
      else if before.Some? || latest.None? then before
      else if Leaves(After(run[..n]), run[n].event, latest.value, p) then Some(run[n].now)
      else None
  }

  /** The event ends the peer's session, which is this connection's. */
  predicate Leaves(s: State, e: Event, c: Conn, p: Str) {
    Happens(s, e) &&
    ((e == Close(c) && c in s.names && s.names[c] == p) || (e.PeersRequest? && !IsOpen(s, c)))
  }

  function SeenAt(s: State, p: Str): Option<int> {
    if p in s.lastSeen then Some(s.lastSeen[p]) else None
  }

  lemma StepSeen(s: State, e: Entry, latest: Option<Conn>, p: Str)
    requires Split(s, latest, p) && Current(s, latest, p)
    ensures SeenAt(Step(s, e), p) ==
      if e.event.Register? && e.event.peer == p && Happens(s, e.event) then None
      else if SeenAt(s, p).Some? || latest.None? then SeenAt(s, p)
      else if Leaves(s, e.event, latest.value, p) then Some(e.now)
      else None
  {
  }

  /** The time kept for a peer that is away is the time it left. */
  lemma {:induction false} LastSeenIsLeft(run: seq<Entry>, p: Str)
    ensures SeenAt(After(run), p) == LeftAt(run, p)
  {
    if run != [] {
      var n := |run| - 1;
      LastSeenIsLeft(run[..n], p);
      ReachableSession(run[..n], p);
      StepSeen(After(run[..n]), run[n], Latest(run[..n], p), p);
    }
  }

  /** A session that has been taken over is not open any more. */
  lemma {:induction false} OnlyLatestOpen(run: seq<Entry>, p: Str, c: Conn)
    requires EverHeld(run, p, c) && IsOpen(After(run), c)
    ensures Latest(run, p) == Some(c)
  {
    var n := |run| - 1;
    var s := After(run[..n]);
    ReachableSession(run[..n], p);
    if EverHeld(run[..n], p, c) {
      HeldIsNumbered(run[..n], p, c);
      OpenBefore(s, run[n], c);
      OnlyLatestOpen(run[..n], p, c);
    }
  }

  lemma {:induction false} HeldIsNumbered(run: seq<Entry>, p: Str, c: Conn)
    requires EverHeld(run, p, c)
    ensures c < After(run).next
  {
    var n := |run| - 1;
    ReachableSession(run[..n], p);
    if EverHeld(run[..n], p, c) { HeldIsNumbered(run[..n], p, c); }
  }

  /** Sockets do not open again. */
  lemma OpenBefore(s: State, e: Entry, c: Conn)
    requires IsOpen(Step(s, e), c) && c < s.next
    ensures IsOpen(s, c)
  {
  }

  /** A signal frame goes to the socket that registered the target last, exactly when that socket is
      open; so a session that has been taken over receives nothing, and its late close event does not
      make the newer one unreachable. */
  lemma DeliveredToLatest(run: seq<Entry>, from: Conn, to: Str, c: Conn)
    requires to != [] && from in After(run).names
    ensures Receiver(After(run), from, to) == Some(c) <==> Latest(run, to) == Some(c) && IsOpen(After(run), c)
    ensures EverHeld(run, to, c) && Receiver(After(run), from, to) != Some(c) ==> !IsOpen(After(run), c)
  {
    ReachableSession(run, to);
    if EverHeld(run, to, c) && IsOpen(After(run), c) { OnlyLatestOpen(run, to, c); }
  }

  predicate RegistersFrom(run: seq<Entry>, i: int, c: Conn) {
    0 <= i < |run| && run[i].event.Register? && run[i].event.conn == c && Happens(After(run[..i]), run[i].event)
  }

  /** Only a connection that has registered some peer has a signal frame delivered. */
  lemma {:induction false} NamedHasRegistered(run: seq<Entry>, c: Conn)
    ensures c in After(run).names <==> exists i :: RegistersFrom(run, i, c)
  {
    if run != [] {
      var n := |run| - 1;
      NamedHasRegistered(run[..n], c);
      if i :| RegistersFrom(run, i, c) {
        assert i < n ==> run[..n][..i] == run[..i];
        assert i == n || RegistersFrom(run[..n], i, c);
      }
      if i :| RegistersFrom(run[..n], i, c) {
        assert run[..n][..i] == run[..i] && RegistersFrom(run, i, c);
      }
      assert RegistersFrom(run, n, c) ==> c in After(run).names;
    }
  }

  /** For other connections and without a target nothing is delivered. */
  lemma OnlyRegisteredSend(run: seq<Entry>, from: Conn, to: Str)
    ensures Receiver(After(run), from, to).Some? ==> to != [] && exists i :: RegistersFrom(run, i, from)
  {
    NamedHasRegistered(run, from);
  }

  /** The snapshot sent to a peer lists exactly the peers whose latest socket is open. */
  lemma SnapshotIsOnline(run: seq<Entry>, now: int, p: Str)
    ensures p in Cleaned(After(run), now).peers <==> Latest(run, p).Some? && IsOpen(After(run), Latest(run, p).value)
    ensures p in Cleaned(After(run), now).lastSeen <==>
      Latest(run, p).Some? && !IsOpen(After(run), Latest(run, p).value)
  {
    ReachableSession(run, p);
  }

  /** Late or not, a close event removes nothing but the connection's own session. */
  lemma LateCloseKeepsNewer(s: State, c: Conn, now: int, p: Str)
    requires p in s.peers && s.peers[p] != c
    ensures p in Ended(s, c, now).peers && Ended(s, c, now).peers[p] == s.peers[p]
    ensures IsOpen(s, s.peers[p]) ==> IsOpen(Ended(s, c, now), s.peers[p])
  {
  }

  /** A connection that registers a second peer id leaves the first one behind: its own close event
      does not end that session, and the peer stays in the table until the next clean-up. */
  lemma SecondNameLeavesFirst(s: State, c: Conn, p: Str, q: Str, now: int)
    requires c in s.phases && p != q && p != [] && q != []
    ensures var s' := Ended(Registered(Registered(s, c, p), c, q), c, now);
      p in s'.peers && !IsOpen(s', s'.peers[p]) && q !in s'.peers && p !in Cleaned(s', now).peers
  {
    var s2 := Registered(Registered(s, c, p), c, q);
    assert s2.names[c] == q && s2.peers[q] == c && s2.peers[p] == c;
  }
}
