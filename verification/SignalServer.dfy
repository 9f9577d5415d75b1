/** The event handlers of the signaling server. */
module SignalServer {
  import opened JsText
  import opened Presence

  /** One peer during the clean-up, `todo` being the peers not looked at yet. */
  ghost predicate Halfway(s: State, todo: set<Str>, now: int, p: Str, peers: map<Str, Conn>, seen: map<Str, int>) {
    if p in s.peers && p !in todo && !IsOpen(s, s.peers[p]) then p !in peers && p in seen && seen[p] == now
    else (p in peers <==> p in s.peers) && (p in peers ==> peers[p] == s.peers[p]) &&
         (p in seen <==> p in s.lastSeen) && (p in seen ==> seen[p] == s.lastSeen[p])
  }

  lemma HalfwayEnds(s: State, now: int, peers: map<Str, Conn>, seen: map<Str, int>)
    requires forall p :: Halfway(s, {}, now, p, peers, seen)
    ensures peers == Cleaned(s, now).peers && seen == Cleaned(s, now).lastSeen
  {
    var after := Cleaned(s, now);
    forall p ensures p in peers <==> p in after.peers {
      assert Halfway(s, {}, now, p, peers, seen);
    }
    forall p ensures p in seen <==> p in after.lastSeen {
      assert Halfway(s, {}, now, p, peers, seen);
    }
    forall p | p in peers ensures peers[p] == after.peers[p] {
      assert Halfway(s, {}, now, p, peers, seen);
    }
    forall p | p in seen ensures seen[p] == after.lastSeen[p] {
      assert Halfway(s, {}, now, p, peers, seen);
    }
  }

  class Sessions {
    var peers: map<Str, Conn>
    var lastSeenByPeer: map<Str, int>

    /** The registeredPeerId of each connection that has one. */
    var registeredPeerId: map<Conn, Str>

    var readyState: map<Conn, Phase>
    var next: Conn

    /** The events so far. */
    ghost var history: seq<Entry>

    function Now(): State
      reads this
    {
      State(peers, lastSeenByPeer, registeredPeerId, readyState, next)
    }

    ghost predicate Valid()
      reads this
    {
      Now() == After(history)
    }

    ghost method Record(now: int, event: Event)
      requires Now() == Step(After(history), At(now, event))
      modifies this`history
      ensures Valid() && history == old(history) + [At(now, event)]
    {
      history := history + [At(now, event)];
      assert history[..|history| - 1] == old(history);
    }

    constructor ()
      ensures Valid() && history == []
    {
      peers, lastSeenByPeer, registeredPeerId, readyState, next := map[], map[], map[], map[], 0;
      history := [];
    }

    method OnConnection(now: int) returns (conn: Conn)
      requires Valid()
      modifies this
      ensures Valid() && history == old(history) + [At(now, Connect)]
      ensures IsOpen(Now(), conn) && conn !in old(readyState)
    {
      ReachableSession(history, []);
      conn := next;
      readyState := readyState[conn := Open];
      next := next + 1;
      Record(now, Connect);
    }

    method CloseSocket(conn: Conn)
      modifies this`readyState
      ensures Now() == Closed(old(Now()), conn)
    {
      if conn in readyState && readyState[conn] == Open {
        readyState := readyState[conn := Closing];
      }
    }

    /** A verified register frame: the connection is the peer's session from now on, and the session
        it replaces is not open any more. */
    method OnRegister(conn: Conn, peer: Str, now: int) returns (told: set<Conn>)
      requires Valid() && conn in readyState && peer != []
      modifies this
      ensures Valid() && history == old(history) + [At(now, Register(conn, peer))]
      ensures peer in peers && peers[peer] == conn && peer !in lastSeenByPeer
      ensures peer in old(peers) && old(peers)[peer] != conn ==> !IsOpen(Now(), old(peers)[peer])
      ensures forall ws :: ws in told <==>
                ws in peers.Values && ws != conn && ws in readyState && readyState[ws] == Open
    {
      if peer in peers && peers[peer] != conn {
        CloseSocket(peers[peer]);
      }
      peers := peers[peer := conn];
      registeredPeerId := registeredPeerId[conn := peer];
      lastSeenByPeer := lastSeenByPeer - {peer};
      Record(now, Register(conn, peer));
      told := BroadcastPresenceUpdate(conn);
    }

    /** A signal frame is forwarded to the target's latest session while that is open, else refused. */
    method OnSignal(from: Conn, to: Str) returns (receiver: Option<Conn>)
      requires Valid()
      ensures receiver == Receiver(Now(), from, to)
      ensures receiver.Some? ==> from in registeredPeerId && to != []
      ensures receiver.Some? ==> Latest(history, to) == receiver && IsOpen(Now(), receiver.value)
      ensures receiver.None? && from in registeredPeerId && to != [] ==>
        Latest(history, to).None? || !IsOpen(Now(), Latest(history, to).value)
    {
      ReachableSession(history, to);
      if from !in registeredPeerId { return None; }
      if to == [] { return None; }
      if to !in peers { return None; }
      var ws := peers[to];
      if ws !in readyState || readyState[ws] != Open { return None; }
      return Some(ws);
    }

    /** cleanupOfflinePeers. */
    method CleanupOfflinePeers(now: int)
      modifies this`peers, this`lastSeenByPeer
      ensures Now() == Cleaned(old(Now()), now)
    {
      ghost var s := Now();
      var todo := peers.Keys;
      while todo != {}
        invariant todo <= s.peers.Keys && readyState == s.phases
        invariant forall p :: Halfway(s, todo, now, p, peers, lastSeenByPeer)
        decreases todo
      {
        var p :| p in todo;
        ghost var peers0, seen0, todo0 := peers, lastSeenByPeer, todo;
        assert Halfway(s, todo0, now, p, peers0, seen0);
        todo := todo - {p};
        if peers[p] !in readyState || readyState[peers[p]] != Open {
          peers := peers - {p};
          lastSeenByPeer := lastSeenByPeer[p := now];
        }
        forall q ensures Halfway(s, todo, now, q, peers, lastSeenByPeer) {
          assert Halfway(s, todo0, now, q, peers0, seen0);
        }
      }
      HalfwayEnds(s, now, peers, lastSeenByPeer);
    }

    /** peers_request: the peers online and when the others were last seen. */
    method OnPeersRequest(conn: Conn, now: int) returns (online: set<Str>, seen: map<Str, int>)
      requires Valid() && conn in readyState && conn in registeredPeerId
      modifies this
      ensures Valid() && history == old(history) + [At(now, PeersRequest(conn))]
      ensures forall p :: p in online <==>
                Latest(old(history), p).Some? && IsOpen(old(Now()), Latest(old(history), p).value)
      ensures forall p :: p in seen <==>
                Latest(old(history), p).Some? && !IsOpen(old(Now()), Latest(old(history), p).value)
      ensures forall p :: p in seen ==> LeftAt(history, p) == Some(seen[p])
    {
      ghost var before := Now();
      CleanupOfflinePeers(now);
      Record(now, PeersRequest(conn));
      online, seen := peers.Keys, lastSeenByPeer;
      forall p | p in seen ensures LeftAt(history, p) == Some(seen[p]) {
        LastSeenIsLeft(history, p);
      }
      forall p
        ensures p in online <==> Latest(old(history), p).Some? && IsOpen(before, Latest(old(history), p).value)
        ensures p in seen <==> Latest(old(history), p).Some? && !IsOpen(before, Latest(old(history), p).value)
      {
        SnapshotIsOnline(old(history), now, p);
      }
    }

    /** The socket stops being open, ahead of its close event. */
    method OnDrop(conn: Conn, now: int)
      requires Valid() && conn in readyState
      modifies this
      ensures Valid() && history == old(history) + [At(now, Drop(conn))]
    {
      CloseSocket(conn);
      Record(now, Drop(conn));
    }

    /** The close event ends the connection's own session and no other. */
    method OnClose(conn: Conn, now: int) returns (told: set<Conn>)
      requires Valid() && conn in readyState
      modifies this
      ensures Valid() && history == old(history) + [At(now, Close(conn))]
      ensures forall p :: p in old(peers) && old(peers)[p] != conn ==> p in peers && peers[p] == old(peers)[p]
      ensures told == if HoldsSession(old(Now()), conn) then Audience(Now(), conn) else {}
      ensures var ended := conn in old(registeredPeerId) && old(registeredPeerId)[conn] in old(peers) &&
          old(peers)[old(registeredPeerId)[conn]] == conn;
        forall ws :: ws in told <==>
          ended && ws in peers.Values && ws != conn && ws in readyState && readyState[ws] == Open
    {
      readyState := readyState - {conn};
      told := {};
      if conn in registeredPeerId && registeredPeerId[conn] in peers && peers[registeredPeerId[conn]] == conn {
        var peer := registeredPeerId[conn];
        peers := peers - {peer};
        lastSeenByPeer := lastSeenByPeer[peer := now];
        told := BroadcastPresenceUpdate(conn);
      }
      Record(now, Close(conn));
    }

    /** broadcastPresenceUpdate. */
    method BroadcastPresenceUpdate(exceptWs: Conn) returns (told: set<Conn>)
      ensures told == Audience(Now(), exceptWs)
      ensures forall ws :: ws in told <==>
                ws in peers.Values && ws != exceptWs && ws in readyState && readyState[ws] == Open
    {
      told := {};
      var todo := peers.Values;
      while todo != {}
        invariant todo <= peers.Values
        invariant told == set c | c in peers.Values - todo && c != exceptWs && IsOpen(Now(), c)
        decreases todo
      {
        var ws :| ws in todo;
        todo := todo - {ws};
        if ws in readyState && readyState[ws] == Open && ws != exceptWs {
          told := told + {ws};
        }
      }
    }
  }

  predicate HoldsSession(s: State, c: Conn) {
    c in s.names && s.names[c] in s.peers && s.peers[s.names[c]] == c
  }

  /** The open sockets of the sessions in the table, except one. */
  function Audience(s: State, except: Conn): set<Conn> {
    set c | c in s.peers.Values && c != except && IsOpen(s, c)
  }
}
