/** Whole runs of the device registry: when the index can be trusted, and how it can be lost. */
module RegistryRuns {
  import opened JsText
  import opened RegistryState
  import opened RegistryLaws

  datatype Op =
    | Enter(reg: Registration)
    | Leave(user: Str, id: Str, token: Str, now: int)

  const EMPTY := Registry(map[], map[])

  function Step(r: Registry, op: Op, max: int): Registry {
    match op
    case Enter(reg) => Register(r, reg, max)
    case Leave(u, id, token, now) => Unregister(r, u, id, token, now)
  }

  function After(ops: seq<Op>, max: int): Registry {
    if ops == [] then EMPTY else Step(After(ops[..|ops| - 1], max), ops[|ops| - 1], max)
  }

  /** One more operation. */
  lemma AfterNext(ops: seq<Op>, op: Op, max: int)
    ensures After(ops + [op], max) == Step(After(ops, max), op, max)
    ensures Ordered(After(ops, max))
  {
    assert (ops + [op])[..|ops|] == ops;
    ReachableFits(ops, max);
  }

  /** Bounded lists of distinct records, in every run. */
  lemma {:induction false} ReachableFits(ops: seq<Op>, max: int)
    ensures Ordered(After(ops, max)) && Fits(After(ops, max), max)
  {
    if ops != [] {
      var r, op := After(ops[..|ops| - 1], max), ops[|ops| - 1];
      ReachableFits(ops[..|ops| - 1], max);
      match op {
        case Enter(reg) =>
          RegisterOrdered(r, reg, max);
          RegisterFits(r, reg, max);
        case Leave(u, id, token, now) =>
          LeaveFits(r, u, id, token, now, max);
      }
    }
  }

  lemma LeaveFits(r: Registry, u: Str, id: Str, token: Str, now: int, max: int)
    requires Ordered(r) && Fits(r, max)
    ensures Ordered(Unregister(r, u, id, token, now)) && Fits(Unregister(r, u, id, token, now), max)
  {
    var after := Unregister(r, u, id, token, now);
    forall u' ensures DistinctIds(DevicesOf(after, u')) && |DevicesOf(after, u')| <= Max(1, max) {
      UnregisterEnabled(r, u, id, token, now, u', id, token);
      assert |DevicesOf(r, u')| <= Max(1, max);
      LookupFinds(DevicesOf(r, u), id);
    }
  }

  /** No eviction of the run takes the index entry of another user's enabled device. */
  ghost predicate NeverCollides(ops: seq<Op>, max: int) {
    ops != [] ==>
      NeverCollides(ops[..|ops| - 1], max) &&
      (ops[|ops| - 1].Enter? ==> !EvictionCollides(After(ops[..|ops| - 1], max), ops[|ops| - 1].reg, max))
  }

  /** Then the index is right after every operation, and every token is enabled on one device at most. */
  lemma {:induction false} ReachableIndexed(ops: seq<Op>, max: int)
    requires NeverCollides(ops, max)
    ensures Indexed(After(ops, max)) && Exclusive(After(ops, max))
  {
    if ops != [] {
      var r, op := After(ops[..|ops| - 1], max), ops[|ops| - 1];
      ReachableIndexed(ops[..|ops| - 1], max);
      ReachableFits(ops[..|ops| - 1], max);
      match op {
        case Enter(reg) => RegisterKeepsIndexIff(r, reg, max);
        case Leave(u, id, token, now) => UnregisterKeepsIndex(r, u, id, token, now);
      }
    }
    IndexedIsExclusive(After(ops, max));
  }

  /** The first collision of a run is the first moment at which the index is wrong. */
  lemma CollisionLosesIndex(ops: seq<Op>, max: int)
    requires ops != [] && NeverCollides(ops[..|ops| - 1], max) && !NeverCollides(ops, max)
    ensures !Indexed(After(ops, max))
  {
    ReachableIndexed(ops[..|ops| - 1], max);
    ReachableFits(ops[..|ops| - 1], max);
    RegisterKeepsIndexIff(After(ops[..|ops| - 1], max), ops[|ops| - 1].reg, max);
  }

  // ----- first sufficient condition: a device id belongs to one user -----

  /** Everyone who registers a device id is its one user. */
  ghost predicate AtHome(ops: seq<Op>, home: map<Str, Str>) {
    forall i :: 0 <= i < |ops| && ops[i].Enter? ==> ops[i].reg.id in home && home[ops[i].reg.id] == ops[i].reg.user
  }

  /** So does every index entry. */
  ghost predicate OwnersAtHome(r: Registry, home: map<Str, Str>) {
    forall t :: t in r.owners ==> r.owners[t].id in home && home[r.owners[t].id] == r.owners[t].user
  }

  ghost predicate RecordsAtHome(r: Registry, home: map<Str, Str>) {
    forall u, id :: Record(r, u, id).Some? ==> id in home && home[id] == u
  }

  lemma RegisterAtHome(r: Registry, reg: Registration, max: int, home: map<Str, Str>)
    requires Ordered(r) && OwnersAtHome(r, home) && RecordsAtHome(r, home)
    requires reg.id in home && home[reg.id] == reg.user
    ensures OwnersAtHome(Register(r, reg, max), home) && RecordsAtHome(Register(r, reg, max), home)
  {
    var after := Register(r, reg, max);
    forall t | t in after.owners
      ensures after.owners[t].id in home && home[after.owners[t].id] == after.owners[t].user
    {
      var o := after.owners[t];
      assert Owns(after, t, o.user, o.id);
      RegisterOwns(r, reg, max, t, o.user, o.id);
    }
    forall u, id | Record(after, u, id).Some? ensures id in home && home[id] == u {
      RegisterRecordOrigin(r, reg, max, u, id);
    }
  }

  lemma RegisterRecordOrigin(r: Registry, reg: Registration, max: int, u: Str, id: Str)
    requires Ordered(r) && Record(Register(r, reg, max), u, id).Some?
    ensures (u == reg.user && id == reg.id) || Record(r, u, id).Some?
  {
    var d := Disowned(r, reg);
    assert DistinctIds(DevicesOf(r, u));
    DisownedShape(r, reg, u);
    DisownedRecord(r, reg, u, id);
    EvictedRecord(d, reg, max, u, id);
    EnteredRecord(Evicted(d, reg, max), reg, u, id);
  }

  lemma UnregisterRecordOrigin(r: Registry, u: Str, id: Str, token: Str, now: int, u': Str, id': Str)
    ensures Record(Unregister(r, u, id, token, now), u', id').Some? <==> Record(r, u', id').Some?
  {
    if Unregisters(r, u, id, token) {
      LookupFinds(DevicesOf(r, u), id);
      LookupPut(DevicesOf(r, u), Record(r, u, id).value.(enabled := false, updatedAt := now), id');
    }
  }

  lemma UnregisterAtHome(r: Registry, u: Str, id: Str, token: Str, now: int, home: map<Str, Str>)
    requires OwnersAtHome(r, home) && RecordsAtHome(r, home)
    ensures var after := Unregister(r, u, id, token, now); OwnersAtHome(after, home) && RecordsAtHome(after, home)
  {
    forall u', id' | Record(Unregister(r, u, id, token, now), u', id').Some? ensures id' in home && home[id'] == u' {
      UnregisterRecordOrigin(r, u, id, token, now, u', id');
    }
  }

  lemma HomeNeverCollides(r: Registry, reg: Registration, max: int, home: map<Str, Str>)
    requires Ordered(r) && OwnersAtHome(r, home) && RecordsAtHome(r, home)
    ensures !EvictionCollides(r, reg, max)
  {
    if MustEvict(r, reg, max) {
      var ds := DevicesOf(r, reg.user);
      assert DistinctIds(ds);
      LookupAt(ds, Oldest(ds));
      assert Record(r, reg.user, Victim(r, reg.user).id).Some?;
    }
  }

  lemma {:induction false} RunAtHome(ops: seq<Op>, max: int, home: map<Str, Str>)
    requires AtHome(ops, home)
    ensures OwnersAtHome(After(ops, max), home) && RecordsAtHome(After(ops, max), home)
    ensures NeverCollides(ops, max)
  {
    if ops != [] {
      var n := |ops| - 1;
      var r, op := After(ops[..n], max), ops[n];
      RunAtHome(ops[..n], max, home);
      ReachableFits(ops[..n], max);
      match op {
        case Enter(reg) =>
          RegisterAtHome(r, reg, max, home);
          HomeNeverCollides(r, reg, max, home);
        case Leave(u, id, token, now) => UnregisterAtHome(r, u, id, token, now, home);
      }
    }
  }

  /** When a device id belongs to one user, every token is enabled on one device at most, the index
      names that device, and pushing to distinct users lists no token twice. */
  lemma OneUserPerDeviceId(ops: seq<Op>, max: int, home: map<Str, Str>, users: seq<Str>)
    requires AtHome(ops, home) && NoDuplicates(users)
    ensures Indexed(After(ops, max)) && Exclusive(After(ops, max))
    ensures TokensDistinct(ActiveTokens(After(ops, max), users))
  {
    RunAtHome(ops, max, home);
    ReachableIndexed(ops, max);
    ReachableFits(ops, max);
    FanOutListsTokensOnce(After(ops, max), users);
  }

  // ----- second sufficient condition: nobody registers more devices than fit -----

  function IdsOf(ops: seq<Op>, u: Str): set<Str> {
    set i | 0 <= i < |ops| && ops[i].Enter? && ops[i].reg.user == u :: ops[i].reg.id
  }

  ghost predicate Frugal(ops: seq<Op>, max: int) {
    forall u :: |IdsOf(ops, u)| <= Max(1, max)
  }

  function RecordIds(ds: seq<Device>): set<Str> {
    set k | 0 <= k < |ds| :: ds[k].id
  }

  lemma {:induction false} CountIds(ds: seq<Device>)
    requires DistinctIds(ds)
    ensures |RecordIds(ds)| == |ds|
  {
    if ds != [] {
      var n := |ds| - 1;
      CountIds(ds[..n]);
      assert RecordIds(ds) == RecordIds(ds[..n]) + {ds[n].id};
    }
  }

  lemma CountWithin(a: set<Str>, b: set<Str>)
    requires a <= b
    ensures |a| <= |b|
  {
    assert b == a + (b - a);
  }

  lemma {:induction false} RecordsEntered(ops: seq<Op>, max: int, u: Str, id: Str)
    requires Record(After(ops, max), u, id).Some?
    ensures id in IdsOf(ops, u)
  {
    if ops != [] {
      var n := |ops| - 1;
      var r, op := After(ops[..n], max), ops[n];
      ReachableFits(ops[..n], max);
      match op {
        case Enter(reg) => RegisterRecordOrigin(r, reg, max, u, id);
        case Leave(u', id', token, now) => UnregisterRecordOrigin(r, u', id', token, now, u, id);
      }
      if Record(r, u, id).Some? {
        RecordsEntered(ops[..n], max, u, id);
        assert ops == ops[..n] + [ops[n]];
      }
    }
  }

  lemma NoEviction(ops: seq<Op>, n: nat, max: int)
    requires Frugal(ops, max) && n < |ops| && ops[n].Enter?
    ensures !MustEvict(After(ops[..n], max), ops[n].reg, max)
  {
    var r, reg := After(ops[..n], max), ops[n].reg;
    if MustEvict(r, reg, max) {
      var ds := DevicesOf(r, reg.user);
      ReachableFits(ops[..n], max);
      assert DistinctIds(ds);
      CountIds(ds);
      LookupFinds(ds, reg.id);
      forall id | id in RecordIds(ds) ensures id in IdsOf(ops, reg.user) {
        LookupFinds(ds, id);
        RecordsEntered(ops[..n], max, reg.user, id);
      }
      assert reg.id !in RecordIds(ds) && reg.id in IdsOf(ops, reg.user);
      assert |IdsOf(ops, reg.user)| <= Max(1, max);
      CountWithin(RecordIds(ds) + {reg.id}, IdsOf(ops, reg.user));
    }
  }

  lemma {:induction false} FrugalNeverCollides(ops: seq<Op>, n: nat, max: int)
    requires Frugal(ops, max) && n <= |ops|
    ensures NeverCollides(ops[..n], max)
  {
    if n > 0 {
      FrugalNeverCollides(ops, n - 1, max);
      assert ops[..n][..n - 1] == ops[..n - 1];
      if ops[n - 1].Enter? { NoEviction(ops, n - 1, max); }
    }
  }

  lemma FewDevicesPerUser(ops: seq<Op>, max: int, users: seq<Str>)
    requires Frugal(ops, max) && NoDuplicates(users)
    ensures Indexed(After(ops, max)) && Exclusive(After(ops, max))
    ensures TokensDistinct(ActiveTokens(After(ops, max), users))
  {
    FrugalNeverCollides(ops, |ops|, max);
    assert ops[..|ops|] == ops;
    ReachableIndexed(ops, max);
    ReachableFits(ops, max);
    FanOutListsTokensOnce(After(ops, max), users);
  }

  // ----- and without either condition -----

  function Plain(u: Str, id: Str, t: Str): Registration {
    Registration(u, id, t, [], [], [], 0, None, None)
  }

  /** A user's only record, by id and token. */
  ghost predicate Only(r: Registry, u: Str, id: Str, t: Str) {
    |DevicesOf(r, u)| == 1 && DevicesOf(r, u)[0].id == id && DevicesOf(r, u)[0].token == t
  }

  /** The token moves from one user's device to another user's device of the same id. */
  lemma TokenMoves(a: Str, b: Str, d: Str, t: Str)
    requires a != b
    ensures var r := Register(Register(EMPTY, Plain(a, d, t), 1), Plain(b, d, t), 1);
      Only(r, a, d, t) && Owns(r, t, b, d)
  {
    var r := Register(EMPTY, Plain(a, d, t), 1);
    assert Only(r, a, d, t);
    var r1 := Disowned(r, Plain(b, d, t));
    assert Only(r1, a, d, t);
    assert DevicesOf(Evicted(r1, Plain(b, d, t), 1), a) == DevicesOf(r1, a);
  }

  /** The first user fills the one place there is with a new device: the index loses the token. */
  lemma EvictionTakesEntry(r: Registry, a: Str, b: Str, d: Str, e: Str, t: Str, t': Str, c: Str)
    requires Ordered(r) && Only(r, a, d, t) && Owns(r, t, b, d) && d != e && t != t'
    ensures !Owns(Register(r, Plain(a, e, t'), 1), t, c, d)
  {
    RegisterOwns(r, Plain(a, e, t'), 1, t, c, d);
    var ds := DevicesOf(r, a);
    LookupFinds(ds, e);
    assert Oldest(ds) == 0 && MustEvict(r, Plain(a, e, t'), 1);
  }

  lemma FourEnters(p: Registration, q: Registration, v: Registration, w: Registration)
    ensures After([Enter(p), Enter(q), Enter(v), Enter(w)], 1) ==
      Register(Register(Register(Register(EMPTY, p, 1), q, 1), v, 1), w, 1)
  {
    var p1, q1 := [Enter(p)], [Enter(p), Enter(q)];
    var v1 := q1 + [Enter(v)];
    assert p1 == [] + [Enter(p)] && q1 == p1 + [Enter(q)] &&
      v1 + [Enter(w)] == [Enter(p), Enter(q), Enter(v), Enter(w)];
    AfterNext([], Enter(p), 1);
    AfterNext(p1, Enter(q), 1);
    AfterNext(q1, Enter(v), 1);
    AfterNext(v1, Enter(w), 1);
  }

  lemma LostTokenIsDoubled(r: Registry, b: Str, c: Str, d: Str, t: Str)
    requires Ordered(r) && Enabled(r, b, d, t) && !Owns(r, t, b, d) && b != c
    ensures Enabled(Register(r, Plain(c, d, t), 1), b, d, t) && Enabled(Register(r, Plain(c, d, t), 1), c, d, t)
  {
    RegisterEnabled(r, Plain(c, d, t), 1, b, d, t);
    RegisterEnabled(r, Plain(c, d, t), 1, c, d, t);
  }

  /** Two users share a device id and one of them is at the limit: four registrations leave one token
      enabled on two devices of different users. */
  lemma SharedIdDoublesToken(a: Str, b: Str, c: Str, d: Str, e: Str, t: Str, t': Str)
    requires a != b && b != c && d != e && t != t'
    ensures var run := [Enter(Plain(a, d, t)), Enter(Plain(b, d, t)), Enter(Plain(a, e, t')), Enter(Plain(c, d, t))];
      var r := After(run, 1);
      Enabled(r, b, d, t) && Enabled(r, c, d, t)
  {
    FourEnters(Plain(a, d, t), Plain(b, d, t), Plain(a, e, t'), Plain(c, d, t));
    var r1 := Register(EMPTY, Plain(a, d, t), 1);
    var r2 := Register(r1, Plain(b, d, t), 1);
    RegisterOrdered(EMPTY, Plain(a, d, t), 1);
    RegisterOrdered(r1, Plain(b, d, t), 1);
    RegisterOrdered(r2, Plain(a, e, t'), 1);
    TokenMoves(a, b, d, t);
    RegisterEnabled(r1, Plain(b, d, t), 1, b, d, t);
    EvictionTakesEntry(r2, a, b, d, e, t, t', b);
    RegisterEnabled(r2, Plain(a, e, t'), 1, b, d, t);
    LostTokenIsDoubled(Register(r2, Plain(a, e, t'), 1), b, c, d, t);
  }
}
