/** The nested records and the token index agree, exactly as long as no eviction takes the index entry
    of another user's device. */
module RegistryLaws {
  import opened JsText
  import opened RegistryState

  /** The record a full user is about to lose. */
  function Victim(r: Registry, u: Str): Device
    requires DevicesOf(r, u) != []
  {
    DevicesOf(r, u)[Oldest(DevicesOf(r, u))]
  }

  /** The registration is about to evict a record whose token is enabled on another user's device of
      the same id. */
  predicate EvictionCollides(r: Registry, reg: Registration, max: int) {
    MustEvict(r, reg, max) &&
    var o := Victim(r, reg.user);
    o.token != reg.token && o.token in r.owners && r.owners[o.token].id == o.id &&
    r.owners[o.token].user != reg.user && Enabled(r, r.owners[o.token].user, o.id, o.token)
  }

  /** Eviction sees the same record whether or not the previous holder was switched off first. */
  lemma SameVictim(r: Registry, reg: Registration, max: int)
    requires Ordered(r)
    ensures MustEvict(Disowned(r, reg), reg, max) == MustEvict(r, reg, max)
    ensures MustEvict(r, reg, max) ==>
      Victim(Disowned(r, reg), reg.user).id == Victim(r, reg.user).id &&
      Victim(Disowned(r, reg), reg.user).token == Victim(r, reg.user).token
  {
    var d := Disowned(r, reg);
    assert DistinctIds(DevicesOf(r, reg.user));
    DisownedShape(r, reg, reg.user);
    DisownedRecord(r, reg, reg.user, reg.id);
    if MustEvict(r, reg, max) {
      OldestUnique(DevicesOf(d, reg.user), Oldest(DevicesOf(r, reg.user)));
    }
  }

  /** The index entry an eviction removes. */
  predicate DropsEntry(r: Registry, reg: Registration, max: int, t: Str) {
    MustEvict(r, reg, max) && t == Victim(r, reg.user).token && t in r.owners &&
      r.owners[t].id == Victim(r, reg.user).id
  }

  predicate Switched(r: Registry, reg: Registration, u: Str, id: Str, t: Str) {
    t == reg.token && Owns(r, t, u, id)
  }

  /** What a registration does to each device: the registered one is enabled under its token, the
      previous holder of that token and the evicted record are not enabled, and no other changes. */
  lemma RegisterEnabled(r: Registry, reg: Registration, max: int, u: Str, id: Str, t: Str)
    requires Ordered(r)
    ensures Enabled(Register(r, reg, max), u, id, t) <==>
      if u == reg.user && id == reg.id then t == reg.token
      else Enabled(r, u, id, t) && !Switched(r, reg, u, id, t) &&
           !(u == reg.user && MustEvict(r, reg, max) && id == Victim(r, u).id)
    ensures DistinctIds(DevicesOf(Register(r, reg, max), u))
  {
    var d := Disowned(r, reg);
    var e := Evicted(d, reg, max);
    assert DistinctIds(DevicesOf(r, u));
    DisownedShape(r, reg, u);
    DisownedRecord(r, reg, u, id);
    SameVictim(r, reg, max);
    EvictedRecord(d, reg, max, u, id);
    EnteredRecord(e, reg, u, id);
  }

  /** What a registration does to each record: its own is entered afresh but keeps the time the device
      was first entered; another one stays, is switched off, or is evicted. */
  lemma RegisterRecord(r: Registry, reg: Registration, max: int, u: Str, id: Str)
    requires Ordered(r)
    ensures var before, after := Record(r, u, id), Record(Register(r, reg, max), u, id);
      if u == reg.user && id == reg.id then
        var updated := if reg.updatedAt.Some? then reg.updatedAt.value else reg.now;
        var created := if before.Some? then before.value.createdAt
          else if reg.createdAt.Some? then reg.createdAt.value else reg.now;
        after == Some(Device(reg.user, reg.id, reg.token, reg.platform, reg.appVersion, reg.provider, true, reg.now,
                             updated, created))
      else if after.None? then
        before.None? || (u == reg.user && MustEvict(r, reg, max) && id == Victim(r, u).id)
      else
        before.Some? &&
        after.value == if Switched(r, reg, u, id, before.value.token)
          then before.value.(enabled := false, updatedAt := reg.now) else before.value
  {
    var d := Disowned(r, reg);
    var e := Evicted(d, reg, max);
    assert DistinctIds(DevicesOf(r, u));
    DisownedShape(r, reg, u);
    DisownedRecord(r, reg, u, id);
    SameVictim(r, reg, max);
    EvictedRecord(d, reg, max, u, id);
    EnteredRecord(e, reg, u, id);
  }

  /** What it does to the index. */
  lemma RegisterOwns(r: Registry, reg: Registration, max: int, t: Str, u: Str, id: Str)
    requires Ordered(r)
    ensures Owns(Register(r, reg, max), t, u, id) <==>
      if t == reg.token then u == reg.user && id == reg.id
      else Owns(r, t, u, id) && !DropsEntry(r, reg, max, t)
  {
    SameVictim(r, reg, max);
    DisownedRecord(r, reg, u, id);
  }

  lemma RegisterOrdered(r: Registry, reg: Registration, max: int)
    requires Ordered(r)
    ensures Ordered(Register(r, reg, max))
  {
    forall u ensures DistinctIds(DevicesOf(Register(r, reg, max), u)) {
      RegisterEnabled(r, reg, max, u, [], []);
    }
  }

  /** A registration keeps index and records in agreement exactly when its eviction does not collide. */
  lemma RegisterKeepsIndexIff(r: Registry, reg: Registration, max: int)
    requires Ordered(r) && Indexed(r)
    ensures Indexed(Register(r, reg, max)) <==> !EvictionCollides(r, reg, max)
  {
    var after := Register(r, reg, max);
    if EvictionCollides(r, reg, max) {
      var t := Victim(r, reg.user).token;
      var u, id := r.owners[t].user, r.owners[t].id;
      RegisterEnabled(r, reg, max, u, id, t);
      RegisterOwns(r, reg, max, t, u, id);
    } else {
      forall u, id, t | Enabled(after, u, id, t) ensures Owns(after, t, u, id) {
        RegisterStaysIndexed(r, reg, max, u, id, t);
      }
    }
  }

  lemma RegisterStaysIndexed(r: Registry, reg: Registration, max: int, u: Str, id: Str, t: Str)
    requires Ordered(r) && Indexed(r) && !EvictionCollides(r, reg, max) && Enabled(Register(r, reg, max), u, id, t)
    ensures Owns(Register(r, reg, max), t, u, id)
  {
    RegisterEnabled(r, reg, max, u, id, t);
    RegisterOwns(r, reg, max, t, u, id);
  }

  /** The device just registered takes pushes under its token, even when the token moved here or the
      evicted record held it, and is the only one that does. */
  lemma RegisteredTakesOver(r: Registry, reg: Registration, max: int, u: Str, id: Str)
    requires Ordered(r) && Indexed(r)
    ensures Enabled(Register(r, reg, max), reg.user, reg.id, reg.token)
    ensures Enabled(Register(r, reg, max), u, id, reg.token) ==> u == reg.user && id == reg.id
  {
    RegisterEnabled(r, reg, max, reg.user, reg.id, reg.token);
    RegisterEnabled(r, reg, max, u, id, reg.token);
  }

  /** Unregistering switches off exactly the device named, if it carries the token, and keeps the
      agreement; the guard compares user and device. */
  lemma UnregisterEnabled(r: Registry, u: Str, id: Str, token: Str, now: int, u': Str, id': Str, t: Str)
    requires Ordered(r)
    ensures Enabled(Unregister(r, u, id, token, now), u', id', t) <==>
      Enabled(r, u', id', t) && !(u' == u && id' == id && t == token)
    ensures DistinctIds(DevicesOf(Unregister(r, u, id, token, now), u'))
  {
    assert DistinctIds(DevicesOf(r, u'));
    if Unregisters(r, u, id, token) {
      var d := Record(r, u, id).value;
      LookupFinds(DevicesOf(r, u), id);
      LookupPut(DevicesOf(r, u), d.(enabled := false, updatedAt := now), id');
      if u' == u { PutDistinct(DevicesOf(r, u), d.(enabled := false, updatedAt := now)); }
    }
  }

  lemma UnregisterKeepsIndex(r: Registry, u: Str, id: Str, token: Str, now: int)
    requires Ordered(r) && Indexed(r)
    ensures Ordered(Unregister(r, u, id, token, now)) && Indexed(Unregister(r, u, id, token, now))
  {
    var after := Unregister(r, u, id, token, now);
    forall u', id', t | Enabled(after, u', id', t) ensures Owns(after, t, u', id') {
      UnregisterEnabled(r, u, id, token, now, u', id', t);
      assert Owns(r, t, u', id');
    }
    forall u' ensures DistinctIds(DevicesOf(after, u')) {
      UnregisterEnabled(r, u, id, token, now, u', id, token);
    }
  }

  // ----- how many records -----

  ghost predicate Fits(r: Registry, max: int) {
    forall u :: |DevicesOf(r, u)| <= Max(1, max)
  }

  lemma RegisterFits(r: Registry, reg: Registration, max: int)
    requires Ordered(r) && Fits(r, max)
    ensures Fits(Register(r, reg, max), max)
  {
    var d := Disowned(r, reg);
    SameVictim(r, reg, max);
    forall u ensures |DevicesOf(Register(r, reg, max), u)| <= Max(1, max) {
      assert DistinctIds(DevicesOf(r, u)) && |DevicesOf(r, u)| <= Max(1, max);
      DisownedShape(r, reg, u);
      EvictedRecord(d, reg, max, u, reg.id);
    }
  }

  /** An eviction happens only in a full list to make room for a new id, and takes the record seen
      least recently, the first entered of several. */
  lemma EvictsOldest(r: Registry, reg: Registration, max: int, e: Device)
    requires Ordered(r) && e in DevicesOf(r, reg.user) && e.id != reg.id
    requires Record(Register(r, reg, max), reg.user, e.id).None?
    ensures Record(r, reg.user, reg.id).None? && |DevicesOf(r, reg.user)| >= Max(1, max)
    ensures exists k: nat :: IsOldest(DevicesOf(r, reg.user), k) && DevicesOf(r, reg.user)[k] == e
  {
    var ds, d := DevicesOf(r, reg.user), Disowned(r, reg);
    assert DistinctIds(ds);
    var k :| 0 <= k < |ds| && ds[k] == e;
    LookupAt(ds, k);
    DisownedShape(r, reg, reg.user);
    DisownedRecord(r, reg, reg.user, e.id);
    SameVictim(r, reg, max);
    EvictedRecord(d, reg, max, reg.user, e.id);
    EnteredRecord(Evicted(d, reg, max), reg, reg.user, e.id);
    assert ds[Oldest(ds)].id == ds[k].id;
  }

  // ----- fan-out -----

  datatype Target = Target(user: Str, id: Str, token: Str, platform: Str, provider: Str)

  predicate Takes(d: Device) {
    d.enabled && d.token != []
  }

  function TargetOf(u: Str, d: Device): Target {
    Target(u, d.id, d.token, d.platform, d.provider)
  }

  function TargetsIn(u: Str, ds: seq<Device>): seq<Target> {
    if ds == [] then [] else
      var d := ds[|ds| - 1];
      TargetsIn(u, ds[..|ds| - 1]) + if Takes(d) then [TargetOf(u, d)] else []
  }

  /** getActiveTokensForUsersFromMap. */
  function ActiveTokens(r: Registry, users: seq<Str>): seq<Target> {
    if users == [] then [] else
      var u := users[|users| - 1];
      ActiveTokens(r, users[..|users| - 1]) + TargetsIn(u, DevicesOf(r, u))
  }

  ghost predicate NoDuplicates(users: seq<Str>) {
    forall i, j :: 0 <= i < j < |users| ==> users[i] != users[j]
  }

  /** No push token appears twice. */
  ghost predicate TokensDistinct(ts: seq<Target>) {
    forall i, j :: 0 <= i < j < |ts| ==> ts[i].token != ts[j].token
  }

  lemma {:induction false} TargetsInExact(r: Registry, u: Str, n: nat, t: Target)
    requires Ordered(r) && n <= |DevicesOf(r, u)|
    ensures t in TargetsIn(u, DevicesOf(r, u)[..n]) <==>
      exists k :: 0 <= k < n && Takes(DevicesOf(r, u)[k]) && t == TargetOf(u, DevicesOf(r, u)[k])
  {
    var ds := DevicesOf(r, u);
    if n > 0 {
      assert ds[..n][..n - 1] == ds[..n - 1];
      TargetsInExact(r, u, n - 1, t);
    }
  }

  /** A listed target is enabled under a non-empty token. */
  lemma TargetIsEnabled(r: Registry, u: Str, n: nat, t: Target)
    requires Ordered(r) && n <= |DevicesOf(r, u)| && t in TargetsIn(u, DevicesOf(r, u)[..n])
    ensures t.user == u && t.token != [] && Enabled(r, u, t.id, t.token)
    ensures exists k :: 0 <= k < n && DevicesOf(r, u)[k].id == t.id
  {
    var ds := DevicesOf(r, u);
    TargetsInExact(r, u, n, t);
    var k :| 0 <= k < n && Takes(ds[k]) && t == TargetOf(u, ds[k]);
    assert DistinctIds(ds);
    LookupAt(ds, k);
  }

  /** Every enabled device with a non-empty token is listed. */
  lemma EnabledIsTarget(r: Registry, u: Str, id: Str, t: Str)
    requires Ordered(r) && Enabled(r, u, id, t) && t != []
    ensures exists x :: x in TargetsIn(u, DevicesOf(r, u)) && x.id == id && x.token == t
  {
    var ds := DevicesOf(r, u);
    LookupFinds(ds, id);
    var d := Record(r, u, id).value;
    var k :| 0 <= k < |ds| && ds[k] == d;
    assert ds[..|ds|] == ds;
    TargetsInExact(r, u, |ds|, TargetOf(u, d));
    assert TargetOf(u, d) in TargetsIn(u, ds);
  }

  /** The fan-out list is exactly the enabled devices of the listed users that have a token. */
  lemma {:induction false} ActiveTokensExact(r: Registry, users: seq<Str>, u: Str, id: Str, t: Str)
    requires Ordered(r)
    ensures (exists x :: x in ActiveTokens(r, users) && x.user == u && x.id == id && x.token == t) <==>
      u in users && t != [] && Enabled(r, u, id, t)
  {
    if users != [] {
      var n := |users| - 1;
      var v := users[n];
      ActiveTokensExact(r, users[..n], u, id, t);
      assert users == users[..n] + [v];
      assert DevicesOf(r, v)[..|DevicesOf(r, v)|] == DevicesOf(r, v);
      forall x | x in TargetsIn(v, DevicesOf(r, v))
        ensures x.user == v && x.token != [] && Enabled(r, v, x.id, x.token)
      {
        TargetIsEnabled(r, v, |DevicesOf(r, v)|, x);
      }
      if u == v && t != [] && Enabled(r, u, id, t) {
        EnabledIsTarget(r, u, id, t);
        var x :| x in TargetsIn(u, DevicesOf(r, u)) && x.id == id && x.token == t;
        TargetIsEnabled(r, u, |DevicesOf(r, u)|, x);
        assert x in ActiveTokens(r, users);
      }
    }
  }

  lemma {:induction false} TargetsInDistinct(r: Registry, u: Str, n: nat)
    requires Ordered(r) && Exclusive(r) && n <= |DevicesOf(r, u)|
    ensures TokensDistinct(TargetsIn(u, DevicesOf(r, u)[..n]))
  {
    var ds := DevicesOf(r, u);
    if n > 0 {
      assert ds[..n][..n - 1] == ds[..n - 1] && DistinctIds(ds);
      TargetsInDistinct(r, u, n - 1);
      var front, d := TargetsIn(u, ds[..n - 1]), ds[n - 1];
      if Takes(d) {
        LookupAt(ds, n - 1);
        forall i | 0 <= i < |front| ensures front[i].token != d.token {
          assert front[i] in front;
          TargetIsEnabled(r, u, n - 1, front[i]);
          assert Enabled(r, u, d.id, d.token);
        }
      }
    }
  }

  /** Pushing to distinct users never sends to one token twice. */
  lemma {:induction false} FanOutListsTokensOnce(r: Registry, users: seq<Str>)
    requires Ordered(r) && Exclusive(r) && NoDuplicates(users)
    ensures TokensDistinct(ActiveTokens(r, users))
  {
    if users != [] {
      var n := |users| - 1;
      var u := users[n];
      FanOutListsTokensOnce(r, users[..n]);
      assert DevicesOf(r, u)[..|DevicesOf(r, u)|] == DevicesOf(r, u);
      TargetsInDistinct(r, u, |DevicesOf(r, u)|);
      var front, back := ActiveTokens(r, users[..n]), TargetsIn(u, DevicesOf(r, u));
      forall i, j | 0 <= i < |front| && 0 <= j < |back| ensures front[i].token != back[j].token {
        assert front[i] in front && back[j] in back;
        TargetIsEnabled(r, u, |DevicesOf(r, u)|, back[j]);
        ActiveTokensExact(r, users[..n], front[i].user, front[i].id, front[i].token);
        assert front[i].user != u;
      }
    }
  }

  predicate IsPushOf(x: Target, d: Device) {
    d.enabled && d.token != [] && x.id == d.id && x.token == d.token && x.platform == d.platform &&
    x.provider == d.provider
  }

  /** A push goes out with the fields of the device's record. */
  lemma {:induction false} TargetFields(r: Registry, users: seq<Str>, x: Target)
    requires Ordered(r) && x in ActiveTokens(r, users)
    ensures x.user in users && exists d :: d in DevicesOf(r, x.user) && IsPushOf(x, d)
  {
    var n := |users| - 1;
    assert users == users[..n] + [users[n]];
    if x in ActiveTokens(r, users[..n]) {
      TargetFields(r, users[..n], x);
    } else {
      TargetOfDevice(users[n], DevicesOf(r, users[n]), x);
    }
  }

  lemma {:induction false} TargetOfDevice(u: Str, ds: seq<Device>, x: Target)
    requires x in TargetsIn(u, ds)
    ensures x.user == u && exists d :: d in ds && IsPushOf(x, d)
  {
    var n := |ds| - 1;
    assert ds == ds[..n] + [ds[n]];
    if x in TargetsIn(u, ds[..n]) { TargetOfDevice(u, ds[..n], x); } else { assert ds[n] in ds; }
  }

  // ----- unregistering, record by record -----

  /** The named device, if it carries the token, is switched off at this time and keeps its other fields; every
      other record stays. */
  lemma UnregisterRecord(r: Registry, u: Str, id: Str, token: Str, now: int, u': Str, id': Str)
    ensures var before := Record(r, u', id');
      Record(Unregister(r, u, id, token, now), u', id') ==
        if u' == u && id' == id && before.Some? && before.value.token == token
        then Some(before.value.(enabled := false, updatedAt := now))
        else before
  {
    if Unregisters(r, u, id, token) {
      LookupFinds(DevicesOf(r, u), id);
      LookupPut(DevicesOf(r, u), Record(r, u, id).value.(enabled := false, updatedAt := now), id');
    }
  }

  /** The token leaves the index if the index gave it to that device; no other token does. */
  lemma UnregisterOwns(r: Registry, u: Str, id: Str, token: Str, now: int, t: Str, u': Str, id': Str)
    ensures Owns(Unregister(r, u, id, token, now), t, u', id') <==>
      Owns(r, t, u', id') &&
      !(t == token && u' == u && id' == id && Record(r, u, id).Some? && Record(r, u, id).value.token == token)
  {
    UnregisterRecord(r, u, id, token, now, u', id');
  }
}
