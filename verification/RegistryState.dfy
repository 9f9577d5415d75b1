/** The push device registry: the records of each user's devices, and an index from push tokens to
    the device that registered each one last. */
module RegistryState {
  import opened JsText

  /** One record. A user's records stay in the order in which their device ids were first entered. */
  datatype Device = Device(
    user: Str, id: Str, token: Str, platform: Str, appVersion: Str, provider: Str,
    enabled: bool, lastSeenAt: int, updatedAt: int, createdAt: int)

  datatype Owner = Owner(user: Str, id: Str)

  datatype Registry = Registry(devices: map<Str, seq<Device>>, owners: map<Str, Owner>)

  /** The arguments of registerDeviceGeneric; `provider` has its default filled in. */
  datatype Registration = Registration(
    user: Str, id: Str, token: Str, platform: Str, appVersion: Str, provider: Str,
    now: int, createdAt: Option<int>, updatedAt: Option<int>)

  function Max(a: int, b: int): (r: int)
    ensures r >= a && r >= b && (r == a || r == b)
  {
    if a < b then b else a
  }

  // ----- one user's records -----

  function Lookup(ds: seq<Device>, id: Str): Option<Device> {
    if ds == [] then None else if ds[0].id == id then Some(ds[0]) else Lookup(ds[1..], id)
  }

  /** Map.prototype.set. */
  function Put(ds: seq<Device>, d: Device): (r: seq<Device>)
    ensures |r| == |ds| + if Lookup(ds, d.id).Some? then 0 else 1
  {
    if ds == [] then [d] else if ds[0].id == d.id then [d] + ds[1..] else [ds[0]] + Put(ds[1..], d)
  }

  function RemoveAt(ds: seq<Device>, k: nat): (r: seq<Device>)
    requires k < |ds|
    ensures |r| == |ds| - 1
  {
    ds[..k] + ds[k + 1..]
  }

  ghost predicate DistinctIds(ds: seq<Device>) {
    forall i, j :: 0 <= i < j < |ds| ==> ds[i].id != ds[j].id
  }

  /** Least lastSeenAt, the first of those. */
  ghost predicate IsOldest(ds: seq<Device>, k: nat) {
    k < |ds| &&
    (forall j :: 0 <= j < |ds| ==> ds[k].lastSeenAt <= ds[j].lastSeenAt) &&
    (forall j :: 0 <= j < k ==> ds[k].lastSeenAt < ds[j].lastSeenAt)
  }

  function Oldest(ds: seq<Device>): (k: nat)
    requires ds != []
    ensures IsOldest(ds, k)
  {
    var n := |ds| - 1;
    if n == 0 then 0 else
      var k := Oldest(ds[..n]);
      if ds[n].lastSeenAt < ds[k].lastSeenAt then n else k
  }

  lemma OldestUnique(ds: seq<Device>, k: nat)
    requires IsOldest(ds, k)
    ensures Oldest(ds) == k
  {
  }

  lemma {:induction false} LookupFinds(ds: seq<Device>, id: Str)
    ensures Lookup(ds, id).Some? <==> exists k :: 0 <= k < |ds| && ds[k].id == id
    ensures Lookup(ds, id).Some? ==> Lookup(ds, id).value in ds && Lookup(ds, id).value.id == id
  {
    if ds != [] && ds[0].id != id {
      LookupFinds(ds[1..], id);
      if k :| 0 <= k < |ds| && ds[k].id == id { assert ds[1..][k - 1].id == id; }
    }
  }

  lemma {:induction false} LookupAt(ds: seq<Device>, k: nat)
    requires DistinctIds(ds) && k < |ds|
    ensures Lookup(ds, ds[k].id) == Some(ds[k])
  {
    if k > 0 { LookupAt(ds[1..], k - 1); }
  }

  lemma {:induction false} LookupPut(ds: seq<Device>, d: Device, id: Str)
    ensures Lookup(Put(ds, d), id) == if id == d.id then Some(d) else Lookup(ds, id)
  {
    if ds != [] && ds[0].id != d.id { LookupPut(ds[1..], d, id); }
  }

  lemma {:induction false} LookupRemoved(ds: seq<Device>, k: nat, id: Str)
    requires DistinctIds(ds) && k < |ds|
    ensures Lookup(RemoveAt(ds, k), id) == if id == ds[k].id then None else Lookup(ds, id)
  {
    if k == 0 {
      assert RemoveAt(ds, 0) == ds[1..];
      LookupFinds(ds[1..], ds[0].id);
    } else {
      LookupRemoved(ds[1..], k - 1, id);
      assert RemoveAt(ds, k) == [ds[0]] + RemoveAt(ds[1..], k - 1);
    }
  }

  lemma {:induction false} PutDistinct(ds: seq<Device>, d: Device)
    requires DistinctIds(ds)
    ensures DistinctIds(Put(ds, d))
    ensures forall e :: e in Put(ds, d) ==> e == d || e in ds
  {
    if ds != [] && ds[0].id != d.id {
      PutDistinct(ds[1..], d);
      var rest := Put(ds[1..], d);
      forall j | 0 <= j < |rest| ensures ds[0].id != rest[j].id {
        assert rest[j] in rest;
        if rest[j] != d {
          var i :| 0 <= i < |ds[1..]| && ds[1..][i] == rest[j];
          assert ds[1..][i] == ds[i + 1];
        }
      }
    }
  }

  // ----- the registry -----

  function DevicesOf(r: Registry, u: Str): seq<Device> {
    if u in r.devices then r.devices[u] else []
  }

  function Record(r: Registry, u: Str, id: Str): Option<Device> {
    Lookup(DevicesOf(r, u), id)
  }

  function With(r: Registry, u: Str, ds: seq<Device>): Registry {
    r.(devices := r.devices[u := ds])
  }

  /** The device that held the token before, if another one, is switched off. */
  function Disowned(r: Registry, reg: Registration): Registry {
    if reg.token !in r.owners || r.owners[reg.token] == Owner(reg.user, reg.id) then r else
      var o := r.owners[reg.token];
      match Record(r, o.user, o.id)
      case None => r
      case Some(d) =>
        if d.token != reg.token then r
        else With(r, o.user, Put(DevicesOf(r, o.user), d.(enabled := false, updatedAt := reg.now)))
  }

  predicate MustEvict(r: Registry, reg: Registration, max: int) {
    Record(r, reg.user, reg.id).None? && |DevicesOf(r, reg.user)| >= Max(1, max)
  }

  /** A full user loses the record seen least recently, and its token leaves the index if the index
      gives it to a device with that id. */
  function Evicted(r: Registry, reg: Registration, max: int): Registry {
    if !MustEvict(r, reg, max) then r else
      var ds := DevicesOf(r, reg.user);
      var k := Oldest(ds);
      var t := ds[k].token;
      With(r, reg.user, RemoveAt(ds, k)).(
        owners := if t in r.owners && r.owners[t].id == ds[k].id then r.owners - {t} else r.owners)
  }

  function NewRecord(existing: Option<Device>, reg: Registration): Device {
    Device(reg.user, reg.id, reg.token, reg.platform, reg.appVersion, reg.provider, true, reg.now,
           if reg.updatedAt.Some? then reg.updatedAt.value else reg.now,
           if existing.Some? then existing.value.createdAt
           else if reg.createdAt.Some? then reg.createdAt.value else reg.now)
  }

  function Entered(r: Registry, reg: Registration): Registry {
    var d := NewRecord(Record(r, reg.user, reg.id), reg);
    With(r, reg.user, Put(DevicesOf(r, reg.user), d)).(owners := r.owners[reg.token := Owner(reg.user, reg.id)])
  }

  /** registerDeviceGeneric. */
  function Register(r: Registry, reg: Registration, max: int): Registry {
    Entered(Evicted(Disowned(r, reg), reg, max), reg)
  }

  /** unregisterDeviceGeneric: the record must carry the token. */
  predicate Unregisters(r: Registry, u: Str, id: Str, token: Str) {
    Record(r, u, id).Some? && Record(r, u, id).value.token == token
  }

  function Unregister(r: Registry, u: Str, id: Str, token: Str, now: int): Registry {
    if !Unregisters(r, u, id, token) then r else
      var d := Record(r, u, id).value;
      With(r, u, Put(DevicesOf(r, u), d.(enabled := false, updatedAt := now))).(
        owners := if token in r.owners && r.owners[token] == Owner(u, id) then r.owners - {token} else r.owners)
  }

  // ----- what holds of it -----

  /** The device takes pushes under the token. */
  predicate Enabled(r: Registry, u: Str, id: Str, t: Str) {
    Record(r, u, id).Some? && Record(r, u, id).value.enabled && Record(r, u, id).value.token == t
  }

  predicate Owns(r: Registry, t: Str, u: Str, id: Str) {
    t in r.owners && r.owners[t] == Owner(u, id)
  }

  /** The index names every enabled device under its token. */
  ghost predicate Indexed(r: Registry) {
    forall u, id, t :: Enabled(r, u, id, t) ==> Owns(r, t, u, id)
  }

  ghost predicate Ordered(r: Registry) {
    forall u :: DistinctIds(DevicesOf(r, u))
  }

  /** A token is enabled on one device at most. */
  ghost predicate Exclusive(r: Registry) {
    forall u, id, u', id', t :: Enabled(r, u, id, t) && Enabled(r, u', id', t) ==> u == u' && id == id'
  }

  lemma IndexedIsExclusive(r: Registry)
    requires Indexed(r)
    ensures Exclusive(r)
  {
    forall u, id, u', id', t | Enabled(r, u, id, t) && Enabled(r, u', id', t) ensures u == u' && id == id' {
      assert Owns(r, t, u, id) && Owns(r, t, u', id');
    }
  }

  // ----- each step seen through Record -----

  /** Switching the previous holder off touches no other record and no index entry. */
  lemma DisownedRecord(r: Registry, reg: Registration, u: Str, id: Str)
    ensures var d := Disowned(r, reg);
      d.owners == r.owners &&
      Record(d, u, id) ==
        if Owns(r, reg.token, u, id) && (u != reg.user || id != reg.id) &&
           Record(r, u, id).Some? && Record(r, u, id).value.token == reg.token
        then Some(Record(r, u, id).value.(enabled := false, updatedAt := reg.now))
        else Record(r, u, id)
  {
    if reg.token in r.owners && r.owners[reg.token] != Owner(reg.user, reg.id) {
      var o := r.owners[reg.token];
      LookupFinds(DevicesOf(r, o.user), o.id);
      if Record(r, o.user, o.id).Some? {
        LookupPut(DevicesOf(r, o.user), Record(r, o.user, o.id).value.(enabled := false, updatedAt := reg.now), id);
      }
    }
  }

  /** It keeps the order, the ids and the ages, so the same record is evicted afterwards. */
  lemma DisownedShape(r: Registry, reg: Registration, u: Str)
    requires DistinctIds(DevicesOf(r, u))
    ensures var ds, ds' := DevicesOf(r, u), DevicesOf(Disowned(r, reg), u);
      DistinctIds(ds') && |ds'| == |ds| &&
      forall k :: 0 <= k < |ds| ==>
        ds'[k].id == ds[k].id && ds'[k].token == ds[k].token && ds'[k].lastSeenAt == ds[k].lastSeenAt
  {
    if reg.token in r.owners && r.owners[reg.token] != Owner(reg.user, reg.id) {
      var o := r.owners[reg.token];
      if o.user == u && Record(r, u, o.id).Some? {
        LookupFinds(DevicesOf(r, u), o.id);
        PutSameShape(DevicesOf(r, u), Record(r, u, o.id).value,
          Record(r, u, o.id).value.(enabled := false, updatedAt := reg.now));
        PutDistinct(DevicesOf(r, u), Record(r, u, o.id).value.(enabled := false, updatedAt := reg.now));
      }
    }
  }

  lemma {:induction false} PutSameShape(ds: seq<Device>, d: Device, d': Device)
    requires DistinctIds(ds) && Lookup(ds, d.id) == Some(d)
    requires d'.id == d.id && d'.token == d.token && d'.lastSeenAt == d.lastSeenAt
    ensures |Put(ds, d')| == |ds|
    ensures forall k :: 0 <= k < |ds| ==>
              Put(ds, d')[k].id == ds[k].id && Put(ds, d')[k].token == ds[k].token &&
                Put(ds, d')[k].lastSeenAt == ds[k].lastSeenAt
  {
    if ds[0].id != d.id { PutSameShape(ds[1..], d, d'); }
  }

  lemma EvictedRecord(r: Registry, reg: Registration, max: int, u: Str, id: Str)
    requires DistinctIds(DevicesOf(r, u))
    ensures Record(Evicted(r, reg, max), u, id) ==
      if u == reg.user && MustEvict(r, reg, max) && id == DevicesOf(r, u)[Oldest(DevicesOf(r, u))].id then None
      else Record(r, u, id)
    ensures DistinctIds(DevicesOf(Evicted(r, reg, max), u))
  {
    if u == reg.user && MustEvict(r, reg, max) {
      LookupRemoved(DevicesOf(r, u), Oldest(DevicesOf(r, u)), id);
    }
  }

  lemma EnteredRecord(r: Registry, reg: Registration, u: Str, id: Str)
    requires DistinctIds(DevicesOf(r, u))
    ensures Record(Entered(r, reg), u, id) ==
      if u == reg.user && id == reg.id then Some(NewRecord(Record(r, u, id), reg)) else Record(r, u, id)
    ensures DistinctIds(DevicesOf(Entered(r, reg), u))
  {
    if u == reg.user {
      LookupPut(DevicesOf(r, u), NewRecord(Record(r, reg.user, reg.id), reg), id);
      PutDistinct(DevicesOf(r, u), NewRecord(Record(r, reg.user, reg.id), reg));
    }
  }
}
