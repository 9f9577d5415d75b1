/** createDeviceRegistry: one pair of tables, updated in place. The program keeps two such pairs, one
    for message tokens and one for VoIP tokens. */
module DeviceRegistry {
  import opened JsText
  import opened RegistryState
  import opened RegistryLaws
  import opened RegistryRuns

  class Tables {
    var devices: map<Str, seq<Device>>
    var owners: map<Str, Owner>
    const maxDevicesPerUser: int

    function State(): Registry
      reads this
    {
      Registry(devices, owners)
    }

    ghost predicate Valid()
      reads this
    {
      Ordered(State()) && Fits(State(), maxDevicesPerUser)
    }

    constructor (max: int)
      ensures Valid() && State() == EMPTY && maxDevicesPerUser == max
    {
      devices, owners, maxDevicesPerUser := map[], map[], max;
    }

    /** The scan for the record seen least recently. */
    method FindOldest(ds: seq<Device>) returns (k: nat)
      requires ds != []
      ensures IsOldest(ds, k)
    {
      k := 0;
      for n := 1 to |ds|
        invariant IsOldest(ds[..n], k)
      {
        if ds[n].lastSeenAt < ds[k].lastSeenAt {
          k := n;
        }
      }
      assert ds[..|ds|] == ds;
    }

    /** The device that held the token before is switched off. */
    method DisablePreviousOwner(reg: Registration)
      modifies this`devices
      ensures State() == Disowned(old(State()), reg)
    {
      if reg.token in owners {
        var o := owners[reg.token];
        if o.user != reg.user || o.id != reg.id {
          var ds := DevicesOf(State(), o.user);
          var previous := Lookup(ds, o.id);
          if previous.Some? && previous.value.token == reg.token {
            devices := devices[o.user := Put(ds, previous.value.(enabled := false, updatedAt := reg.now))];
          }
        }
      }
    }

    method EvictOldest(reg: Registration)
      modifies this
      ensures State() == Evicted(old(State()), reg, maxDevicesPerUser)
    {
      var ds := DevicesOf(State(), reg.user);
      if Lookup(ds, reg.id).None? && |ds| >= Max(1, maxDevicesPerUser) {
        var k := FindOldest(ds);
        OldestUnique(ds, k);
        devices := devices[reg.user := RemoveAt(ds, k)];
        if ds[k].token in owners && owners[ds[k].token].id == ds[k].id {
          owners := owners - {ds[k].token};
        }
      }
    }

    /** registerDeviceGeneric. */
    method RegisterDevice(reg: Registration) returns (device: Device)
      requires Valid()
      modifies this
      ensures Valid() && State() == Register(old(State()), reg, maxDevicesPerUser)
      ensures Record(State(), reg.user, reg.id) == Some(device) && device.enabled && device.token == reg.token
      ensures Indexed(old(State())) ==> (Indexed(State()) <==> !EvictionCollides(old(State()), reg, maxDevicesPerUser))
    {
      ghost var before := State();
      DisablePreviousOwner(reg);
      EvictOldest(reg);
      var ds := DevicesOf(State(), reg.user);
      var existing := Lookup(ds, reg.id);
      device := Device(reg.user, reg.id, reg.token, reg.platform, reg.appVersion, reg.provider, true, reg.now,
                       if reg.updatedAt.Some? then reg.updatedAt.value else reg.now,
                       if existing.Some? then existing.value.createdAt
                       else if reg.createdAt.Some? then reg.createdAt.value else reg.now);
      devices := devices[reg.user := Put(ds, device)];
      owners := owners[reg.token := Owner(reg.user, reg.id)];
      LookupPut(ds, device, reg.id);
      RegisterOrdered(before, reg, maxDevicesPerUser);
      RegisterFits(before, reg, maxDevicesPerUser);
      if Indexed(before) { RegisterKeepsIndexIff(before, reg, maxDevicesPerUser); }
    }

    /** unregisterDeviceGeneric. */
    method UnregisterDevice(user: Str, id: Str, token: Str, now: int) returns (ok: bool)
      requires Valid()
      modifies this
      ensures Valid() && State() == Unregister(old(State()), user, id, token, now)
      ensures ok == Unregisters(old(State()), user, id, token) && (!ok ==> State() == old(State()))
      ensures ok ==> !Enabled(State(), user, id, token)
      ensures Indexed(old(State())) ==> Indexed(State())
    {
      ghost var before := State();
      ghost var max := maxDevicesPerUser;
      LeaveFits(before, user, id, token, now, max);
      UnregisterEnabled(before, user, id, token, now, user, id, token);
      if Indexed(before) { UnregisterKeepsIndex(before, user, id, token, now); }
      var ds := DevicesOf(State(), user);
      var found := Lookup(ds, id);
      if found.None? || found.value.token != token { return false; }
      devices := devices[user := Put(ds, found.value.(enabled := false, updatedAt := now))];
      if token in owners && owners[token].user == user && owners[token].id == id {
        owners := owners - {token};
      }
      return true;
    }

    /** getActiveTokensForUsersFromMap. */
    method GetActiveTokens(users: seq<Str>) returns (tokens: seq<Target>)
      requires Valid()
      ensures tokens == ActiveTokens(State(), users)
      ensures Exclusive(State()) && NoDuplicates(users) ==> TokensDistinct(tokens)
    {
      tokens := [];
      for i := 0 to |users|
        invariant tokens == ActiveTokens(State(), users[..i])
      {
        var ds := DevicesOf(State(), users[i]);
        ghost var before := tokens;
        for j := 0 to |ds|
          invariant tokens == before + TargetsIn(users[i], ds[..j])
        {
          assert ds[..j + 1][..j] == ds[..j];
          var d := ds[j];
          if d.enabled && d.token != [] {
            tokens := tokens + [Target(users[i], d.id, d.token, d.platform, d.provider)];
          }
        }
        assert ds[..|ds|] == ds && users[..i + 1][..i] == users[..i];
      }
      assert users[..|users|] == users;
      if Exclusive(State()) && NoDuplicates(users) { FanOutListsTokensOnce(State(), users); }
    }

    /** loadFromStorage: the tables are cleared and the stored rows registered one after another. */
    method LoadFromStorage(rows: seq<Registration>)
      modifies this
      ensures Valid() && State() == After(Entries(rows), maxDevicesPerUser)
    {
      devices, owners := map[], map[];
      for i := 0 to |rows|
        invariant Valid() && State() == After(Entries(rows[..i]), maxDevicesPerUser)
      {
        var _ := RegisterDevice(rows[i]);
        assert rows[..i + 1][..i] == rows[..i];
        AfterNext(Entries(rows[..i]), Enter(rows[i]), maxDevicesPerUser);
      }
      assert rows[..|rows|] == rows;
    }
  }

  function Entries(rows: seq<Registration>): (ops: seq<Op>)
    ensures |ops| == |rows| && forall i :: 0 <= i < |rows| ==> ops[i] == Enter(rows[i])
  {
    if rows == [] then [] else Entries(rows[..|rows| - 1]) + [Enter(rows[|rows| - 1])]
  }
}
