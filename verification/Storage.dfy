/** A relay map and its snapshot file: every change rewrites the whole snapshot through a temporary
    file, a file sync, a rename and a directory sync. */
module Storage {
  import opened JsText
  import opened FileSystem

  datatype Name = Target | Temporary(serial: nat)

  /** How values are turned into JSON and back; decoding may look at the key and may reject. */
  datatype Codec<!V, !E> = Codec(encode: V -> E, decode: (E, Str) -> Option<V>)

  type Doc<E> = map<Str, E>

  function EncodeAll<V, E>(c: Codec<V, E>, m: map<Str, V>): Doc<E> {
    map k | k in m :: c.encode(m[k])
  }

  function DecodeAll<V, E>(c: Codec<V, E>, doc: Doc<E>): map<Str, V> {
    map k | k in doc && c.decode(doc[k], k).Some? :: c.decode(doc[k], k).value
  }

  predicate Storable<V(==), E>(c: Codec<V, E>, k: Str, v: V) {
    c.decode(c.encode(v), k) == Some(v)
  }

  ghost predicate AllStorable<V, E>(c: Codec<V, E>, m: map<Str, V>) {
    forall k :: k in m ==> Storable(c, k, m[k])
  }

  /** Whatever was decoded can be stored again. */
  ghost predicate Lawful<V(!new), E(!new)>(c: Codec<V, E>) {
    forall e, k, v :: c.decode(e, k) == Some(v) ==> Storable(c, k, v)
  }

  lemma DecodeInvertsEncode<V, E>(c: Codec<V, E>, m: map<Str, V>)
    requires AllStorable(c, m)
    ensures DecodeAll(c, EncodeAll(c, m)) == m
  {
    assert forall k :: k in m ==> Storable(c, k, m[k]);
  }

  /** What is read from a snapshot file; one that is not JSON is reported and taken as empty. */
  function Read<V, E>(c: Codec<V, E>, content: Content<Doc<E>>): map<Str, V> {
    if content.Whole? then DecodeAll(c, content.doc) else map[]
  }

  /** The map a new process loads; a missing snapshot loads as empty. */
  function Reload<V, E>(c: Codec<V, E>, disk: Disk<Name, Doc<E>>): map<Str, V> {
    if Target in disk then Read(c, disk[Target]) else map[]
  }

  /** With a lawful codec whatever is loaded can be stored again. */
  lemma LoadedIsStorable<V(!new), E(!new)>(c: Codec<V, E>, disk: Disk<Name, Doc<E>>)
    requires Lawful(c)
    ensures AllStorable(c, Reload(c, disk))
  {
    forall k | k in Reload(c, disk) ensures Storable(c, k, Reload(c, disk)[k]) {
      assert c.decode(disk[Target].doc[k], k) == Some(Reload(c, disk)[k]);
    }
  }

  /** A snapshot entry stands for the map: a synced file that is read as it, or none while it is empty. */
  ghost predicate Holds<V, E>(c: Codec<V, E>, e: Entry<Doc<E>>, m: map<Str, V>) {
    match e
    case Absent => m == map[]
    case File(content, synced) => synced && Read(c, content) == m
  }

  /** Nothing is in flight, and the snapshot holds the map. */
  ghost predicate Clean<V, E>(c: Codec<V, E>, fs: Fs<Name, Doc<E>>, m: map<Str, V>) {
    |Slot(fs, Target)| == 1 && Holds(c, Slot(fs, Target)[0], m)
  }

  lemma CleanReloads<V, E>(c: Codec<V, E>, fs: Fs<Name, Doc<E>>, m: map<Str, V>, disk: Disk<Name, Doc<E>>)
    requires Clean(c, fs, m) && Survives(fs, disk)
    ensures Reload(c, disk) == m
  {
    assert Possible(fs, Target, disk);
  }

  lemma BootIsClean<V, E>(c: Codec<V, E>, disk: Disk<Name, Doc<E>>)
    ensures Clean(c, Boot(disk), Reload(c, disk))
  {
  }

  // ----- saving -----

  const SAVE_STEPS := REPLACE_STEPS

  /** The file system after the first t steps of saving a snapshot; the snapshot and its temporary
      files share a directory. */
  function SaveStep<E>(fs: Fs<Name, Doc<E>>, doc: Doc<E>, serial: nat, t: nat): Fs<Name, Doc<E>> {
    Replacing(fs, Temporary(serial), Target, doc, fs.Keys + {Target, Temporary(serial)}, t)
  }

  /** One of the two maps is on disk, or the rename to the new one is not yet durable. */
  ghost predicate InFlight<V, E>(c: Codec<V, E>, fs: Fs<Name, Doc<E>>, m: map<Str, V>, m': map<Str, V>) {
    Clean(c, fs, m) || Clean(c, fs, m') ||
    (|Slot(fs, Target)| == 2 && Holds(c, Slot(fs, Target)[0], m) && Holds(c, Slot(fs, Target)[1], m'))
  }

  lemma InFlightReloads<V, E>(c: Codec<V, E>, fs: Fs<Name, Doc<E>>, m: map<Str, V>, m': map<Str, V>,
                              disk: Disk<Name, Doc<E>>)
    requires InFlight(c, fs, m, m') && AllStorable(c, m') && Survives(fs, disk)
    ensures Reload(c, disk) == m || Reload(c, disk) == m'
  {
    DecodeInvertsEncode(c, m');
    assert Possible(fs, Target, disk);
  }

  /** A crash at any step of a save reloads the map before or the map after, never a mix. */
  lemma SaveIsAtomic<V, E>(c: Codec<V, E>, fs: Fs<Name, Doc<E>>, m: map<Str, V>, m': map<Str, V>, serial: nat,
                           t: nat, disk: Disk<Name, Doc<E>>)
    requires Clean(c, fs, m) && AllStorable(c, m') && t <= SAVE_STEPS
    requires Survives(SaveStep(fs, EncodeAll(c, m'), serial, t), disk)
    ensures Reload(c, disk) == m || Reload(c, disk) == m'
    ensures t == SAVE_STEPS ==> Reload(c, disk) == m'
  {
    var after := SaveStep(fs, EncodeAll(c, m'), serial, t);
    ReplaceTarget(fs, Temporary(serial), Target, EncodeAll(c, m'), fs.Keys + {Target, Temporary(serial)}, t);
    DecodeInvertsEncode(c, m');
    assert InFlight(c, after, m, m');
    InFlightReloads(c, after, m, m', disk);
    if t == SAVE_STEPS { CleanReloads(c, after, m', disk); }
  }

  lemma SaveIsClean<V, E>(c: Codec<V, E>, fs: Fs<Name, Doc<E>>, m: map<Str, V>, m': map<Str, V>, serial: nat)
    requires Clean(c, fs, m) && AllStorable(c, m')
    ensures Clean(c, SaveStep(fs, EncodeAll(c, m'), serial, SAVE_STEPS), m')
  {
    ReplaceTarget(fs, Temporary(serial), Target, EncodeAll(c, m'), fs.Keys + {Target, Temporary(serial)}, SAVE_STEPS);
    DecodeInvertsEncode(c, m');
  }

  // ----- runs of set and delete -----

  datatype Op<V> = Put(key: Str, value: V) | Remove(key: Str)

  function Effect<V>(m: map<Str, V>, op: Op<V>): map<Str, V> {
    match op
    case Put(k, v) => m[k := v]
    case Remove(k) => m - {k}
  }

  function Effects<V>(m: map<Str, V>, ops: seq<Op<V>>): map<Str, V> {
    if ops == [] then m else Effect(Effects(m, ops[..|ops| - 1]), ops[|ops| - 1])
  }

  /** Deleting a missing key touches no file. */
  predicate Writes<V>(m: map<Str, V>, op: Op<V>) {
    op.Remove? ==> op.key in m
  }

  /** The file system after the first t steps of an operation that writes. */
  function OpStep<V, E>(c: Codec<V, E>, fs: Fs<Name, Doc<E>>, m: map<Str, V>, op: Op<V>, serial: nat, t: nat)
    : Fs<Name, Doc<E>>
  {
    SaveStep(fs, EncodeAll(c, Effect(m, op)), serial, t)
  }

  function RunFs<V, E>(c: Codec<V, E>, fs: Fs<Name, Doc<E>>, m: map<Str, V>, ops: seq<Op<V>>): Fs<Name, Doc<E>> {
    if ops == [] then fs else
      var n := |ops| - 1;
      var fs1, m1 := RunFs(c, fs, m, ops[..n]), Effects(m, ops[..n]);
      if Writes(m1, ops[n]) then OpStep(c, fs1, m1, ops[n], n, SAVE_STEPS) else fs1
  }

  ghost predicate StorableOps<V, E>(c: Codec<V, E>, ops: seq<Op<V>>) {
    forall i :: 0 <= i < |ops| && ops[i].Put? ==> Storable(c, ops[i].key, ops[i].value)
  }

  lemma {:induction false} RunIsClean<V, E>(c: Codec<V, E>, fs: Fs<Name, Doc<E>>, m: map<Str, V>, ops: seq<Op<V>>)
    requires Clean(c, fs, m) && AllStorable(c, m) && StorableOps(c, ops)
    ensures Clean(c, RunFs(c, fs, m, ops), Effects(m, ops)) && AllStorable(c, Effects(m, ops))
  {
    if ops != [] {
      var n := |ops| - 1;
      RunIsClean(c, fs, m, ops[..n]);
      var m1 := Effects(m, ops[..n]);
      if !Writes(m1, ops[n]) {
        assert m1 - {ops[n].key} == m1;
      } else {
        SaveIsClean(c, RunFs(c, fs, m, ops[..n]), m1, Effect(m1, ops[n]), n);
      }
    }
  }

  /** One life of the process: the operations it was asked for, how many of them returned, and the
      disk found after it died. */
  datatype Life<V, E> = Life(ops: seq<Op<V>>, done: nat, disk: Disk<Name, Doc<E>>)

  /** The process died between operations, or at some step of the next one. */
  ghost predicate DiesWith<V, E>(c: Codec<V, E>, fs: Fs<Name, Doc<E>>, m: map<Str, V>, life: Life<V, E>) {
    var ops, n := life.ops, life.done;
    n <= |ops| &&
    var fs1, m1 := RunFs(c, fs, m, ops[..n]), Effects(m, ops[..n]);
    Survives(fs1, life.disk) ||
    (n < |ops| && Writes(m1, ops[n]) && exists t :: DiesAt(c, fs1, m1, ops[n], n, t, life.disk))
  }

  ghost predicate DiesAt<V, E>(c: Codec<V, E>, fs: Fs<Name, Doc<E>>, m: map<Str, V>, op: Op<V>, serial: nat, t: nat,
                               disk: Disk<Name, Doc<E>>) {
    t <= SAVE_STEPS && Survives(OpStep(c, fs, m, op, serial, t), disk)
  }

  lemma DeathBetween<V, E>(c: Codec<V, E>, fs: Fs<Name, Doc<E>>, m: map<Str, V>, disk: Disk<Name, Doc<E>>)
    requires Clean(c, fs, m) && Survives(fs, disk)
    ensures Reload(c, disk) == m && Clean(c, Boot(disk), m)
  {
    assert Possible(fs, Target, disk);
    BootIsClean(c, disk);
  }

  lemma DeathInside<V, E>(c: Codec<V, E>, fs: Fs<Name, Doc<E>>, m: map<Str, V>, op: Op<V>, serial: nat, t: nat,
                          disk: Disk<Name, Doc<E>>)
    requires Clean(c, fs, m) && AllStorable(c, Effect(m, op)) && DiesAt(c, fs, m, op, serial, t, disk)
    ensures Reload(c, disk) == m || Reload(c, disk) == Effect(m, op)
    ensures Clean(c, Boot(disk), Reload(c, disk))
  {
    SaveIsAtomic(c, fs, m, Effect(m, op), serial, t, disk);
    BootIsClean(c, disk);
  }

  /** A crash anywhere in a run keeps every completed operation, and the interrupted one happened
      entirely or not at all; the next process starts from a clean state. */
  lemma LifeIsAtomic<V, E>(c: Codec<V, E>, fs: Fs<Name, Doc<E>>, m: map<Str, V>, life: Life<V, E>) returns (kept: nat)
    requires Clean(c, fs, m) && AllStorable(c, m) && StorableOps(c, life.ops) && DiesWith(c, fs, m, life)
    ensures life.done <= kept <= life.done + 1 && kept <= |life.ops|
    ensures Reload(c, life.disk) == Effects(m, life.ops[..kept])
    ensures AllStorable(c, Reload(c, life.disk)) && Clean(c, Boot(life.disk), Reload(c, life.disk))
  {
    var ops, n := life.ops, life.done;
    var fs1, m1 := RunFs(c, fs, m, ops[..n]), Effects(m, ops[..n]);
    RunIsClean(c, fs, m, ops[..n]);
    kept := n;
    if Survives(fs1, life.disk) {
      DeathBetween(c, fs1, m1, life.disk);
    } else {
      var t: nat :| DiesAt(c, fs1, m1, ops[n], n, t, life.disk);
      EffectIsStorable(c, m1, ops[n]);
      DeathInside(c, fs1, m1, ops[n], n, t, life.disk);
      assert ops[..n + 1][..n] == ops[..n];
      if Reload(c, life.disk) != m1 { kept := n + 1; }
    }
  }

  lemma EffectIsStorable<V, E>(c: Codec<V, E>, m: map<Str, V>, op: Op<V>)
    requires AllStorable(c, m) && (op.Put? ==> Storable(c, op.key, op.value))
    ensures AllStorable(c, Effect(m, op))
  {
  }

  // ----- any number of lives -----

  ghost predicate Lives<V, E>(c: Codec<V, E>, fs: Fs<Name, Doc<E>>, m: map<Str, V>, lives: seq<Life<V, E>>)
    decreases lives
  {
    lives == [] ||
    (StorableOps(c, lives[0].ops) && DiesWith(c, fs, m, lives[0]) &&
     Lives(c, Boot(lives[0].disk), Reload(c, lives[0].disk), lives[1..]))
  }

  function FinalMap<V, E>(c: Codec<V, E>, m: map<Str, V>, lives: seq<Life<V, E>>): map<Str, V> {
    if lives == [] then m else Reload(c, lives[|lives| - 1].disk)
  }

  /** The operations that took effect: of each life those that returned and perhaps the next one. */
  ghost predicate KeptOps<V, E>(lives: seq<Life<V, E>>, kept: seq<Op<V>>)
    decreases lives
  {
    if lives == [] then kept == [] else
      exists k: nat :: KeptOf(lives[0], kept, k) && KeptOps(lives[1..], kept[k..])
  }

  ghost predicate KeptOf<V, E>(life: Life<V, E>, kept: seq<Op<V>>, k: nat) {
    life.done <= k <= life.done + 1 && k <= |life.ops| && life.ops[..k] <= kept
  }

  /** Across any number of crashes and restarts the map is what the kept operations, in order, make
      of it. */
  lemma {:induction false} LivesAreAtomic<V, E>(c: Codec<V, E>, fs: Fs<Name, Doc<E>>, m: map<Str, V>,
                                                lives: seq<Life<V, E>>)
    returns (kept: seq<Op<V>>)
    requires Clean(c, fs, m) && AllStorable(c, m) && Lives(c, fs, m, lives)
    ensures KeptOps(lives, kept) && FinalMap(c, m, lives) == Effects(m, kept)
    decreases lives
  {
    if lives == [] {
      kept := [];
    } else {
      var k := LifeIsAtomic(c, fs, m, lives[0]);
      var rest := LivesAreAtomic(c, Boot(lives[0].disk), Reload(c, lives[0].disk), lives[1..]);
      kept := lives[0].ops[..k] + rest;
      assert kept[k..] == rest && KeptOf(lives[0], kept, k);
      EffectsConcat(m, lives[0].ops[..k], rest);
      if lives[1..] == [] { assert lives == [lives[0]]; }
    }
  }

  lemma {:induction false} EffectsConcat<V>(m: map<Str, V>, a: seq<Op<V>>, b: seq<Op<V>>)
    ensures Effects(m, a + b) == Effects(Effects(m, a), b)
  {
    if b == [] {
      assert a + b == a;
    } else {
      EffectsConcat(m, a, b[..|b| - 1]);
      assert (a + b)[..|a + b| - 1] == a + b[..|b| - 1];
    }
  }
}
