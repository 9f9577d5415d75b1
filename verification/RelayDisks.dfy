/** The relay's five stores on disk. Every change of a map is one replacement of its snapshot, or one
    operation of the upload store; so a crash anywhere in a request leaves, reloaded, one of the states
    that the request made durable one after the other. */
module RelayDisks {
  import opened JsText
  import opened FileSystem
  import Storage
  import opened StorageCodecs
  import UploadStorage
  import UploadLives
  import opened RelayTypes
  import opened RelayMail
  import opened RelayGroups
  import opened RelayUploads
  import opened RelayMachine
  import opened RelayCrashRuns

  type SnapshotFs<E> = Fs<Storage.Name, Storage.Doc<E>>
  type SnapshotDisk<E> = Disk<Storage.Name, Storage.Doc<E>>

  datatype RelayFs = RelayFs(
    store: SnapshotFs<seq<Item>>, acked: SnapshotFs<JsonTombstone>, groups: SnapshotFs<JsonMembership>,
    blobs: SnapshotFs<StoredBlob>, uploads: UploadStorage.UploadFs)

  /** What is found after a crash. */
  datatype Disks = Disks(
    store: SnapshotDisk<seq<Item>>, acked: SnapshotDisk<JsonTombstone>, groups: SnapshotDisk<JsonMembership>,
    blobs: SnapshotDisk<StoredBlob>, uploads: UploadStorage.Found)

  /** Queues and blobs are written as they are. */
  const QUEUE_CODEC: Storage.Codec<seq<Item>, seq<Item>> := Storage.Codec((q: seq<Item>) => q, (e, k) => Some(e))
  const BLOB_CODEC: Storage.Codec<StoredBlob, StoredBlob> := Storage.Codec((b: StoredBlob) => b, (e, k) => Some(e))

  /** What the process finds when it starts. */
  function Loaded(d: Disks): State {
    State(Mail(Storage.Reload(QUEUE_CODEC, d.store), Storage.Reload(TOMBSTONE_CODEC, d.acked)),
          Storage.Reload(MEMBERSHIP_CODEC, d.groups),
          Files(Storage.Reload(BLOB_CODEC, d.blobs), UploadStorage.Reload(d.uploads)))
  }

  ghost predicate SurvivesAll(fs: RelayFs, d: Disks) {
    Survives(fs.store, d.store) && Survives(fs.acked, d.acked) && Survives(fs.groups, d.groups) &&
    Survives(fs.blobs, d.blobs) && Survives(fs.uploads, d.uploads)
  }

  /** Nothing is in flight, and each store holds its part of the state. */
  ghost predicate Settled(fs: RelayFs, s: State) {
    Storage.Clean(QUEUE_CODEC, fs.store, s.mail.store) && Storage.Clean(TOMBSTONE_CODEC, fs.acked, s.mail.acked) &&
    Storage.Clean(MEMBERSHIP_CODEC, fs.groups, s.groups) && Storage.Clean(BLOB_CODEC, fs.blobs, s.files.blobs) &&
    UploadStorage.Good(fs.uploads, s.files.uploads)
  }

  lemma SettledLoads(fs: RelayFs, s: State, d: Disks)
    requires Settled(fs, s) && SurvivesAll(fs, d)
    ensures Loaded(d) == s
  {
    Storage.CleanReloads(QUEUE_CODEC, fs.store, s.mail.store, d.store);
    Storage.CleanReloads(TOMBSTONE_CODEC, fs.acked, s.mail.acked, d.acked);
    Storage.CleanReloads(MEMBERSHIP_CODEC, fs.groups, s.groups, d.groups);
    Storage.CleanReloads(BLOB_CODEC, fs.blobs, s.files.blobs, d.blobs);
    UploadStorage.GoodReloads(fs.uploads, s.files.uploads, d.uploads);
  }

  // ----- one change -----

  /** A change of one map; that of the upload sessions is one operation of their store. */
  datatype Change =
    | Queues(store: map<Str, seq<Item>>)
    | Tombstones(acked: map<Str, Tombstone>)
    | Memberships(groups: Groups)
    | Blobs(blobs: map<Str, StoredBlob>)
    | Sessions(op: UploadLives.UploadOp)

  function Changed(s: State, change: Change): State {
    match change
    case Queues(store) => s.(mail := s.mail.(store := store))
    case Tombstones(acked) => s.(mail := s.mail.(acked := acked))
    case Memberships(groups) => s.(groups := groups)
    case Blobs(blobs) => s.(files := s.files.(blobs := blobs))
    case Sessions(op) => s.(files := s.files.(uploads := UploadLives.Effect(s.files.uploads, op)))
  }

  /** A state the file systems pass through while the change is written. */
  ghost predicate Writing(fs: RelayFs, s: State, change: Change, serial: nat, t: nat, during: RelayFs) {
    t <= Storage.SAVE_STEPS &&
    match change
    case Queues(store) =>
      during == fs.(store := Storage.SaveStep(fs.store, Storage.EncodeAll(QUEUE_CODEC, store), serial, t))
    case Tombstones(acked) =>
      during == fs.(acked := Storage.SaveStep(fs.acked, Storage.EncodeAll(TOMBSTONE_CODEC, acked), serial, t))
    case Memberships(groups) =>
      during == fs.(groups := Storage.SaveStep(fs.groups, Storage.EncodeAll(MEMBERSHIP_CODEC, groups), serial, t))
    case Blobs(blobs) =>
      during == fs.(blobs := Storage.SaveStep(fs.blobs, Storage.EncodeAll(BLOB_CODEC, blobs), serial, t))
    case Sessions(op) =>
      during == fs.(uploads := during.uploads) && UploadLives.Passes(fs.uploads, s.files.uploads, op, during.uploads)
  }

  lemma AllAreStorable(s: State)
    ensures Storage.AllStorable(QUEUE_CODEC, s.mail.store) && Storage.AllStorable(TOMBSTONE_CODEC, s.mail.acked)
    ensures Storage.AllStorable(MEMBERSHIP_CODEC, s.groups) && Storage.AllStorable(BLOB_CODEC, s.files.blobs)
  {
    forall k | k in s.mail.acked ensures Storage.Storable(TOMBSTONE_CODEC, k, s.mail.acked[k]) {
      TombstoneRoundTrip(s.mail.acked[k], k);
    }
    forall k | k in s.groups ensures Storage.Storable(MEMBERSHIP_CODEC, k, s.groups[k]) {
      MembershipRoundTrip(s.groups[k], k);
    }
  }

  /** The store that is written reloads as before or after, the others as they are. */
  lemma WriteCrash(fs: RelayFs, s: State, change: Change, serial: nat, t: nat, during: RelayFs, d: Disks)
    requires Settled(fs, s) && Writing(fs, s, change, serial, t, during) && SurvivesAll(during, d)
    ensures Loaded(d) == s || Loaded(d) == Changed(s, change)
  {
    AllAreStorable(Changed(s, change));
    if !change.Queues? { Storage.CleanReloads(QUEUE_CODEC, fs.store, s.mail.store, d.store); }
    if !change.Tombstones? { Storage.CleanReloads(TOMBSTONE_CODEC, fs.acked, s.mail.acked, d.acked); }
    if !change.Memberships? { Storage.CleanReloads(MEMBERSHIP_CODEC, fs.groups, s.groups, d.groups); }
    if !change.Blobs? { Storage.CleanReloads(BLOB_CODEC, fs.blobs, s.files.blobs, d.blobs); }
    if !change.Sessions? { UploadStorage.GoodReloads(fs.uploads, s.files.uploads, d.uploads); }
    match change
    case Queues(m) => Storage.SaveIsAtomic(QUEUE_CODEC, fs.store, s.mail.store, m, serial, t, d.store);
    case Tombstones(m) => Storage.SaveIsAtomic(TOMBSTONE_CODEC, fs.acked, s.mail.acked, m, serial, t, d.acked);
    case Memberships(m) => Storage.SaveIsAtomic(MEMBERSHIP_CODEC, fs.groups, s.groups, m, serial, t, d.groups);
    case Blobs(m) => Storage.SaveIsAtomic(BLOB_CODEC, fs.blobs, s.files.blobs, m, serial, t, d.blobs);
    case Sessions(op) => UploadLives.PassingIsAtomic(fs.uploads, s.files.uploads, op, during.uploads, d.uploads);
  }

  /** The file systems when the change has been written. */
  function Written(fs: RelayFs, s: State, change: Change, serial: nat): RelayFs {
    match change
    case Queues(m) =>
      fs.(store := Storage.SaveStep(fs.store, Storage.EncodeAll(QUEUE_CODEC, m), serial, Storage.SAVE_STEPS))
    case Tombstones(m) =>
      fs.(acked := Storage.SaveStep(fs.acked, Storage.EncodeAll(TOMBSTONE_CODEC, m), serial, Storage.SAVE_STEPS))
    case Memberships(m) =>
      fs.(groups := Storage.SaveStep(fs.groups, Storage.EncodeAll(MEMBERSHIP_CODEC, m), serial, Storage.SAVE_STEPS))
    case Blobs(m) =>
      fs.(blobs := Storage.SaveStep(fs.blobs, Storage.EncodeAll(BLOB_CODEC, m), serial, Storage.SAVE_STEPS))
    case Sessions(op) => fs.(uploads := UploadLives.Done(fs.uploads, s.files.uploads, op))
  }

  lemma WriteSettles(fs: RelayFs, s: State, change: Change, serial: nat)
    requires Settled(fs, s)
    ensures Settled(Written(fs, s, change, serial), Changed(s, change))
  {
    AllAreStorable(Changed(s, change));
    match change
    case Queues(m) => Storage.SaveIsClean(QUEUE_CODEC, fs.store, s.mail.store, m, serial);
    case Tombstones(m) => Storage.SaveIsClean(TOMBSTONE_CODEC, fs.acked, s.mail.acked, m, serial);
    case Memberships(m) => Storage.SaveIsClean(MEMBERSHIP_CODEC, fs.groups, s.groups, m, serial);
    case Blobs(m) => Storage.SaveIsClean(BLOB_CODEC, fs.blobs, s.files.blobs, m, serial);
    case Sessions(op) => UploadLives.DoneIsGood(fs.uploads, s.files.uploads, op);
  }

  // ----- a request: several changes one after the other -----

  /** One change leads from the one state to the other. */
  ghost predicate Adjacent(s: State, s': State) {
    exists change :: s' == Changed(s, change)
  }

  /** Each state is one change after the one before. */
  ghost predicate Chain(states: seq<State>) {
    forall i :: 0 <= i < |states| - 1 ==> Adjacent(states[i], states[i + 1])
  }

  lemma ChainGrows(states: seq<State>, change: Change, next: State)
    requires states != [] && Chain(states) && next == Changed(states[|states| - 1], change)
    ensures Chain(states + [next])
  {
    var all := states + [next];
    forall i | 0 <= i < |all| - 1 ensures Adjacent(all[i], all[i + 1]) {
      if i < |states| - 1 { assert all[i] == states[i] && all[i + 1] == states[i + 1]; }
    }
  }

  /** The process dies before the first change, while it is written, or later on. */
  ghost predicate DiesWriting(fs: RelayFs, states: seq<State>, d: Disks)
    requires states != []
    decreases |states|
  {
    SurvivesAll(fs, d) ||
    (|states| > 1 && exists change, serial :: DiesInOrAfter(fs, states, change, serial, d))
  }

  ghost predicate DiesInOrAfter(fs: RelayFs, states: seq<State>, change: Change, serial: nat, d: Disks)
    requires |states| > 1
    decreases |states|, 0
  {
    states[1] == Changed(states[0], change) &&
    ((exists t, during :: DiesDuring(fs, states[0], change, serial, t, during, d)) ||
     DiesWriting(Written(fs, states[0], change, serial), states[1..], d))
  }

  ghost predicate DiesDuring(fs: RelayFs, s: State, change: Change, serial: nat, t: nat, during: RelayFs, d: Disks) {
    Writing(fs, s, change, serial, t, during) && SurvivesAll(during, d)
  }

  /** What is reloaded is one of the states made durable. */
  lemma {:induction false} DeathIsOnTrail(fs: RelayFs, states: seq<State>, d: Disks)
    requires states != [] && Settled(fs, states[0]) && DiesWriting(fs, states, d)
    ensures Loaded(d) in states
    decreases |states|
  {
    if SurvivesAll(fs, d) {
      SettledLoads(fs, states[0], d);
    } else {
      var change, serial: nat :| DiesInOrAfter(fs, states, change, serial, d);
      if t: nat, during :| DiesDuring(fs, states[0], change, serial, t, during, d) {
        WriteCrash(fs, states[0], change, serial, t, during, d);
      } else {
        WriteSettles(fs, states[0], change, serial);
        DeathIsOnTrail(Written(fs, states[0], change, serial), states[1..], d);
      }
    }
  }

  // ----- starting again -----

  /** The file systems as a new process finds them. */
  function BootAll(d: Disks): RelayFs {
    RelayFs(Boot(d.store), Boot(d.acked), Boot(d.groups), Boot(d.blobs), Boot(d.uploads))
  }

  /** A process settles on what it finds if the upload store does. */
  lemma BootSettles(d: Disks)
    requires UploadStorage.Good(Boot(d.uploads), UploadStorage.Reload(d.uploads))
    ensures Settled(BootAll(d), Loaded(d))
  {
    Storage.BootIsClean(QUEUE_CODEC, d.store);
    Storage.BootIsClean(TOMBSTONE_CODEC, d.acked);
    Storage.BootIsClean(MEMBERSHIP_CODEC, d.groups);
    Storage.BootIsClean(BLOB_CODEC, d.blobs);
  }

  lemma DeathDuringSettles(fs: RelayFs, s: State, change: Change, serial: nat, t: nat, during: RelayFs, d: Disks)
    requires Settled(fs, s) && DiesDuring(fs, s, change, serial, t, during, d)
    ensures Settled(BootAll(d), Loaded(d))
  {
    if change.Sessions? {
      UploadLives.DeathInside(fs.uploads, s.files.uploads, change.op, during.uploads, d.uploads);
    } else {
      UploadLives.DeathBetween(fs.uploads, s.files.uploads, d.uploads);
    }
    BootSettles(d);
  }

  /** Wherever the process dies, the next one starts settled on what it reloads. */
  lemma {:induction false} DeathSettles(fs: RelayFs, states: seq<State>, d: Disks)
    requires states != [] && Settled(fs, states[0]) && DiesWriting(fs, states, d)
    ensures Settled(BootAll(d), Loaded(d))
    decreases |states|
  {
    if SurvivesAll(fs, d) {
      UploadLives.DeathBetween(fs.uploads, states[0].files.uploads, d.uploads);
      BootSettles(d);
    } else {
      var change, serial: nat :| DiesInOrAfter(fs, states, change, serial, d);
      if t: nat, during :| DiesDuring(fs, states[0], change, serial, t, during, d) {
        DeathDuringSettles(fs, states[0], change, serial, t, during, d);
      } else {
        WriteSettles(fs, states[0], change, serial);
        DeathSettles(Written(fs, states[0], change, serial), states[1..], d);
      }
    }
  }

  /** So if each of them lies between, what is reloaded after a crash does. */
  lemma CrashIsBetween(c: Config, s: State, entry: RelayMachine.Entry, fs: RelayFs, writes: seq<State>, d: Disks)
    requires Settled(fs, s) && DiesWriting(fs, [s] + writes, d)
    requires forall t :: t in writes ==> Between(c, s, entry, t)
    ensures Between(c, s, entry, Loaded(d))
  {
    DeathIsOnTrail(fs, [s] + writes, d);
    if Loaded(d) == s { UntouchedIsBetween(c, s, entry); }
  }

  lemma UntouchedIsBetween(c: Config, s: State, entry: RelayMachine.Entry)
    ensures Between(c, s, entry, s)
  {
    forall to ensures BetweenQueue(c, s, entry, s.mail, to) {}
    forall key ensures BetweenTombstone(c, s, entry, s.mail, key) {}
  }
}
