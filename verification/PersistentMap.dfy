/** PersistentRelayMap: a map in memory whose set and delete write the snapshot step by step. The
    field `trail` lists the file-system states the object has passed through. */
module PersistentMap {
  import opened JsText
  import opened FileSystem
  import opened Storage

  class PersistentRelayMap<V(==, !new), E(!new)> {
    const codec: Codec<V, E>
    var entries: map<Str, V>
    var fs: Fs<Name, Doc<E>>
    var serial: nat
    ghost var trail: seq<Fs<Name, Doc<E>>>

    ghost predicate Valid()
      reads this
    {
      Clean(codec, fs, entries) && AllStorable(codec, entries)
    }

    /** A crash in this state is found, on restart, to have left one of the two maps. */
    ghost predicate Leaves(state: Fs<Name, Doc<E>>, before: map<Str, V>, after: map<Str, V>) {
      forall disk :: Survives(state, disk) ==> Reload(codec, disk) == before || Reload(codec, disk) == after
    }

    /** Starts on what a crash left: temporary snapshots are unlinked, then the snapshot is read. */
    constructor (codec: Codec<V, E>, disk: Disk<Name, Doc<E>>)
      requires Lawful(codec)
      ensures this.codec == codec && Valid() && entries == Reload(codec, disk)
      ensures forall n: Name :: n.Temporary? ==> Current(fs, n).Absent?
      ensures forall i, later :: 0 <= i < |trail| && Survives(trail[i], later) ==>
        Reload(codec, later) == Reload(codec, disk)
    {
      this.codec := codec;
      fs := Boot(disk);
      serial := 0;
      entries := map[];
      trail := [];
      new;
      DiscardTemporarySnapshots(disk);
      Load(disk);
      LoadedIsStorable(codec, disk);
      forall i, later | 0 <= i < |trail| && Survives(trail[i], later)
        ensures Reload(codec, later) == Reload(codec, disk)
      {
        CleanReloads(codec, trail[i], Reload(codec, disk), later);
      }
    }

    method DiscardTemporarySnapshots(disk: Disk<Name, Doc<E>>)
      requires fs == Boot(disk) && trail == []
      modifies this`fs, this`trail
      ensures Clean(codec, fs, Reload(codec, disk))
      ensures forall i :: 0 <= i < |trail| ==> Clean(codec, trail[i], Reload(codec, disk))
      ensures forall n: Name :: n.Temporary? ==> Current(fs, n).Absent?
    {
      BootIsClean(codec, disk);
      var names := set n | n in disk && n.Temporary?;
      while names != {}
        invariant forall n :: n in names ==> n.Temporary?
        invariant forall n: Name :: n.Temporary? && n !in names ==> Current(fs, n).Absent?
        invariant Slot(fs, Target) == Slot(Boot(disk), Target)
        invariant forall i :: 0 <= i < |trail| ==> Slot(trail[i], Target) == Slot(Boot(disk), Target)
        decreases names
      {
        var n :| n in names;
        names := names - {n};
        fs := Unlink(fs, n);
        trail := trail + [fs];
      }
    }

    method Load(disk: Disk<Name, Doc<E>>)
      requires entries == map[]
      modifies this`entries
      ensures entries == Reload(codec, disk)
    {
      if Target !in disk || disk[Target].Torn? { return; }
      var doc := disk[Target].doc;
      var todo := doc.Keys;
      while todo != {}
        invariant todo <= doc.Keys
        invariant entries == map k | k in DecodeAll(codec, doc) && k !in todo :: DecodeAll(codec, doc)[k]
        decreases todo
      {
        var k :| k in todo;
        todo := todo - {k};
        var value := codec.decode(doc[k], k);
        if value.Some? { entries := entries[k := value.value]; }
      }
    }

    method Set(key: Str, value: V)
      requires Valid() && Storable(codec, key, value)
      modifies this
      ensures Valid() && entries == old(entries)[key := value]
      ensures old(trail) <= trail && |trail| == |old(trail)| + SAVE_STEPS
      ensures forall i :: |old(trail)| <= i < |trail| ==> Leaves(trail[i], old(entries), entries)
    {
      entries := entries[key := value];
      Save(old(entries));
    }

    method Delete(key: Str) returns (deleted: bool)
      requires Valid()
      modifies this
      ensures Valid() && entries == old(entries) - {key} && (deleted <==> key in old(entries))
      ensures old(trail) <= trail && (!deleted ==> trail == old(trail))
      ensures forall i :: |old(trail)| <= i < |trail| ==> Leaves(trail[i], old(entries), entries)
    {
      deleted := key in entries;
      entries := entries - {key};
      if deleted {
        Save(old(entries));
      } else {
        assert entries == old(entries);
      }
    }

    /** #save: a temporary file takes the snapshot's place. */
    method Save(ghost before: map<Str, V>)
      requires Clean(codec, fs, before) && AllStorable(codec, entries)
      modifies this`fs, this`serial, this`trail
      ensures Valid()
      ensures old(trail) <= trail && |trail| == |old(trail)| + SAVE_STEPS
      ensures AllLeave(|old(trail)|, before)
    {
      var doc := EncodeAll(codec, entries);
      ghost var from := |trail|;
      OpenTemporary(before);
      FillTemporary(doc, before, from);
      PublishTemporary(doc, before, from);
      serial := serial + 1;
    }

    ghost predicate AllLeave(from: nat, before: map<Str, V>)
      reads this
    {
      forall i :: from <= i < |trail| ==> Leaves(trail[i], before, entries)
    }

    /** Open and a partial write. The snapshot itself is not touched. */
    method OpenTemporary(ghost before: map<Str, V>)
      requires Clean(codec, fs, before) && AllStorable(codec, entries)
      modifies this`fs, this`trail
      ensures Slot(fs, Target) == Slot(old(fs), Target) && !Current(fs, Temporary(serial)).Absent?
      ensures old(trail) <= trail && |trail| == |old(trail)| + 2 && AllLeave(|old(trail)|, before)
    {
      ghost var from := |trail|;
      var temporary := Temporary(serial);
      fs := Create(fs, temporary);
      assert Slot(fs, Target) == Slot(old(fs), Target);
      Record(before, from);
      fs := Write(fs, temporary, Torn);
      assert Slot(fs, Target) == Slot(old(fs), Target);
      Record(before, from);
    }

    /** The full write and the file sync. */
    method FillTemporary(doc: Doc<E>, ghost before: map<Str, V>, ghost from: nat)
      requires Clean(codec, fs, before) && AllStorable(codec, entries) && from <= |trail| && AllLeave(from, before)
      modifies this`fs, this`trail
      ensures Slot(fs, Target) == Slot(old(fs), Target) && Current(fs, Temporary(serial)) == File(Whole(doc), true)
      ensures old(trail) <= trail && |trail| == |old(trail)| + 2 && AllLeave(from, before)
    {
      var temporary := Temporary(serial);
      fs := Write(fs, temporary, Whole(doc));
      assert Slot(fs, Target) == Slot(old(fs), Target) && Current(fs, temporary) == File(Whole(doc), false);
      Record(before, from);
      fs := SyncFile(fs, temporary);
      assert Slot(fs, Target) == Slot(old(fs), Target) && Current(fs, temporary) == File(Whole(doc), true);
      Record(before, from);
    }

    /** Rename, directory sync. */
    method PublishTemporary(doc: Doc<E>, ghost before: map<Str, V>, ghost from: nat)
      requires Clean(codec, fs, before) && AllStorable(codec, entries) && doc == EncodeAll(codec, entries)
      requires Current(fs, Temporary(serial)) == File(Whole(doc), true) && from <= |trail| && AllLeave(from, before)
      modifies this`fs, this`trail
      ensures Clean(codec, fs, entries)
      ensures old(trail) <= trail && |trail| == |old(trail)| + 2 && AllLeave(from, before)
    {
      DecodeInvertsEncode(codec, entries);
      fs := Rename(fs, Temporary(serial), Target);
      Record(before, from);
      fs := SyncDirectory(fs, fs.Keys);
      assert Slot(fs, Target) == [File(Whole(doc), true)];
      Record(before, from);
    }

    /** Notes the state just reached; whatever crash follows, it leaves one of the two maps. */
    ghost method Record(before: map<Str, V>, from: nat)
      requires InFlight(codec, fs, before, entries) && AllStorable(codec, entries)
      requires from <= |trail| && AllLeave(from, before)
      modifies this`trail
      ensures trail == old(trail) + [fs] && AllLeave(from, before)
    {
      trail := trail + [fs];
      forall disk | Survives(fs, disk) ensures Reload(codec, disk) == before || Reload(codec, disk) == entries {
        InFlightReloads(codec, fs, before, entries, disk);
      }
    }
  }
}
