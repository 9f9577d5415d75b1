/** The relay on its disks, over any number of lives: requests whose changes are written one after the
    other, deaths anywhere among the file-system steps, and starts on what is found. */
module RelayLives {
  import opened JsText
  import FileSystem
  import UploadStorage
  import opened RelayTypes
  import opened RelayMail
  import opened RelayUploads
  import opened RelayMachine
  import opened RelayCrashRuns
  import opened RelayDisks

  /** A request, the states it made durable one after the other, and the file systems when it was done;
      or one in which the process died, and what was found then. A process that dies idle dies in some
      request before its first write. */
  datatype DiskTurn =
    | Finishes(entry: RelayMachine.Entry, writes: seq<State>, after: RelayFs)
    | Dies(entry: RelayMachine.Entry, writes: seq<State>, found: Disks)

  /** All changes have been written. */
  ghost predicate WritesThrough(fs: RelayFs, states: seq<State>, after: RelayFs)
    requires states != []
    decreases |states|
  {
    if |states| == 1 then after == fs else exists change, serial :: WritesFirst(fs, states, change, serial, after)
  }

  ghost predicate WritesFirst(fs: RelayFs, states: seq<State>, change: Change, serial: nat, after: RelayFs)
    requires |states| > 1
    decreases |states|, 0
  {
    states[1] == Changed(states[0], change) &&
    WritesThrough(Written(fs, states[0], change, serial), states[1..], after)
  }

  /** What one turn may do to the disks. */
  ghost predicate Happens(c: Config, fs: RelayFs, s: State, turn: DiskTurn) {
    match turn
    case Finishes(entry, writes, after) =>
      ([s] + writes)[|writes|] == Step(c, s, entry) && WritesThrough(fs, [s] + writes, after)
    case Dies(entry, writes, found) =>
      (forall t :: t in writes ==> Between(c, s, entry, t)) && DiesWriting(fs, [s] + writes, found)
  }

  function TurnOf(turn: DiskTurn): Turn {
    match turn
    case Finishes(entry, _, _) => Ran(entry)
    case Dies(entry, _, found) => Died(entry, Loaded(found))
  }

  /** What the requests see of it. */
  function TurnsOf(turns: seq<DiskTurn>): (r: seq<Turn>)
    ensures |r| == |turns|
    ensures forall i :: 0 <= i < |turns| ==> r[i] == TurnOf(turns[i])
  {
    if turns == [] then [] else TurnsOf(turns[..|turns| - 1]) + [TurnOf(turns[|turns| - 1])]
  }

  /** Nothing has ever been stored. */
  const FRESH := RelayFs(map[], map[], map[], map[], map[])

  function FsAfter(turns: seq<DiskTurn>): RelayFs {
    if turns == [] then FRESH else
      match turns[|turns| - 1]
      case Finishes(_, _, after) => after
      case Dies(_, _, found) => BootAll(found)
  }

  ghost predicate HappensAt(c: Config, turns: seq<DiskTurn>, i: nat)
    requires i < |turns|
  {
    Happens(c, FsAfter(turns[..i]), AfterTurns(c, TurnsOf(turns[..i])), turns[i])
  }

  /** Any number of lives, the first on empty disks. */
  ghost predicate OnDisk(c: Config, turns: seq<DiskTurn>) {
    forall i :: 0 <= i < |turns| ==> HappensAt(c, turns, i)
  }

  /** The process of a fresh installation is settled. */
  lemma FreshIsSettled()
    ensures Settled(FRESH, EMPTY) && Loaded(Disks(map[], map[], map[], map[], map[])) == EMPTY
  {
    assert FileSystem.Slot(FRESH.uploads, UploadStorage.Index) == [FileSystem.Absent];
  }

  lemma {:induction false} WritesSettle(fs: RelayFs, states: seq<State>, after: RelayFs)
    requires states != [] && Settled(fs, states[0]) && WritesThrough(fs, states, after)
    ensures Settled(after, states[|states| - 1])
    decreases |states|
  {
    if |states| > 1 {
      var change, serial: nat :| WritesFirst(fs, states, change, serial, after);
      WriteSettles(fs, states[0], change, serial);
      WritesSettle(Written(fs, states[0], change, serial), states[1..], after);
    }
  }

  /** One turn leads from a settled state to a settled state, and is one the crash runs allow. */
  lemma TurnSettles(c: Config, fs: RelayFs, s: State, turn: DiskTurn, after: RelayFs)
    requires Settled(fs, s) && Happens(c, fs, s, turn)
    requires after == if turn.Finishes? then turn.after else BootAll(turn.found)
    ensures Settled(after, TurnState(c, s, TurnOf(turn)))
    ensures turn.Dies? ==> Between(c, s, turn.entry, Loaded(turn.found))
  {
    if turn.Finishes? {
      WritesSettle(fs, [s] + turn.writes, after);
    } else {
      DeathSettles(fs, [s] + turn.writes, turn.found);
      CrashIsBetween(c, s, turn.entry, fs, turn.writes, turn.found);
    }
  }

  /** Any number of lives on disk is a run that the crash laws speak of, and each process starts settled
      on the state that run has reached. */
  lemma {:induction false} LivesArePossible(c: Config, turns: seq<DiskTurn>)
    requires OnDisk(c, turns)
    ensures Possible(c, TurnsOf(turns)) && Settled(FsAfter(turns), AfterTurns(c, TurnsOf(turns)))
  {
    if turns == [] {
      FreshIsSettled();
    } else {
      var n := |turns| - 1;
      var front, run := turns[..n], TurnsOf(turns);
      forall i | 0 <= i < n ensures HappensAt(c, front, i) {
        assert front[..i] == turns[..i] && HappensAt(c, turns, i);
      }
      LivesArePossible(c, front);
      assert HappensAt(c, turns, n) && run[..n] == TurnsOf(front);
      TurnSettles(c, FsAfter(front), AfterTurns(c, TurnsOf(front)), turns[n], FsAfter(turns));
      PossibleNext(c, run);
    }
  }

  lemma PossibleNext(c: Config, turns: seq<Turn>)
    requires turns != [] && Possible(c, turns[..|turns| - 1]) && CanHappen(c, turns, |turns| - 1)
    ensures Possible(c, turns)
  {
    var n := |turns| - 1;
    forall i | 0 <= i < |turns| ensures CanHappen(c, turns, i) {
      if i < n { assert CanHappen(c, turns[..n], i) && turns[..n][..i] == turns[..i]; }
    }
  }

  /** Every chain of changes can be written. */
  lemma {:induction false} ChainIsWritten(fs: RelayFs, states: seq<State>) returns (after: RelayFs)
    requires states != [] && Chain(states)
    ensures WritesThrough(fs, states, after)
    decreases |states|
  {
    after := fs;
    if |states| > 1 {
      assert Adjacent(states[0], states[1]);
      var change :| states[1] == Changed(states[0], change);
      forall i | 0 <= i < |states[1..]| - 1 ensures Adjacent(states[1..][i], states[1..][i + 1]) {
        assert Adjacent(states[i + 1], states[i + 2]);
      }
      after := ChainIsWritten(Written(fs, states[0], change, 0), states[1..]);
      assert WritesFirst(fs, states, change, 0, after);
    }
  }
}
