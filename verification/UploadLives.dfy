/** Whole runs of the upload store: chunks arrive, sessions are deleted, the process dies anywhere. */
module UploadLives {
  import opened JsText
  import opened RelayUploads
  import opened FileSystem
  import opened UploadStorage
  import opened UploadCrashes
  import opened UploadMissing

  /** `files` is the order in which the removal of a session's directory meets its chunk files. */
  datatype UploadOp =
    | PutChunk(key: Str, meta: Meta, insertedAtMs: int, i: int, bytes: Bytes)
    | DropSession(key: Str, files: seq<int>)

  function SessionFor(m: Uploads, op: UploadOp): Upload
    requires op.PutChunk?
  {
    if op.key in m then m[op.key] else Upload(op.meta, map[], op.insertedAtMs)
  }

  function Effect(m: Uploads, op: UploadOp): Uploads {
    match op
    case PutChunk(k, _, _, i, bytes) => WithChunk(m, k, SessionFor(m, op), i, bytes)
    case DropSession(k, _) => m - {k}
  }

  function Effects(m: Uploads, ops: seq<UploadOp>): Uploads {
    if ops == [] then m else Effect(Effects(m, ops[..|ops| - 1]), ops[|ops| - 1])
  }

  /** The file system when an operation has finished; dropping an unknown session touches nothing. */
  function Done(fs: UploadFs, m: Uploads, op: UploadOp): UploadFs {
    match op
    case PutChunk(k, _, _, i, bytes) =>
      SavingIndex(WritingChunk(fs, k, i, bytes, REPLACE_STEPS), Effect(m, op), REPLACE_STEPS)
    case DropSession(k, files) =>
      if k in m then Unlinking(SavingIndex(fs, m - {k}, REPLACE_STEPS), k, files) else fs
  }

  function RunFs(fs: UploadFs, m: Uploads, ops: seq<UploadOp>): UploadFs {
    if ops == [] then fs else
      var n := |ops| - 1;
      Done(RunFs(fs, m, ops[..n]), Effects(m, ops[..n]), ops[n])
  }

  /** A state the operation passes through. */
  ghost predicate Passes(fs: UploadFs, m: Uploads, op: UploadOp, state: UploadFs) {
    match op
    case PutChunk(k, _, _, i, bytes) => exists t :: PassesChunk(fs, m, op, t, state)
    case DropSession(k, files) => k in m && exists t :: PassesDrop(fs, m, op, t, state)
  }

  ghost predicate PassesChunk(fs: UploadFs, m: Uploads, op: UploadOp, t: nat, state: UploadFs)
    requires op.PutChunk?
  {
    t <= REPLACE_STEPS &&
    (state == WritingChunk(fs, op.key, op.i, op.bytes, t) ||
     state == SavingIndex(WritingChunk(fs, op.key, op.i, op.bytes, REPLACE_STEPS), Effect(m, op), t))
  }

  ghost predicate PassesDrop(fs: UploadFs, m: Uploads, op: UploadOp, t: nat, state: UploadFs)
    requires op.DropSession?
  {
    (t <= REPLACE_STEPS && state == SavingIndex(fs, m - {op.key}, t)) ||
    (t <= |op.files| && state == Unlinking(SavingIndex(fs, m - {op.key}, REPLACE_STEPS), op.key, op.files[..t]))
  }

  lemma DoneIsGood(fs: UploadFs, m: Uploads, op: UploadOp)
    requires Good(fs, m)
    ensures Good(Done(fs, m, op), Effect(m, op))
  {
    GoodIsLoose(fs, m);
    if op.PutChunk? || op.key in m { SavedIsSettled(fs, m, op); } else { assert m - {op.key} == m; }
  }

  /** An operation that saves the index leaves the store settled. */
  lemma SavedIsSettled(fs: UploadFs, m: Uploads, op: UploadOp)
    requires Loose(fs, m) && (op.PutChunk? || op.key in m)
    ensures Good(Done(fs, m, op), Effect(m, op))
  {
    var docs :| IndexLists(fs, docs, m);
    match op
    case PutChunk(k, _, _, i, bytes) => ChunkStored(fs, m, k, SessionFor(m, op), i, bytes);
    case DropSession(k, files) => DeleteFilesGood(fs, m, k, files);
  }

  lemma {:induction false} RunIsGood(fs: UploadFs, m: Uploads, ops: seq<UploadOp>)
    requires Good(fs, m)
    ensures Good(RunFs(fs, m, ops), Effects(m, ops))
  {
    if ops != [] {
      var n := |ops| - 1;
      RunIsGood(fs, m, ops[..n]);
      DoneIsGood(RunFs(fs, m, ops[..n]), Effects(m, ops[..n]), ops[n]);
    }
  }

  lemma DoneIsLoose(fs: UploadFs, m: Uploads, op: UploadOp)
    requires Loose(fs, m)
    ensures Loose(Done(fs, m, op), Effect(m, op))
  {
    if op.PutChunk? || op.key in m {
      SavedIsSettled(fs, m, op);
      GoodIsLoose(Done(fs, m, op), Effect(m, op));
    } else {
      assert m - {op.key} == m;
    }
  }

  lemma {:induction false} RunIsLoose(fs: UploadFs, m: Uploads, ops: seq<UploadOp>)
    requires Loose(fs, m)
    ensures Loose(RunFs(fs, m, ops), Effects(m, ops))
  {
    if ops != [] {
      var n := |ops| - 1;
      RunIsLoose(fs, m, ops[..n]);
      DoneIsLoose(RunFs(fs, m, ops[..n]), Effects(m, ops[..n]), ops[n]);
    }
  }

  lemma PassingIsAtomic(fs: UploadFs, m: Uploads, op: UploadOp, state: UploadFs, disk: Found)
    requires Good(fs, m) && Passes(fs, m, op, state) && Survives(state, disk)
    ensures Reload(disk) == m || Reload(disk) == Effect(m, op)
    ensures NamedChunksComplete(disk)
  {
    match op
    case PutChunk(k, _, _, i, bytes) =>
      var t: nat :| PassesChunk(fs, m, op, t, state);
      if state == WritingChunk(fs, k, i, bytes, t) {
        ChunkFileCrash(fs, m, k, SessionFor(m, op), i, bytes, t, disk);
      } else {
        ChunkIndexCrash(fs, m, k, SessionFor(m, op), i, bytes, t, disk);
      }
    case DropSession(k, files) =>
      var t: nat :| PassesDrop(fs, m, op, t, state);
      if t <= REPLACE_STEPS && state == SavingIndex(fs, m - {k}, t) {
        DeleteIndexCrash(fs, m, k, t, disk);
      } else {
        DeleteFilesGood(fs, m, k, files[..t]);
        GoodReloads(state, m - {k}, disk);
      }
  }

  /** The same although the index names missing files; what is found then may again name some. */
  lemma PassingLoose(fs: UploadFs, m: Uploads, op: UploadOp, state: UploadFs, disk: Found)
    requires Loose(fs, m) && Passes(fs, m, op, state) && Survives(state, disk)
    ensures Reload(disk) == m || Reload(disk) == Effect(m, op)
    ensures LooseDisk(disk)
  {
    var docs :| IndexLists(fs, docs, m);
    match op
    case PutChunk(k, _, _, i, bytes) =>
      var t: nat :| PassesChunk(fs, m, op, t, state);
      if state == WritingChunk(fs, k, i, bytes, t) {
        ChunkFileLoose(fs, docs, m, k, SessionFor(m, op), i, bytes, t, disk);
      } else {
        ChunkIndexLoose(fs, docs, m, k, SessionFor(m, op), i, bytes, t, disk);
      }
    case DropSession(k, files) =>
      var t: nat :| PassesDrop(fs, m, op, t, state);
      if t <= REPLACE_STEPS && state == SavingIndex(fs, m - {k}, t) {
        DeleteIndexLoose(fs, docs, m, k, t, disk);
      } else {
        DeleteFilesGood(fs, m, k, files[..t]);
        SettledIsLoose(state, m - {k}, disk);
      }
  }

  lemma SettledIsLoose(fs: UploadFs, m: Uploads, disk: Found)
    requires Good(fs, m) && Survives(fs, disk)
    ensures Reload(disk) == m && LooseDisk(disk)
  {
    GoodIsLoose(fs, m);
    LooseSurvives(fs, m, disk);
  }

  lemma LooseSurvives(fs: UploadFs, m: Uploads, disk: Found)
    requires Loose(fs, m) && Survives(fs, disk)
    ensures Reload(disk) == m && LooseDisk(disk)
  {
    var docs :| IndexLists(fs, docs, m);
    ListedIndexFound(fs, docs, m, fs, disk);
    ChunksFound(fs, m, disk);
    forall k, i | Missing(docs, m, k, i) ensures Chunk(k, i) !in disk { AbsentIsOut(fs, Chunk(k, i), disk); }
    LooseFound(disk, m);
  }

  // ----- the index a crash leaves -----

  /** A snapshot entry that is complete and embeds nothing, or is read as none. */
  ghost predicate Orderly(e: Entry<Doc>) {
    ReadsEmpty(e) || (e.File? && e.synced && e.content.Whole? && EmbedsNothing(e.content.doc))
  }

  ghost predicate EmbedsNothing(doc: Doc) {
    doc.Sessions? && forall k :: k in doc.sessions ==> doc.sessions[k].embedded == map[]
  }

  ghost predicate OrderlyIndex(fs: UploadFs) {
    forall e :: e in Slot(fs, Index) ==> Orderly(e)
  }

  lemma EncodedIsOrderly(m: Uploads)
    ensures Orderly(File(Whole(Encode(m)), true))
  {
  }

  lemma GoodIsOrderly(fs: UploadFs, m: Uploads)
    requires Good(fs, m)
    ensures OrderlyIndex(fs)
  {
    EncodedIsOrderly(m);
  }

  lemma SavingIsOrderly(fs: UploadFs, m: Uploads, t: nat)
    requires OrderlyIndex(fs) && t <= REPLACE_STEPS
    ensures OrderlyIndex(SavingIndex(fs, m, t))
  {
    SavingIndexSlots(fs, m, t, Index);
    EncodedIsOrderly(m);
  }

  lemma {:induction false} UnlinkingIsOrderly(fs: UploadFs, k: Str, files: seq<int>)
    requires OrderlyIndex(fs)
    ensures OrderlyIndex(Unlinking(fs, k, files))
  {
    if files != [] { UnlinkingIsOrderly(fs, k, files[..|files| - 1]); }
  }

  lemma PassingIsOrderly(fs: UploadFs, m: Uploads, op: UploadOp, state: UploadFs)
    requires Good(fs, m) && Passes(fs, m, op, state)
    ensures OrderlyIndex(state)
  {
    GoodIsOrderly(fs, m);
    match op
    case PutChunk(k, _, _, i, bytes) =>
      var t: nat :| PassesChunk(fs, m, op, t, state);
      var t1 := if state == WritingChunk(fs, k, i, bytes, t) then t else REPLACE_STEPS;
      WritingKeepsGood(fs, m, k, i, bytes, t1);
      assert OrderlyIndex(WritingChunk(fs, k, i, bytes, t1));
      if t1 != t || state != WritingChunk(fs, k, i, bytes, t) {
        SavingIsOrderly(WritingChunk(fs, k, i, bytes, REPLACE_STEPS), Effect(m, op), t);
      }
    case DropSession(k, files) =>
      var t: nat :| PassesDrop(fs, m, op, t, state);
      if t <= REPLACE_STEPS && state == SavingIndex(fs, m - {k}, t) {
        SavingIsOrderly(fs, m - {k}, t);
      } else {
        SavingIsOrderly(fs, m - {k}, REPLACE_STEPS);
        UnlinkingIsOrderly(SavingIndex(fs, m - {k}, REPLACE_STEPS), k, files[..t]);
      }
  }

  /** A process started on such a disk is settled on what it reloads. */
  lemma OrderlyBoots(state: UploadFs, disk: Found)
    requires OrderlyIndex(state) && Survives(state, disk) && NamedChunksComplete(disk)
    ensures Good(Boot(disk), Reload(disk))
  {
    assert Possible(state, Index, disk);
    var i :| 0 <= i < |Slot(state, Index)| && FoundAs(Slot(state, Index)[i], disk, Index);
    assert Slot(state, Index)[i] in Slot(state, Index) && Orderly(Slot(state, Index)[i]);
    BootIsGood(disk);
  }

  // ----- one life -----

  /** One life of the process: the operations it was asked for, how many of them returned, the state in
      which it died, and the disk found after that. */
  datatype Life = Life(ops: seq<UploadOp>, done: nat, state: UploadFs, disk: Found)

  ghost predicate DiesWith(fs: UploadFs, m: Uploads, life: Life) {
    var ops, n := life.ops, life.done;
    n <= |ops| && Survives(life.state, life.disk) &&
    var fs1, m1 := RunFs(fs, m, ops[..n]), Effects(m, ops[..n]);
    life.state == fs1 || (n < |ops| && Passes(fs1, m1, ops[n], life.state))
  }

  lemma DeathBetween(fs: UploadFs, m: Uploads, disk: Found)
    requires Good(fs, m) && Survives(fs, disk)
    ensures Reload(disk) == m && NamedChunksComplete(disk) && Good(Boot(disk), Reload(disk))
  {
    GoodReloads(fs, m, disk);
    GoodIsOrderly(fs, m);
    OrderlyBoots(fs, disk);
  }

  lemma DeathInside(fs: UploadFs, m: Uploads, op: UploadOp, state: UploadFs, disk: Found)
    requires Good(fs, m) && Passes(fs, m, op, state) && Survives(state, disk)
    ensures Reload(disk) == m || Reload(disk) == Effect(m, op)
    ensures NamedChunksComplete(disk) && Good(Boot(disk), Reload(disk))
  {
    PassingIsAtomic(fs, m, op, state, disk);
    PassingIsOrderly(fs, m, op, state);
    OrderlyBoots(state, disk);
  }

  lemma EffectsNext(m: Uploads, ops: seq<UploadOp>, n: nat)
    requires n < |ops|
    ensures Effects(m, ops[..n + 1]) == Effect(Effects(m, ops[..n]), ops[n])
  {
    assert ops[..n + 1][..n] == ops[..n];
  }

  /** A crash anywhere in any run: the sessions reloaded are those after the completed operations or after
      one more, so that each chunk has the bytes last written to it in its session, and the next process
      starts on them, whether or not the index named missing files. */
  lemma CrashAnywhere(fs: UploadFs, m: Uploads, life: Life) returns (kept: nat)
    requires Loose(fs, m) && DiesWith(fs, m, life)
    ensures life.done <= kept <= life.done + 1 && kept <= |life.ops|
    ensures Reload(life.disk) == Effects(m, life.ops[..kept]) && LooseDisk(life.disk)
  {
    var ops, n := life.ops, life.done;
    var fs1, m1 := RunFs(fs, m, ops[..n]), Effects(m, ops[..n]);
    RunIsLoose(fs, m, ops[..n]);
    kept := n;
    if life.state == fs1 {
      LooseSurvives(fs1, m1, life.disk);
    } else {
      PassingLoose(fs1, m1, ops[n], life.state, life.disk);
      EffectsNext(m, ops, n);
      if Reload(life.disk) != m1 { kept := n + 1; }
    }
  }

  /** If it named none at the start, every chunk the durable index names has a complete file after the
      crash, and the next process is settled. */
  lemma CrashIsComplete(fs: UploadFs, m: Uploads, life: Life)
    requires Good(fs, m) && DiesWith(fs, m, life)
    ensures NamedChunksComplete(life.disk) && Good(Boot(life.disk), Reload(life.disk))
  {
    var ops, n := life.ops, life.done;
    var fs1, m1 := RunFs(fs, m, ops[..n]), Effects(m, ops[..n]);
    RunIsGood(fs, m, ops[..n]);
    if life.state == fs1 { DeathBetween(fs1, m1, life.disk); } else {
      DeathInside(fs1, m1, ops[n], life.state, life.disk);
    }
  }

  // ----- any number of lives -----

  ghost predicate Lives(fs: UploadFs, m: Uploads, lives: seq<Life>)
    decreases |lives|
  {
    lives == [] ||
    (DiesWith(fs, m, lives[0]) && Lives(Boot(lives[0].disk), Reload(lives[0].disk), lives[1..]))
  }

  function FinalSessions(m: Uploads, lives: seq<Life>): Uploads
    decreases |lives|
  {
    if lives == [] then m else FinalSessions(Reload(lives[0].disk), lives[1..])
  }

  /** The operations that took effect: of each life those that returned and perhaps the next one. */
  ghost predicate KeptOps(lives: seq<Life>, kept: seq<UploadOp>)
    decreases |lives|
  {
    if lives == [] then kept == [] else
      exists k: nat :: KeptOf(lives[0], kept, k) && KeptOps(lives[1..], kept[k..])
  }

  ghost predicate KeptOf(life: Life, kept: seq<UploadOp>, k: nat) {
    life.done <= k <= life.done + 1 && k <= |life.ops| && life.ops[..k] <= kept
  }

  lemma FirstLife(fs: UploadFs, m: Uploads, lives: seq<Life>) returns (k: nat)
    requires Loose(fs, m) && Lives(fs, m, lives) && lives != []
    ensures lives[0].done <= k <= lives[0].done + 1 && k <= |lives[0].ops|
    ensures Reload(lives[0].disk) == Effects(m, lives[0].ops[..k])
    ensures Loose(Boot(lives[0].disk), Reload(lives[0].disk))
    ensures Lives(Boot(lives[0].disk), Reload(lives[0].disk), lives[1..])
  {
    k := CrashAnywhere(fs, m, lives[0]);
    LooseBoots(lives[0].disk);
  }

  lemma KeptFirst(lives: seq<Life>, k: nat, rest: seq<UploadOp>)
    requires lives != [] && lives[0].done <= k <= lives[0].done + 1 && k <= |lives[0].ops|
    requires KeptOps(lives[1..], rest)
    ensures KeptOps(lives, lives[0].ops[..k] + rest)
  {
    var kept := lives[0].ops[..k] + rest;
    assert kept[k..] == rest && KeptOf(lives[0], kept, k);
  }

  /** Across any number of crashes and restarts the sessions are what the kept operations, in order, make
      of them. */
  lemma {:induction false} LivesAreAtomic(fs: UploadFs, m: Uploads, lives: seq<Life>) returns (kept: seq<UploadOp>)
    requires Loose(fs, m) && Lives(fs, m, lives)
    ensures KeptOps(lives, kept) && FinalSessions(m, lives) == Effects(m, kept)
    decreases |lives|
  {
    if lives == [] {
      kept := [];
    } else {
      var k := FirstLife(fs, m, lives);
      var rest := LivesAreAtomic(Boot(lives[0].disk), Reload(lives[0].disk), lives[1..]);
      kept := lives[0].ops[..k] + rest;
      KeptFirst(lives, k, rest);
      EffectsConcat(m, lives[0].ops[..k], rest);
    }
  }

  /** Each life starts on what it found, and settled if the first one was. */
  lemma {:induction false} LivesStart(fs: UploadFs, m: Uploads, lives: seq<Life>, n: nat)
    requires Loose(fs, m) && Lives(fs, m, lives) && n < |lives|
    ensures Loose(Boot(lives[n].disk), Reload(lives[n].disk))
    ensures Good(fs, m) ==> NamedChunksComplete(lives[n].disk) && Good(Boot(lives[n].disk), Reload(lives[n].disk))
    decreases |lives|
  {
    var _ := FirstLife(fs, m, lives);
    if Good(fs, m) { CrashIsComplete(fs, m, lives[0]); }
    if n > 0 { LivesStart(Boot(lives[0].disk), Reload(lives[0].disk), lives[1..], n - 1); }
  }

  lemma {:induction false} EffectsConcat(m: Uploads, a: seq<UploadOp>, b: seq<UploadOp>)
    ensures Effects(m, a + b) == Effects(Effects(m, a), b)
  {
    if b == [] {
      assert a + b == a;
    } else {
      EffectsConcat(m, a, b[..|b| - 1]);
      assert (a + b)[..|a + b| - 1] == a + b[..|b| - 1];
    }
  }
}
