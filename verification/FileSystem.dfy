/** The part of a file system the stores rely on. A name has a current entry and the entries it has
    had since its directory was last synced; after a crash any one of those may be found there. A
    file that was not synced may come back with any content; a synced one comes back as written.
    Rename replaces its target in one step. */
module FileSystem {

  /** A document, or something that is not one: an empty, partial or garbled file. */
  datatype Content<+D> = Whole(doc: D) | Torn

  datatype Entry<+D> = Absent | File(content: Content<D>, synced: bool)

  /** For each name its possible durable entries, the current one last. */
  type Fs<!N, D> = map<N, seq<Entry<D>>>

  /** What is found after a crash. */
  type Disk<!N, D> = map<N, Content<D>>

  function Slot<N, D>(fs: Fs<N, D>, n: N): (s: seq<Entry<D>>)
    ensures |s| > 0
  {
    if n in fs && fs[n] != [] then fs[n] else [Absent]
  }

  function Current<N, D>(fs: Fs<N, D>, n: N): Entry<D> {
    Slot(fs, n)[|Slot(fs, n)| - 1]
  }

  function Create<N, D>(fs: Fs<N, D>, n: N): Fs<N, D> {
    fs[n := Slot(fs, n) + [File(Torn, false)]]
  }

  function Write<N, D>(fs: Fs<N, D>, n: N, content: Content<D>): Fs<N, D> {
    fs[n := Slot(fs, n)[..|Slot(fs, n)| - 1] + [File(content, false)]]
  }

  function SyncFile<N, D>(fs: Fs<N, D>, n: N): Fs<N, D> {
    if Current(fs, n).Absent? then fs
    else fs[n := Slot(fs, n)[..|Slot(fs, n)| - 1] + [File(Current(fs, n).content, true)]]
  }

  function Rename<N, D>(fs: Fs<N, D>, from: N, to: N): Fs<N, D> {
    var moved := fs[to := Slot(fs, to) + [Current(fs, from)]];
    moved[from := Slot(fs, from) + [Absent]]
  }

  function Unlink<N, D>(fs: Fs<N, D>, n: N): Fs<N, D> {
    fs[n := Slot(fs, n) + [Absent]]
  }

  /** The current entries of the names in a directory become the only durable ones. */
  function SyncDirectory<N, D>(fs: Fs<N, D>, names: set<N>): Fs<N, D> {
    map n | n in fs :: if n in names then [Current(fs, n)] else fs[n]
  }

  predicate FoundAs<N, D(==)>(e: Entry<D>, disk: Disk<N, D>, n: N) {
    match e
    case Absent => n !in disk
    case File(content, synced) => n in disk && (synced ==> disk[n] == content)
  }

  /** What is found under the name is one of its possible durable entries. */
  ghost predicate Possible<N, D>(fs: Fs<N, D>, n: N, disk: Disk<N, D>) {
    exists i :: 0 <= i < |Slot(fs, n)| && FoundAs(Slot(fs, n)[i], disk, n)
  }

  /** The disk is one a crash in this state can leave. */
  ghost predicate Survives<N(!new), D>(fs: Fs<N, D>, disk: Disk<N, D>) {
    forall n :: Possible(fs, n, disk)
  }

  /** The file system as a new process finds it. */
  function Boot<N, D>(disk: Disk<N, D>): Fs<N, D> {
    map n | n in disk :: [File(disk[n], true)]
  }

  // ----- replacing a file through a temporary one -----

  const REPLACE_STEPS := 6

  /** One step: create, partial write, full write, file sync, rename, directory sync. */
  function ReplaceStep<N, D>(before: Fs<N, D>, temporary: N, target: N, doc: D, directory: set<N>, t: nat): Fs<N, D> {
    match t
    case 1 => Create(before, temporary)
    case 2 => Write(before, temporary, Torn)
    case 3 => Write(before, temporary, Whole(doc))
    case 4 => SyncFile(before, temporary)
    case 5 => Rename(before, temporary, target)
    case _ => SyncDirectory(before, directory)
  }

  /** The file system after the first t steps. */
  function Replacing<N, D>(fs: Fs<N, D>, temporary: N, target: N, doc: D, directory: set<N>, t: nat): Fs<N, D> {
    if t == 0 then fs
    else ReplaceStep(Replacing(fs, temporary, target, doc, directory, t - 1), temporary, target, doc, directory, t)
  }

  lemma StepTarget<N, D>(before: Fs<N, D>, temporary: N, target: N, doc: D, directory: set<N>, t: nat)
    requires temporary != target && target in directory && 0 < t <= REPLACE_STEPS
    ensures var after := ReplaceStep(before, temporary, target, doc, directory, t);
      Slot(after, target) ==
        if t < 5 then Slot(before, target)
        else if t == 5 then Slot(before, target) + [Current(before, temporary)]
        else [Current(before, target)]
  {
  }

  lemma StepTemporary<N, D>(before: Fs<N, D>, temporary: N, target: N, doc: D, directory: set<N>, t: nat)
    requires temporary != target
    ensures var after := ReplaceStep(before, temporary, target, doc, directory, t);
      (t == 3 ==> Current(after, temporary) == File(Whole(doc), false)) &&
      (t == 4 && Current(before, temporary) == File(Whole(doc), false) ==>
        Current(after, temporary) == File(Whole(doc), true))
  {
  }

  lemma StepKeepsOthers<N, D>(before: Fs<N, D>, temporary: N, target: N, doc: D, directory: set<N>, t: nat, n: N)
    requires |Slot(before, n)| == 1 && n != temporary && n != target
    ensures Slot(ReplaceStep(before, temporary, target, doc, directory, t), n) == Slot(before, n)
  {
  }

  /** The target keeps its entries until the rename, then may have the new one as well, complete and
      synced, and in the end has only the new one. */
  lemma {:induction false} ReplaceTarget<N, D>(fs: Fs<N, D>, temporary: N, target: N, doc: D, directory: set<N>, t: nat)
    requires t <= REPLACE_STEPS && temporary != target && target in directory
    ensures Slot(Replacing(fs, temporary, target, doc, directory, t), target) ==
      if t < 5 then Slot(fs, target)
      else if t == 5 then Slot(fs, target) + [File(Whole(doc), true)]
      else [File(Whole(doc), true)]
    ensures 3 <= t <= 4 ==>
      Current(Replacing(fs, temporary, target, doc, directory, t), temporary) == File(Whole(doc), t == 4)
  {
    if t > 0 {
      var before := Replacing(fs, temporary, target, doc, directory, t - 1);
      ReplaceTarget(fs, temporary, target, doc, directory, t - 1);
      StepTarget(before, temporary, target, doc, directory, t);
      StepTemporary(before, temporary, target, doc, directory, t);
    }
  }

  /** A settled name stays as it is. */
  lemma {:induction false} ReplaceKeepsOthers<N, D>(fs: Fs<N, D>, temporary: N, target: N, doc: D, directory: set<N>,
                                                    t: nat, n: N)
    requires |Slot(fs, n)| == 1 && n != temporary && n != target
    ensures Slot(Replacing(fs, temporary, target, doc, directory, t), n) == Slot(fs, n)
  {
    if t > 0 {
      ReplaceKeepsOthers(fs, temporary, target, doc, directory, t - 1, n);
      StepKeepsOthers(Replacing(fs, temporary, target, doc, directory, t - 1), temporary, target, doc, directory, t, n);
    }
  }
}
