/** Writes of a file that overlap: each takes its text from memory at one moment and renames it into place
    at a later one, and nothing orders the renames. */
module InviteWrites {
  import opened JsText

  /** The book in memory changes; a write takes its text; the write that began at that step renames its
      text into place, and its request is answered. */
  datatype Step<B> = Change(book: B) | Begin | Finish(begun: nat)

  function Memory<B>(run: seq<Step<B>>): Option<B> {
    if run == [] then None else
      match run[|run| - 1]
      case Change(book) => Some(book)
      case _ => Memory(run[..|run| - 1])
  }

  predicate IsPending<B(==)>(run: seq<Step<B>>, b: nat) {
    b < |run| && run[b].Begin? && Finish(b) !in run
  }

  ghost predicate NonePending<B>(run: seq<Step<B>>) {
    forall b :: !IsPending(run, b)
  }

  /** Only a write that has begun and is not finished can finish. */
  ghost predicate Legal<B>(run: seq<Step<B>>) {
    run == [] ||
    var front, last := run[..|run| - 1], run[|run| - 1];
    Legal(front) && (last.Finish? ==> IsPending(front, last.begun))
  }

  /** When the text in the file was taken; before the first write there is none. */
  function TakenAt<B>(run: seq<Step<B>>): Option<nat> {
    if run == [] then None else
      match run[|run| - 1]
      case Finish(b) => Some(b)
      case _ => TakenAt(run[..|run| - 1])
  }

  /** What the file holds. */
  function File<B>(run: seq<Step<B>>): Option<B> {
    match TakenAt(run)
    case None => None
    case Some(b) => if b <= |run| then Memory(run[..b]) else None
  }

  lemma ChangeKeepsFile<B>(run: seq<Step<B>>, last: Step<B>)
    requires Legal(run) && !last.Finish?
    ensures Legal(run + [last]) && File(run + [last]) == File(run)
    ensures Memory(run + [last]) == if last.Change? then Some(last.book) else Memory(run)
  {
    assert (run + [last])[..|run|] == run;
    FinishedIsPast(run);
    if TakenAt(run).Some? { assert (run + [last])[..TakenAt(run).value] == run[..TakenAt(run).value]; }
  }

  lemma FinishPublishes<B>(run: seq<Step<B>>, b: nat)
    requires Legal(run) && IsPending(run, b)
    ensures var after := run + [Finish(b)];
      Legal(after) && File(after) == Memory(run[..b]) && Memory(after) == Memory(run)
  {
    assert (run + [Finish(b)])[..|run|] == run && (run + [Finish(b)])[..b] == run[..b];
  }

  /** The text of every answered write is in the file, or a later one is. */
  ghost predicate AnsweredKept<B>(run: seq<Step<B>>) {
    forall b: nat :: Finish(b) in run ==> TakenAt(run).Some? && b <= TakenAt(run).value
  }

  /** No write begins while another is pending. */
  ghost predicate Guarded<B>(run: seq<Step<B>>) {
    run == [] ||
    var front, last := run[..|run| - 1], run[|run| - 1];
    Guarded(front) && (last.Begin? ==> NonePending(front))
  }

  /** One write is pending at most, and it began after all that are finished. */
  ghost predicate OnePending<B>(run: seq<Step<B>>) {
    (forall b, b' :: IsPending(run, b) && IsPending(run, b') ==> b == b') &&
    (forall b, f: nat :: IsPending(run, b) && Finish(f) in run ==> f < b)
  }

  lemma StepPending<B>(front: seq<Step<B>>, last: Step<B>, b: nat)
    requires forall f: nat :: Finish(f) in front ==> f < |front|
    ensures IsPending(front + [last], b) <==>
      (IsPending(front, b) && last != Finish(b)) || (b == |front| && last.Begin?)
  {
    var run := front + [last];
    if b < |front| { assert run[b] == front[b]; }
  }

  lemma {:induction false} FinishedIsPast<B>(run: seq<Step<B>>)
    requires Legal(run)
    ensures forall f: nat :: Finish(f) in run ==> f < |run|
    ensures TakenAt(run).Some? ==> Finish(TakenAt(run).value) in run
    ensures TakenAt(run).None? ==> forall f: nat :: Finish(f) !in run
  {
    if run != [] {
      var n := |run| - 1;
      FinishedIsPast(run[..n]);
      assert run == run[..n] + [run[n]];
    }
  }

  /** With that guard every answered write stays in the file, or a later one. */
  lemma {:induction false} GuardKeeps<B>(run: seq<Step<B>>)
    requires Legal(run) && Guarded(run)
    ensures AnsweredKept(run) && OnePending(run)
  {
    if run != [] {
      var n := |run| - 1;
      var front := run[..n];
      GuardKeeps(front);
      FinishedIsPast(front);
      assert run == front + [run[n]];
      forall b
        ensures IsPending(run, b) <==>
          (IsPending(front, b) && run[n] != Finish(b)) || (b == n && run[n].Begin?)
      {
        StepPending(front, run[n], b);
      }
    }
  }

  /** Writes that have begun finish, and nothing else happens. */
  ghost predicate Finishing<B>(run: seq<Step<B>>, tail: seq<Step<B>>) {
    Legal(run + tail) && forall x :: x in tail ==> x.Finish?
  }

  /** They can finish in an order that loses an answered write. */
  ghost predicate CanLose<B(!new)>(run: seq<Step<B>>) {
    exists tail :: Finishing(run, tail) && !AnsweredKept(run + tail)
  }

  lemma {:induction false} FinishingIsGuarded<B>(run: seq<Step<B>>, tail: seq<Step<B>>)
    requires Guarded(run) && forall x :: x in tail ==> x.Finish?
    ensures Guarded(run + tail)
  {
    if tail == [] {
      assert run + tail == run;
    } else {
      var n := |tail| - 1;
      FinishingIsGuarded(run, tail[..n]);
      assert (run + tail)[..|run| + n] == run + tail[..n] && tail[n] in tail;
    }
  }

  /** The earlier write finishes last. */
  lemma LosingOrder<B>(run: seq<Step<B>>, b: nat)
    requires Legal(run) && IsPending(run, b)
    ensures var begun := run + [Begin];
      Finishing(begun, [Finish(|run|), Finish(b)]) && !AnsweredKept(begun + [Finish(|run|), Finish(b)])
  {
    var n, begun := |run|, run + [Begin];
    FinishedIsPast(run);
    StepPending(run, Begin, n);
    StepPending(run, Begin, b);
    assert begun[..n] == run && Legal(begun);
    var one := begun + [Finish(n)];
    FinishedIsPast(begun);
    StepPending(begun, Finish(n), b);
    assert one[..n + 1] == begun && Legal(one);
    var two := one + [Finish(b)];
    assert two[..n + 2] == one && two == begun + [Finish(n), Finish(b)] && Finish(n) in two && two[n + 2] == Finish(b);
  }

  /** The guard is exact: while it has been kept so far, a write that begins now can lose an answered one
      exactly if another write is pending. */
  lemma BeginCanLoseIff<B(!new)>(run: seq<Step<B>>)
    requires Legal(run) && Guarded(run)
    ensures CanLose(run + [Begin]) <==> !NonePending(run)
  {
    var begun := run + [Begin];
    assert begun[..|run|] == run;
    if NonePending(run) {
      forall tail | Finishing(begun, tail) ensures AnsweredKept(begun + tail) {
        FinishingIsGuarded(begun, tail);
        GuardKeeps(begun + tail);
      }
    } else {
      var b :| IsPending(run, b);
      LosingOrder(run, b);
    }
  }
}
