/** What a restart finds of the invites that were answered. */
module InviteFile {
  import opened JsText
  import opened JsonText
  import opened CanonicalJson
  import opened InviteWrites
  import opened Invites

  /** The book read back at a restart. */
  function Reread(check: Check, book: Book, tokens: seq<Str>, now: int): Book
    requires forall t :: t in tokens ==> t in book
  {
    var file := Parse(Raw(Obj(FileFields(book, tokens))));
    if file.Some? && file.value.Obj? then Restored(check, file.value.fields, now) else map[]
  }

  lemma RereadIsUnexpired(check: Check, book: Book, tokens: seq<Str>, now: int)
    requires Sound(check, book) && Listing(book, tokens)
    ensures Reread(check, book, tokens, now) == Unexpired(book, now)
  {
    RestartKeepsInvites(check, book, tokens, now);
  }

  /** No later change removes the invite. */
  ghost predicate StaysFrom(run: seq<Step<Book>>, from: nat, token: Str, invite: Invite) {
    forall k :: from <= k < |run| && run[k].Change? ==> token in run[k].book && run[k].book[token] == invite
  }

  ghost predicate Has(book: Option<Book>, token: Str, invite: Invite) {
    book.Some? && token in book.value && book.value[token] == invite
  }

  lemma {:induction false} StillInMemory(run: seq<Step<Book>>, from: nat, n: nat, token: Str, invite: Invite)
    requires from <= n <= |run| && StaysFrom(run, from, token, invite) && Has(Memory(run[..from]), token, invite)
    ensures Has(Memory(run[..n]), token, invite)
  {
    if from < n {
      StillInMemory(run, from, n - 1, token, invite);
      assert run[..n][..n - 1] == run[..n - 1] && run[..n][n - 1] == run[n - 1];
    }
  }

  /** If no write began while another was pending, a restart finds every invite that was answered, was not
      removed in memory since and has not expired. */
  lemma AnsweredIsFound(check: Check, run: seq<Step<Book>>, b: nat, token: Str, invite: Invite, tokens: seq<Str>,
                        now: int)
    requires Legal(run) && Guarded(run) && Finish(b) in run && b <= |run| && Has(Memory(run[..b]), token, invite)
    requires StaysFrom(run, b, token, invite) && now < invite.expiresAtMs
    requires File(run).Some? ==> Sound(check, File(run).value) && Listing(File(run).value, tokens)
    ensures File(run).Some? && Has(Some(Reread(check, File(run).value, tokens, now)), token, invite)
  {
    GuardKeeps(run);
    FinishedIsPast(run);
    StillInMemory(run, b, TakenAt(run).value, token, invite);
    RereadIsUnexpired(check, File(run).value, tokens, now);
  }

  /** A creation answered while the write of an earlier one is pending. */
  function Overlapping(first: Book, second: Book): seq<Step<Book>> {
    [Change(first), Begin, Change(second), Begin, Finish(3), Finish(1)]
  }

  lemma OverlappingRun(first: Book, second: Book)
    ensures Legal(Overlapping(first, second)) && File(Overlapping(first, second)) == Some(first)
    ensures Memory(Overlapping(first, second)) == Some(second) && Finish(3) in Overlapping(first, second)
  {
    var one: seq<Step<Book>> := [];
    assert one + [Change(first)] == [Change(first)] && Legal(one);
    ChangeKeepsFile(one, Change(first));
    var two := [Change(first), Begin];
    ChangeKeepsFile([Change(first)], Begin);
    assert [Change(first)] + [Begin] == two;
    ChangeKeepsFile(two, Change(second));
    var three := two + [Change(second)];
    ChangeKeepsFile(three, Begin);
    var four := three + [Begin];
    FinishPublishes(four, 3);
    var five := four + [Finish(3)];
    FinishPublishes(five, 1);
    assert five + [Finish(1)] == Overlapping(first, second) && five[..1] == [Change(first)];
  }

  /** Then it can be lost: the file ends with the earlier book, and a restart does not find the invite that
      the second request created, was answered and has not expired. */
  lemma OverlapLosesInvite(check: Check, first: Book, token: Str, invite: Invite, at: int, tokens: seq<Str>, now: int)
    requires Sound(check, first) && Listing(first, tokens) && token !in first && now < invite.expiresAtMs
    ensures var second := Unexpired(first, at)[token := invite];
      var run := Overlapping(first, second);
      Legal(run) && Finish(3) in run && Memory(run[..3]) == Memory(run) == Some(second) && token in second &&
      File(run) == Some(first) && token !in Reread(check, first, tokens, now)
  {
    var second := Unexpired(first, at)[token := invite];
    var run := Overlapping(first, second);
    OverlappingRun(first, second);
    assert run[..3] == [Change(first), Begin, Change(second)];
    RereadIsUnexpired(check, first, tokens, now);
  }
}
