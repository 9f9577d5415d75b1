/** What happens to one queue in one step, and what every such step keeps. */
module RelayMailLaws {
  import opened JsText
  import opened RelayTypes
  import opened RelayMail

  /** The effect of a request or a sweep on the queue of one recipient. */
  datatype QueueMove = Keep | Filter | Drop(id: Str) | Serve(env: Envelope)

  function ApplyMove(q: seq<Item>, c: Config, move: QueueMove, now: int): seq<Item> {
    match move
    case Keep => q
    case Filter => Live(q, Cutoff(c, now))
    case Drop(id) => Dropping(q, id)
    case Serve(env) => Served(q, Cutoff(c, now), env, now)
  }

  // ----- at most one envelope per id -----

  lemma MoveKeepsDistinct(q: seq<Item>, c: Config, move: QueueMove, now: int)
    requires Distinct(q)
    ensures Distinct(ApplyMove(q, c, move, now))
  {
    LiveDistinct(q, Cutoff(c, now));
    if move.Drop? { DroppingDistinct(q, move.id); }
    if move.Serve? && move.env.id !in Ids(Live(q, Cutoff(c, now))) {
      AppendDistinct(Live(q, Cutoff(c, now)), Item(move.env, now));
    }
  }

  lemma MoveIds(q: seq<Item>, c: Config, move: QueueMove, now: int)
    ensures Ids(ApplyMove(q, c, move, now)) <= Ids(q) + (if move.Serve? then {move.env.id} else {})
    ensures move.Drop? ==> move.id !in Ids(ApplyMove(q, c, move, now))
  {
  }

  // ----- no queued message has a tombstone -----

  /** For separator-free recipients; other recipients share keys with them. */
  ghost predicate NoneTombstoned(m: Mail) {
    forall to, id :: Without(PIPE, to) && id in Ids(Queue(m, to)) ==> EnvelopeKey(to, id) !in m.acked
  }

  lemma AckKeepsUntombstoned(m: Mail, c: Config, to: Str, id: Str, now: int)
    requires NoneTombstoned(m) && Without(PIPE, to)
    ensures NoneTombstoned(AckMail(m, c, to, id, now))
  {
    var m' := AckMail(m, c, to, id, now);
    forall r, x | Without(PIPE, r) && x in Ids(Queue(m', r)) ensures EnvelopeKey(r, x) !in m'.acked {
      AckEffect(m, c, to, id, now, r);
      if EnvelopeKey(r, x) == EnvelopeKey(to, id) { EnvelopeKeyInjective(r, x, to, id); }
    }
  }

  /** An ACK keeps the law in every state exactly when its recipient is free of the separator: for
      any other recipient one stored message, filed under a shorter recipient, is hit. */
  lemma AckKeepsUntombstonedIff(c: Config, to: Str, id: Str, env: Envelope, now: int)
    ensures Without(PIPE, to) <==>
      forall m :: NoneTombstoned(m) ==> NoneTombstoned(AckMail(m, c, to, id, now))
  {
    if Without(PIPE, to) {
      forall m | NoneTombstoned(m) ensures NoneTombstoned(AckMail(m, c, to, id, now)) {
        AckKeepsUntombstoned(m, c, to, id, now);
      }
    } else {
      var k := SeparatorIndex(to);
      var hit := env.(to := to[..k], id := to[k + 1..] + [PIPE] + id);
      var m := Mail(map[hit.to := [Item(hit, now)]], map[]);
      assert to == to[..k] + [PIPE] + to[k + 1..];
      assert EnvelopeKey(hit.to, hit.id) == EnvelopeKey(to, id);
      assert NoneTombstoned(m);
      AckEffect(m, c, to, id, now, hit.to);
      assert Item(hit, now) in Queue(AckMail(m, c, to, id, now), hit.to);
    }
  }

  // ----- an acknowledged message stays gone -----

  /** The message is out of the queue and its tombstone lasts at least until the given time. */
  ghost predicate Gone(m: Mail, c: Config, to: Str, id: Str, until: int) {
    EnvelopeKey(to, id) in m.acked && ExpiryOf(m.acked[EnvelopeKey(to, id)], c) >= until &&
    id !in Ids(Queue(m, to))
  }

  lemma AckMakesGone(m: Mail, c: Config, to: Str, id: Str, now: int)
    ensures Gone(AckMail(m, c, to, id, now), c, to, id, now + c.ackTtlSeconds * 1000)
  {
    AckEffect(m, c, to, id, now, to);
  }

  // ----- a paging reader -----

  /** Everything up to any occurrence of the reader's cursor has been returned to the reader. */
  ghost predicate CaughtUp(q: seq<Item>, cursor: Option<Str>, seen: set<Str>) {
    cursor.Some? && cursor.value != [] ==>
      forall j :: 0 <= j < |q| && q[j].envelope.id == cursor.value ==> Ids(q[..j + 1]) <= seen
  }

  lemma CaughtUpAppend(q: seq<Item>, x: Item, cursor: Option<Str>, seen: set<Str>)
    ensures CaughtUp(q + [x], cursor, seen) <==>
      CaughtUp(q, cursor, seen) &&
      (cursor == Some(x.envelope.id) && x.envelope.id != [] ==> Ids(q + [x]) <= seen)
  {
    var r := q + [x];
    assert r[..|q| + 1] == r && r[|q|] == x;
    forall j | 0 <= j < |q| ensures Ids(r[..j + 1]) == Ids(q[..j + 1]) && r[j] == q[j] {
      assert r[..j + 1] == q[..j + 1];
    }
  }

  lemma {:induction false} CaughtUpLive(q: seq<Item>, cutoff: int, cursor: Option<Str>, seen: set<Str>)
    requires CaughtUp(q, cursor, seen)
    ensures CaughtUp(Live(q, cutoff), cursor, seen)
  {
    if q != [] {
      var rest, last := q[..|q| - 1], q[|q| - 1];
      assert q == rest + [last];
      CaughtUpAppend(rest, last, cursor, seen);
      CaughtUpLive(rest, cutoff, cursor, seen);
      CaughtUpAppend(Live(rest, cutoff), last, cursor, seen);
      assert Ids(Live(rest, cutoff) + [last]) <= Ids(q);
      assert Live(rest, cutoff) + [] == Live(rest, cutoff);
    }
  }

  lemma {:induction false} CaughtUpDropping(q: seq<Item>, id: Str, cursor: Option<Str>, seen: set<Str>)
    requires CaughtUp(q, cursor, seen)
    ensures CaughtUp(Dropping(q, id), cursor, seen)
  {
    if q != [] {
      var rest, last := q[..|q| - 1], q[|q| - 1];
      assert q == rest + [last];
      CaughtUpAppend(rest, last, cursor, seen);
      CaughtUpDropping(rest, id, cursor, seen);
      CaughtUpAppend(Dropping(rest, id), last, cursor, seen);
      assert Ids(Dropping(rest, id) + [last]) <= Ids(q);
      assert Dropping(rest, id) + [] == Dropping(rest, id);
    }
  }

  /** The only move that can mislead a reader: putting the id it holds as cursor back at the tail. */
  predicate PutsBack(q: seq<Item>, c: Config, move: QueueMove, now: int, cursor: Option<Str>) {
    move.Serve? && cursor == Some(move.env.id) && move.env.id !in Ids(Live(q, Cutoff(c, now)))
  }

  lemma MoveKeepsCaughtUp(q: seq<Item>, c: Config, move: QueueMove, now: int, cursor: Option<Str>, seen: set<Str>)
    requires CaughtUp(q, cursor, seen) && !PutsBack(q, c, move, now, cursor)
    ensures CaughtUp(ApplyMove(q, c, move, now), cursor, seen)
  {
    CaughtUpLive(q, Cutoff(c, now), cursor, seen);
    if move.Drop? { CaughtUpDropping(q, move.id, cursor, seen); }
    if move.Serve? { CaughtUpAppend(Live(q, Cutoff(c, now)), Item(move.env, now), cursor, seen); }
  }

  lemma StartIsSeen(q: seq<Item>, cursor: Option<Str>, seen: set<Str>)
    requires CaughtUp(q, cursor, seen)
    ensures Ids(q[..PageStart(q, cursor)]) <= seen
  {
  }

  lemma CursorAtEnd(q: seq<Item>, end: nat, seen: set<Str>)
    requires Distinct(q) && 0 < end <= |q| && Ids(q[..end]) <= seen
    ensures CaughtUp(q, Some(q[end - 1].envelope.id), seen)
  {
    forall j | 0 <= j < |q| && q[j].envelope.id == q[end - 1].envelope.id
      ensures Ids(q[..j + 1]) <= seen
    {
      assert j == end - 1;
    }
  }

  lemma PageCovers(q: seq<Item>, start: nat, end: nat, seen: set<Str>)
    requires start <= end <= |q| && Ids(q[..start]) <= seen
    ensures Ids(q[..end]) <= seen + Ids(q[start..end])
  {
    IdsConcat(q[..start], q[start..end]);
    assert q[..end] == q[..start] + q[start..end];
  }

  /** A returned page continues where the reader stood, so nothing is passed over. */
  lemma PageAdvances(q: seq<Item>, cursor: Option<Str>, parsed: Option<int>, seen: set<Str>)
    requires Distinct(q) && CaughtUp(q, cursor, seen)
    ensures CaughtUp(q, NextCursor(Page(q, cursor, parsed), cursor), seen + Ids(Page(q, cursor, parsed)))
  {
    var page := Page(q, cursor, parsed);
    if page == [] {
      assert seen + Ids(page) == seen;
    } else {
      var start := PageStart(q, cursor);
      var end := PageEnd(q, start, PageLimit(parsed));
      StartIsSeen(q, cursor, seen);
      PageCovers(q, start, end, seen);
      assert page[|page| - 1] == q[end - 1];
      CursorAtEnd(q, end, seen + Ids(page));
    }
  }

  /** A page shorter than a positive limit ends the queue: everything queued has been returned. */
  lemma ShortPageCompletes(q: seq<Item>, cursor: Option<Str>, parsed: Option<int>, seen: set<Str>)
    requires CaughtUp(q, cursor, seen)
    requires PageLimit(parsed) > |Page(q, cursor, parsed)|
    ensures Ids(q) <= seen + Ids(Page(q, cursor, parsed))
  {
    var start := PageStart(q, cursor);
    StartIsSeen(q, cursor, seen);
    PageCovers(q, start, |q|, seen);
    assert q[..|q|] == q;
    assert Page(q, cursor, parsed) == q[start..|q|];
  }

  /** A cursor that is no longer queued only restarts the reader from the head. */
  lemma LostCursorRestarts(q: seq<Item>, cursor: Str, parsed: Option<int>)
    requires cursor !in Ids(q)
    ensures Page(q, Some(cursor), parsed) == Page(q, None, parsed)
  {
    assert forall i :: 0 <= i < |q| ==> q[i].envelope.id in Ids(q);
    assert PageStart(q, Some(cursor)) == 0;
  }

  /** A page starts after the cursor and holds as many messages as were asked for, or all that are left:
      50 when nothing usable was asked for, and never more than 500. A negative number counts back from
      the end of the queue while the reader has not passed that many messages, and from then on the page
      is empty. */
  lemma PageIsFilled(q: seq<Item>, cursor: Option<Str>, parsed: Option<int>)
    ensures var asked := if parsed.None? || parsed.value == 0 then 50 else parsed.value;
      var page, start := Page(q, cursor, parsed), PageStart(q, cursor);
      var left := |q| - start;
      |page| <= left && page == q[start..start + |page|] &&
      (asked > 0 ==> |page| == Min(Min(asked, 500), left)) &&
      (asked < 0 && start + asked >= 0 ==> page == []) &&
      (asked < 0 && start + asked < 0 ==> |page| == Max(0, |q| + asked))
  {
  }

  function Min(a: int, b: int): int {
    if a < b then a else b
  }

  function Max(a: int, b: int): int {
    if a < b then b else a
  }

  /** Why an id must not come back: the cursor found at the tail hides everything queued before it. */
  lemma RestoredCursorHides(q: seq<Item>, x: Item, parsed: Option<int>)
    requires Distinct(q + [x]) && x.envelope.id != []
    ensures Page(q + [x], Some(x.envelope.id), parsed) == []
  {
    assert (q + [x])[|q|] == x;
  }
}
