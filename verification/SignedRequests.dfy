/** The push service accepts a signed request only near its timestamp and only once per id. */
module SignedRequests {
  import opened JsText

  /** Seconds, as Number.parseInt reads them; `None` is NaN. */
  datatype Settings = Settings(skew: Option<int>, idTtl: Option<int>)

  /** Ids with the millisecond at which they lapse. */
  type Ids = map<Str, int>

  datatype Event =
    | Request(id: Str, ts: int, signed: bool)
    | Sweep

  datatype Entry = At(now: int, event: Event)

  datatype Outcome = SkewRefused | Duplicate | BadSignature | Accepted

  function Ttl(c: Settings): int {
    if c.idTtl.Some? && c.idTtl.value > 0 then c.idTtl.value else 300
  }

  function Abs(x: int): nat {
    if x < 0 then -x else x
  }

  /** Both times are floored to seconds. A comparison with NaN is false, so NaN refuses nothing. */
  predicate InSkew(c: Settings, now: int, ts: int) {
    c.skew.Some? ==> Abs(now / 1000 - ts / 1000) <= c.skew.value
  }

  function Swept(ids: Ids, now: int): Ids {
    map id | id in ids && ids[id] > now :: ids[id]
  }

  function Verdict(c: Settings, ids: Ids, now: int, id: Str, ts: int, signed: bool): Outcome {
    if !InSkew(c, now, ts) then SkewRefused
    else if id in Swept(ids, now) then Duplicate
    else if !signed then BadSignature
    else Accepted
  }

  function Step(c: Settings, ids: Ids, entry: Entry): Ids {
    match entry.event
    case Sweep => Swept(ids, entry.now)
    case Request(id, ts, signed) =>
      match Verdict(c, ids, entry.now, id, ts, signed)
      case SkewRefused => ids
      case Duplicate => Swept(ids, entry.now)
      case BadSignature => Swept(ids, entry.now)[id := entry.now + Ttl(c) * 1000]
      case Accepted => Swept(ids, entry.now)[id := entry.now + Ttl(c) * 1000]
  }

  function After(c: Settings, run: seq<Entry>): Ids {
    if run == [] then map[] else Step(c, After(c, run[..|run| - 1]), run[|run| - 1])
  }

  ghost predicate ClockRuns(run: seq<Entry>) {
    forall i, j :: 0 <= i < j < |run| ==> run[i].now <= run[j].now
  }

  /** The request passes the skew check and acquires its id, whatever its signature is. */
  predicate Passes(c: Settings, run: seq<Entry>, i: nat)
    requires i < |run|
  {
    run[i].event.Request? &&
    Verdict(c, After(c, run[..i]), run[i].now, run[i].event.id, run[i].event.ts, true) == Accepted
  }

  ghost predicate Replayed(c: Settings, run: seq<Entry>, i: nat, j: nat) {
    i < j < |run| && Passes(c, run, i) && Passes(c, run, j) &&
    run[i].event.id == run[j].event.id && run[i].event.ts == run[j].event.ts
  }

  /** An id once acquired stays in the table until its time is over. */
  lemma {:induction false} IdIsHeld(c: Settings, run: seq<Entry>, i: nat, n: nat)
    requires ClockRuns(run) && i < n <= |run| && Passes(c, run, i)
    ensures var lapses := run[i].now + Ttl(c) * 1000;
      run[n - 1].now >= lapses ||
      (run[i].event.id in After(c, run[..n]) && After(c, run[..n])[run[i].event.id] >= lapses)
  {
    assert run[..n][..n - 1] == run[..n - 1];
    if i < n - 1 {
      IdIsHeld(c, run, i, n - 1);
      assert run[n - 2].now <= run[n - 1].now;
    }
  }

  /** Two requests that acquire the same id are at least its lifetime apart, whatever they carry. */
  lemma AcquisitionsApart(c: Settings, run: seq<Entry>, i: nat, j: nat)
    requires ClockRuns(run) && i < j < |run| && Passes(c, run, i) && Passes(c, run, j)
    requires run[i].event.id == run[j].event.id
    ensures run[j].now >= run[i].now + Ttl(c) * 1000
  {
    IdIsHeld(c, run, i, j);
    assert run[j - 1].now <= run[j].now;
  }

  lemma SecondsApart(a: int, b: int, seconds: int)
    requires b >= a + seconds * 1000
    ensures b / 1000 >= a / 1000 + seconds
  {
  }

  lemma NoReplayWhenLong(c: Settings, run: seq<Entry>, i: nat, j: nat)
    requires ClockRuns(run) && c.skew.Some? && (c.skew.value < 0 || Ttl(c) > 2 * c.skew.value)
    ensures !Replayed(c, run, i, j)
  {
    if Replayed(c, run, i, j) {
      AcquisitionsApart(c, run, i, j);
      SecondsApart(run[i].now, run[j].now, Ttl(c));
      assert false;
    }
  }

  /** The bound is tight: otherwise the same request passes twice, at the two ends of its window. */
  function ReplayRun(c: Settings, id: Str, ts: int): seq<Entry> {
    var start := if c.skew.Some? then (ts / 1000 - c.skew.value) * 1000 else ts;
    [At(start, Request(id, ts, true)), At(start + Ttl(c) * 1000, Request(id, ts, true))]
  }

  lemma ReplayWhenShort(c: Settings, id: Str, ts: int)
    requires c.skew.None? || 0 <= Ttl(c) <= 2 * c.skew.value
    ensures ClockRuns(ReplayRun(c, id, ts)) && Replayed(c, ReplayRun(c, id, ts), 0, 1)
  {
    var run := ReplayRun(c, id, ts);
    assert run[..0] == [];
    assert run[..1][..0] == [];
    assert After(c, run[..1]) == map[id := run[0].now + Ttl(c) * 1000];
  }

  ghost predicate NeverReplays(c: Settings) {
    forall run, i, j :: ClockRuns(run) ==> !Replayed(c, run, i, j)
  }

  /** No request passes twice, in any run, exactly when the skew is a number and either negative or
      less than half the lifetime of an id. */
  lemma NeverReplaysIff(c: Settings)
    ensures NeverReplays(c) <==> c.skew.Some? && (c.skew.value < 0 || Ttl(c) > 2 * c.skew.value)
  {
    if c.skew.Some? && (c.skew.value < 0 || Ttl(c) > 2 * c.skew.value) {
      forall run, i: nat, j: nat | ClockRuns(run) ensures !Replayed(c, run, i, j) {
        NoReplayWhenLong(c, run, i, j);
      }
    } else {
      ReplayWhenShort(c, [], 0);
    }
  }

  /** The defaults of push.js: 120 seconds of skew, 300 seconds of lifetime. */
  lemma DefaultsAreSafe()
    ensures NeverReplays(Settings(Some(120), Some(300)))
    ensures !NeverReplays(Settings(Some(150), Some(300)))
  {
    NeverReplaysIff(Settings(Some(120), Some(300)));
    NeverReplaysIff(Settings(Some(150), Some(300)));
  }

  class SignedRequestVerifier {
    const settings: Settings
    var signedRequestIds: Ids

    constructor (settings: Settings)
      ensures this.settings == settings && signedRequestIds == map[]
    {
      this.settings, signedRequestIds := settings, map[];
    }

    /** cleanupSignedRequestIds. */
    method CleanupSignedRequestIds(now: int)
      modifies this`signedRequestIds
      ensures signedRequestIds == Swept(old(signedRequestIds), now)
    {
      var todo := signedRequestIds.Keys;
      while todo != {}
        invariant todo <= signedRequestIds.Keys <= old(signedRequestIds).Keys
        invariant forall id :: id in old(signedRequestIds) ==>
                    (id in signedRequestIds <==> id in todo || old(signedRequestIds)[id] > now)
        invariant forall id :: id in signedRequestIds ==> signedRequestIds[id] == old(signedRequestIds)[id]
        decreases todo
      {
        var id :| id in todo;
        todo := todo - {id};
        if signedRequestIds[id] <= now {
          signedRequestIds := signedRequestIds - {id};
        }
      }
    }

    /** tryAcquireSignedRequestId. */
    method TryAcquire(id: Str, now: int) returns (acquired: bool)
      modifies this`signedRequestIds
      ensures acquired == (id !in Swept(old(signedRequestIds), now))
      ensures signedRequestIds ==
        if acquired then Swept(old(signedRequestIds), now)[id := now + Ttl(settings) * 1000]
        else Swept(old(signedRequestIds), now)
    {
      CleanupSignedRequestIds(now);
      if id in signedRequestIds { return false; }
      var ttlSeconds := if settings.idTtl.Some? && settings.idTtl.value > 0 then settings.idTtl.value else 300;
      signedRequestIds := signedRequestIds[id := now + ttlSeconds * 1000];
      return true;
    }

    /** requireSignedRequest on a well-formed body. */
    method RequireSignedRequest(id: Str, ts: int, signed: bool, now: int) returns (outcome: Outcome)
      modifies this`signedRequestIds
      ensures outcome == Verdict(settings, old(signedRequestIds), now, id, ts, signed)
      ensures signedRequestIds == Step(settings, old(signedRequestIds), At(now, Request(id, ts, signed)))
    {
      var nowSec := now / 1000;
      var tsSec := ts / 1000;
      if settings.skew.Some? && Abs(nowSec - tsSec) > settings.skew.value { return SkewRefused; }
      var acquired := TryAcquire(id, now);
      if !acquired { return Duplicate; }
      return if signed then Accepted else BadSignature;
    }
  }

  /** The answer to each request: accepted only near its timestamp, with an id that is unknown or lapsed, and
      signed. Whatever passes the first two checks takes its id, for five minutes unless a positive lifetime
      is set. */
  lemma RequestAnswer(c: Settings, ids: Ids, now: int, id: Str, ts: int, signed: bool)
    ensures var outcome, after := Verdict(c, ids, now, id, ts, signed), Step(c, ids, At(now, Request(id, ts, signed)));
      var apart := now / 1000 - ts / 1000;
      var near := c.skew.None? || -c.skew.value <= apart <= c.skew.value;
      var free := id !in ids || ids[id] <= now;
      var seconds := if c.idTtl.Some? && c.idTtl.value >= 1 then c.idTtl.value else 300;
      outcome == (if !near then SkewRefused else if !free then Duplicate else if !signed then BadSignature
                  else Accepted) &&
      (outcome == Accepted ==> signed) && (near && free ==> id in after && after[id] == now + 1000 * seconds) &&
      (!near ==> after == ids) &&
      forall k :: k in ids && k != id && now < ids[k] ==> k in after && after[k] == ids[k]
  {
  }
}
