/** The signaling server accepts a signed register frame only near its timestamp and only while its
    nonce is not in the table. The table keeps the client's timestamp, not the time of arrival. */
module RegisterNonces {
  import opened JsText

  /** Milliseconds. */
  datatype Limits = Limits(maxSkew: int, nonceTtl: int)

  const SIGNAL_LIMITS := Limits(30_000, 120_000)

  type Nonces = map<Str, real>

  /** A register frame with well-formed fields; `signed` says whether its signature verifies. */
  datatype Entry = At(now: int, nonce: Str, ts: real, signed: bool)

  datatype Outcome = OutsideSkew | NonceUsed | NotVerified | Registered

  function Abs(x: real): real {
    if x < 0.0 then -x else x
  }

  function Swept(c: Limits, table: Nonces, now: int): Nonces {
    map n | n in table && now as real - table[n] <= c.nonceTtl as real :: table[n]
  }

  function Verdict(c: Limits, table: Nonces, e: Entry): Outcome {
    if Abs(e.now as real - e.ts) > c.maxSkew as real then OutsideSkew
    else if e.nonce in Swept(c, table, e.now) then NonceUsed
    else if !e.signed then NotVerified
    else Registered
  }

  /** The nonce is recorded only once the signature has verified. */
  function Step(c: Limits, table: Nonces, e: Entry): Nonces {
    var kept := Swept(c, table, e.now);
    if Verdict(c, table, e) == Registered then kept[e.nonce := e.ts] else kept
  }

  function After(c: Limits, run: seq<Entry>): Nonces {
    if run == [] then map[] else Step(c, After(c, run[..|run| - 1]), run[|run| - 1])
  }

  ghost predicate ClockRuns(run: seq<Entry>) {
    forall i, j :: 0 <= i < j < |run| ==> run[i].now <= run[j].now
  }

  predicate Accepts(c: Limits, run: seq<Entry>, i: nat)
    requires i < |run|
  {
    Verdict(c, After(c, run[..i]), run[i]) == Registered
  }

  ghost predicate Replayed(c: Limits, run: seq<Entry>, i: nat, j: nat) {
    i < j < |run| && Accepts(c, run, i) && Accepts(c, run, j) && run[i].nonce == run[j].nonce && run[i].ts == run[j].ts
  }

  /** The nonce is kept with its timestamp until the clock is a lifetime past that timestamp. */
  lemma {:induction false} NonceIsHeld(c: Limits, run: seq<Entry>, i: nat, n: nat)
    requires ClockRuns(run) && i < n <= |run| && Accepts(c, run, i)
    ensures run[n - 1].now as real - run[i].ts > c.nonceTtl as real ||
      (run[i].nonce in After(c, run[..n]) && After(c, run[..n])[run[i].nonce] == run[i].ts)
  {
    assert run[..n][..n - 1] == run[..n - 1];
    if i < n - 1 {
      NonceIsHeld(c, run, i, n - 1);
      assert run[n - 2].now <= run[n - 1].now;
    }
  }

  /** A nonce is accepted again only when its first timestamp is more than a lifetime in the past. */
  lemma ReuseIsLate(c: Limits, run: seq<Entry>, i: nat, j: nat)
    requires ClockRuns(run) && i < j < |run| && Accepts(c, run, i) && Accepts(c, run, j) && run[i].nonce == run[j].nonce
    ensures run[j].now as real - run[i].ts > c.nonceTtl as real
    ensures run[j].ts - run[i].ts > (c.nonceTtl - c.maxSkew) as real
  {
    NonceIsHeld(c, run, i, j);
    assert run[j - 1].now <= run[j].now;
  }

  ghost predicate NeverReplays(c: Limits) {
    forall run, i, j :: ClockRuns(run) ==> !Replayed(c, run, i, j)
  }

  function ReplayRun(c: Limits, nonce: Str, ts: int): seq<Entry> {
    [At(ts, nonce, ts as real, true), At(ts + c.maxSkew, nonce, ts as real, true)]
  }

  lemma ReplayWhenShort(c: Limits, nonce: Str, ts: int)
    requires 0 <= c.maxSkew && c.nonceTtl < c.maxSkew
    ensures ClockRuns(ReplayRun(c, nonce, ts)) && Replayed(c, ReplayRun(c, nonce, ts), 0, 1)
  {
    var run := ReplayRun(c, nonce, ts);
    assert run[..0] == [];
    assert run[..1][..0] == [];
    assert After(c, run[..1]) == map[nonce := ts as real];
  }

  /** No (nonce, timestamp) pair is accepted twice, in any run, exactly when a nonce lives at least as
      long as the skew that is allowed. */
  lemma NeverReplaysIff(c: Limits)
    ensures NeverReplays(c) <==> c.maxSkew < 0 || c.nonceTtl >= c.maxSkew
  {
    if c.maxSkew < 0 || c.nonceTtl >= c.maxSkew {
      forall run, i: nat, j: nat | ClockRuns(run) ensures !Replayed(c, run, i, j) {
        NoReplayWhenLong(c, run, i, j);
      }
    } else {
      ReplayWhenShort(c, [], 0);
    }
  }

  lemma NoReplayWhenLong(c: Limits, run: seq<Entry>, i: nat, j: nat)
    requires ClockRuns(run) && (c.maxSkew < 0 || c.nonceTtl >= c.maxSkew)
    ensures !Replayed(c, run, i, j)
  {
    if Replayed(c, run, i, j) {
      ReuseIsLate(c, run, i, j);
      assert false;
    }
  }

  /** With the server's limits no pair is accepted twice, and a nonce comes back only with a timestamp
      more than 90 seconds newer. */
  lemma SignalNeverReplays(run: seq<Entry>, i: nat, j: nat)
    requires ClockRuns(run) && i < j < |run| && Accepts(SIGNAL_LIMITS, run, i) && Accepts(SIGNAL_LIMITS, run, j)
    requires run[i].nonce == run[j].nonce
    ensures run[j].ts > run[i].ts + 90_000.0
  {
    ReuseIsLate(SIGNAL_LIMITS, run, i, j);
  }

  /** And then it does come back: the same nonce is accepted with a new timestamp. */
  lemma NonceComesBack(nonce: Str, first: Entry, second: Entry)
    requires first.nonce == nonce && second.nonce == nonce && first.signed && second.signed
    requires Abs(first.now as real - first.ts) <= 30_000.0 && Abs(second.now as real - second.ts) <= 30_000.0
    ensures Accepts(SIGNAL_LIMITS, [first, second], 1) <==> second.now as real - first.ts > 120_000.0
  {
    var run := [first, second];
    assert run[..1][..0] == [] && run[..1] == [first];
    assert After(SIGNAL_LIMITS, run[..1]) == map[nonce := first.ts];
  }

  class NonceTable {
    const limits: Limits
    var recentNonces: Nonces

    constructor (limits: Limits)
      ensures this.limits == limits && recentNonces == map[]
    {
      this.limits, recentNonces := limits, map[];
    }

    /** cleanupExpiredNonces. */
    method CleanupExpiredNonces(now: int)
      modifies this`recentNonces
      ensures recentNonces == Swept(limits, old(recentNonces), now)
    {
      var todo := recentNonces.Keys;
      while todo != {}
        invariant todo <= recentNonces.Keys <= old(recentNonces).Keys
        invariant forall n :: n in old(recentNonces) ==>
                    (n in recentNonces <==> n in todo || now as real - old(recentNonces)[n] <= limits.nonceTtl as real)
        invariant forall n :: n in recentNonces ==> recentNonces[n] == old(recentNonces)[n]
        decreases todo
      {
        var n :| n in todo;
        todo := todo - {n};
        if now as real - recentNonces[n] > limits.nonceTtl as real {
          recentNonces := recentNonces - {n};
        }
      }
    }

    /** verifyRegisterAuth on well-formed fields. */
    method VerifyRegisterAuth(nonce: Str, ts: real, signed: bool, now: int) returns (outcome: Outcome)
      modifies this`recentNonces
      ensures outcome == Verdict(limits, old(recentNonces), At(now, nonce, ts, signed))
      ensures recentNonces == Step(limits, old(recentNonces), At(now, nonce, ts, signed))
    {
      CleanupExpiredNonces(now);
      if Abs(now as real - ts) > limits.maxSkew as real { return OutsideSkew; }
      if nonce in recentNonces { return NonceUsed; }
      if !signed { return NotVerified; }
      recentNonces := recentNonces[nonce := ts];
      return Registered;
    }
  }

  /** The answer to each frame: accepted exactly if it comes near its timestamp, its nonce is not in the table
      or out of date, and it is signed; only then is the nonce recorded. */
  lemma FrameAnswer(c: Limits, table: Nonces, e: Entry)
    ensures var apart := e.now as real - e.ts;
      var near := -(c.maxSkew as real) <= apart <= c.maxSkew as real;
      var free := e.nonce !in table || c.nonceTtl as real < e.now as real - table[e.nonce];
      Verdict(c, table, e) == (if !near then OutsideSkew else if !free then NonceUsed
                               else if !e.signed then NotVerified else Registered) &&
      (Verdict(c, table, e) == Registered ==> e.signed) &&
      (e.nonce in Step(c, table, e) <==> Verdict(c, table, e) == Registered || !free)
  {
  }

  lemma SignalLimits()
    ensures SIGNAL_LIMITS.maxSkew == 30_000 && SIGNAL_LIMITS.nonceTtl == 120_000
  {
  }
}
