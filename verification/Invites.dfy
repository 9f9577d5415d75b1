/** The invite service: invites in memory, the file they are written to, and the creation limit. */
module Invites {
  import opened JsText
  import opened JsonText
  import opened CanonicalJson
  import opened Manifests
  import opened InviteWrites

  datatype Invite = Invite(manifest: Json, expiresAtMs: int)

  type Book = map<Str, Invite>

  /** verifiedManifest with the signature check filled in. */
  type Check = Json -> bool

  ghost predicate ChecksManifests(check: Check, verify: Verify) {
    forall v :: check(v) <==> Verified(verify, v)
  }

  /** The fields the server adds do not matter. */
  ghost predicate IgnoresServerFields(check: Check) {
    forall v, inviteId, expiration :: check(Stored(v, inviteId, expiration)) <==> check(v)
  }

  lemma ManifestCheck(check: Check, verify: Verify)
    requires ChecksManifests(check, verify)
    ensures IgnoresServerFields(check)
  {
    forall v, inviteId, expiration ensures check(Stored(v, inviteId, expiration)) <==> check(v) {
      StoredVerified(verify, v, inviteId, expiration);
    }
  }

  /** What an accepted body is, and what it still is once the server has added its fields. */
  lemma AcceptedBody(check: Check, verify: Verify, body: Json, inviteId: Str, expiration: Str)
    requires ChecksManifests(check, verify) && WellFormed(body)
    ensures check(body) <==> ProperFields(body) && SignedManifest(verify, body)
    ensures WellFormed(Stored(body, inviteId, expiration))
    ensures check(body) ==> check(Stored(body, inviteId, expiration))
  {
    AcceptedIff(verify, body);
    ManifestCheck(check, verify);
    StoredWellFormed(body, inviteId, expiration);
  }

  lemma AddedIsSound(check: Check, book: Book, now: int, token: Str, invite: Invite)
    requires Sound(check, book) && WellFormed(invite.manifest) && check(invite.manifest)
    ensures Sound(check, Unexpired(book, now)[token := invite])
  {
  }

  const MANIFEST := Ascii("manifest")
  const EXPIRES_AT_MS := Ascii("expiresAtMs")
  const HOUR := 3_600_000

  // ----- numbers in the file -----

  function Digits(n: nat): Str {
    if n < 10 then [48 + n] else Digits(n / 10) + [48 + n % 10]
  }

  function Decimal(n: int): Str {
    if n < 0 then [45] + Digits(-n) else Digits(n)
  }

  function DigitsValue(s: Str): Option<int> {
    if s == [] then Some(0) else
      var high := DigitsValue(s[..|s| - 1]);
      var d := s[|s| - 1];
      if high.Some? && 48 <= d <= 57 then Some(high.value * 10 + d - 48) else None
  }

  function NumberValue(s: Str): Option<int> {
    if s != [] && s[0] == 45 then
      var v := DigitsValue(s[1..]);
      if v.Some? then Some(-v.value) else None
    else DigitsValue(s)
  }

  lemma {:induction false} DigitsRead(n: nat)
    ensures DigitsValue(Digits(n)) == Some(n) && Digits(n) != []
    ensures forall i :: 0 <= i < |Digits(n)| ==> 48 <= Digits(n)[i] <= 57
  {
    var s := Digits(n);
    if n < 10 {
      assert s[..0] == [];
    } else {
      DigitsRead(n / 10);
      assert s[..|s| - 1] == Digits(n / 10);
    }
  }

  lemma DecimalRead(n: int)
    ensures NumberValue(Decimal(n)) == Some(n) && NumText(Decimal(n))
  {
    DigitsRead(if n < 0 then -n else n);
    if n < 0 { assert Decimal(n)[1..] == Digits(-n); }
  }

  /** Decimal digits, the last one counts least. */
  lemma DigitsAre(d: int, e: int, f: int)
    requires 0 <= d < 10 && 0 <= e < 10 && 0 <= f < 10
    ensures NumberValue([48 + d, 48 + e, 48 + f]) == Some(d * 100 + e * 10 + f)
    ensures NumberValue([45, 48 + d]) == Some(-d)
    ensures Ascii("-0") == [45, 48] && Ascii("9") == [48 + 9]
  {
    var a, b, c := [48 + d], [48 + d, 48 + e], [48 + d, 48 + e, 48 + f];
    assert a[..0] == [] && b[..1] == a && c[..2] == b;
    assert DigitsValue([]) == Some(0) && DigitsValue(a) == Some(d) && DigitsValue(b) == Some(d * 10 + e);
    assert [45, 48 + d][1..] == a;
  }

  // ----- writing and reading the file -----

  function RecordJson(r: Invite): Json {
    Obj(Field(MANIFEST, r.manifest, Field(EXPIRES_AT_MS, Num(Decimal(r.expiresAtMs)), Empty)))
  }

  /** Object.fromEntries(invites), the tokens in the map's order. */
  function FileFields(book: Book, tokens: seq<Str>): Fields
    requires forall t :: t in tokens ==> t in book
  {
    if tokens == [] then Empty else
      assert tokens[0] in tokens;
      Field(tokens[0], RecordJson(book[tokens[0]]), FileFields(book, tokens[1..]))
  }

  function ReadRecord(j: Json): Option<Invite> {
    var manifest, expires := Prop(Some(j), MANIFEST), Prop(Some(j), EXPIRES_AT_MS);
    if manifest.Some? && expires.Some? && expires.value.Num? && NumberValue(expires.value.text).Some?
    then Some(Invite(manifest.value, NumberValue(expires.value.text).value))
    else None
  }

  predicate Restorable(check: Check, j: Json, now: int) {
    var r := ReadRecord(j);
    r.Some? && r.value.expiresAtMs > now && check(r.value.manifest)
  }

  /** The restore loop over the properties of the file. */
  function Restored(check: Check, f: Fields, now: int): Book {
    match f
    case Empty => map[]
    case Field(t, j, rest) =>
      if Restorable(check, j, now) then map[t := ReadRecord(j).value] + Restored(check, rest, now)
      else Restored(check, rest, now)
  }

  function Unexpired(book: Book, now: int): Book {
    map t | t in book && book[t].expiresAtMs > now :: book[t]
  }

  /** Every invite in memory would be accepted again. */
  ghost predicate Sound(check: Check, book: Book) {
    forall t :: t in book ==> WellFormed(book[t].manifest) && check(book[t].manifest)
  }

  ghost predicate Listing(book: Book, tokens: seq<Str>) {
    (forall t :: t in tokens <==> t in book) && (forall i, j :: 0 <= i < j < |tokens| ==> tokens[i] != tokens[j])
  }

  lemma RecordRead(r: Invite)
    requires WellFormed(r.manifest)
    ensures ReadRecord(RecordJson(r)) == Some(r) && WellFormed(RecordJson(r))
  {
    DecimalRead(r.expiresAtMs);
    assert |MANIFEST| == 8 && |EXPIRES_AT_MS| == 11;
    var j := RecordJson(r);
    var inner := Field(EXPIRES_AT_MS, Num(Decimal(r.expiresAtMs)), Empty);
    assert WellFormedFields(Empty) && Keys(inner) == {EXPIRES_AT_MS};
    assert Get(inner, EXPIRES_AT_MS) == Num(Decimal(r.expiresAtMs));
    assert MANIFEST != EXPIRES_AT_MS && WellFormedFields(inner);
    assert WellFormedFields(Field(MANIFEST, r.manifest, inner));
    assert Prop(Some(j), MANIFEST) == Some(r.manifest);
    assert Prop(Some(j), EXPIRES_AT_MS) == Some(Num(Decimal(r.expiresAtMs)));
  }

  /** A record in the file has its manifest and its time under these names. */
  lemma RecordProperties(r: Invite)
    ensures Prop(Some(RecordJson(r)), Ascii("manifest")) == Some(r.manifest)
    ensures Prop(Some(RecordJson(r)), Ascii("expiresAtMs")) == Some(Num(Decimal(r.expiresAtMs)))
  {
    FileNames();
    assert |MANIFEST| == 8 && |EXPIRES_AT_MS| == 11;
    var inner := Field(EXPIRES_AT_MS, Num(Decimal(r.expiresAtMs)), Empty);
    assert Keys(inner) == {EXPIRES_AT_MS} && Get(inner, EXPIRES_AT_MS) == Num(Decimal(r.expiresAtMs));
  }

  lemma FileNames()
    ensures MANIFEST == Ascii("manifest") && EXPIRES_AT_MS == Ascii("expiresAtMs")
  {
  }

  lemma {:induction false} FileWellFormed(check: Check, book: Book, tokens: seq<Str>)
    requires Sound(check, book) && (forall t :: t in tokens ==> t in book)
    requires forall i, j :: 0 <= i < j < |tokens| ==> tokens[i] != tokens[j]
    ensures WellFormedFields(FileFields(book, tokens))
    ensures forall t :: t in Keys(FileFields(book, tokens)) <==> t in tokens
  {
    if tokens != [] {
      assert tokens[0] in tokens && tokens == [tokens[0]] + tokens[1..];
      FileWellFormed(check, book, tokens[1..]);
      RecordRead(book[tokens[0]]);
    }
  }

  lemma {:induction false} FileRestored(check: Check, book: Book, tokens: seq<Str>, now: int, t: Str)
    requires Sound(check, book) && (forall t :: t in tokens ==> t in book)
    ensures t in Restored(check, FileFields(book, tokens), now) <==> t in tokens && book[t].expiresAtMs > now
    ensures t in Restored(check, FileFields(book, tokens), now) ==>
      Restored(check, FileFields(book, tokens), now)[t] == book[t]
  {
    if tokens != [] {
      assert tokens[0] in tokens && tokens == [tokens[0]] + tokens[1..];
      FileRestored(check, book, tokens[1..], now, t);
      RecordRead(book[tokens[0]]);
    }
  }

  /** A restart finds exactly the invites that have not expired, each with the manifest stored for it. */
  lemma RestartKeepsInvites(check: Check, book: Book, tokens: seq<Str>, now: int)
    requires Sound(check, book) && Listing(book, tokens)
    ensures var file := Parse(Raw(Obj(FileFields(book, tokens))));
      file.Some? && file.value.Obj? && Restored(check, file.value.fields, now) == Unexpired(book, now)
  {
    FileWellFormed(check, book, tokens);
    ParseInvertsRaw(Obj(FileFields(book, tokens)));
    var restored := Restored(check, FileFields(book, tokens), now);
    forall t ensures t in restored <==> t in Unexpired(book, now) {
      FileRestored(check, book, tokens, now, t);
    }
    forall t | t in restored ensures restored[t] == Unexpired(book, now)[t] {
      FileRestored(check, book, tokens, now, t);
    }
  }

  // ----- the creation limit -----

  function Recent(bucket: seq<int>, now: int): seq<int> {
    if bucket == [] then [] else
      Recent(bucket[..|bucket| - 1], now) + if now - bucket[|bucket| - 1] < HOUR then [bucket[|bucket| - 1]] else []
  }

  /** A request of one address, with a manifest that verifies or does not. */
  datatype Attempt = Attempt(now: int, verified: bool)

  function BucketAfter(limit: int, run: seq<Attempt>): seq<int> {
    if run == [] then [] else
      var bucket, a := BucketAfter(limit, run[..|run| - 1]), run[|run| - 1];
      if |Recent(bucket, a.now)| >= limit || !a.verified then bucket else Recent(bucket, a.now) + [a.now]
  }

  /** When the accepted requests of a run came. */
  function AcceptedAt(limit: int, run: seq<Attempt>): seq<int> {
    if run == [] then [] else
      var before, bucket, a := AcceptedAt(limit, run[..|run| - 1]), BucketAfter(limit, run[..|run| - 1]),
        run[|run| - 1];
      if |Recent(bucket, a.now)| >= limit || !a.verified then before else before + [a.now]
  }

  ghost predicate ClockRuns(run: seq<Attempt>) {
    forall i, j :: 0 <= i < j < |run| ==> run[i].now <= run[j].now
  }

  lemma {:induction false} RecentOfRecent(bucket: seq<int>, earlier: int, now: int)
    requires earlier <= now
    ensures Recent(Recent(bucket, earlier), now) == Recent(bucket, now)
  {
    if bucket != [] {
      var front, last := bucket[..|bucket| - 1], bucket[|bucket| - 1];
      RecentOfRecent(front, earlier, now);
      if now - last < HOUR { RecentAppend(Recent(front, earlier), last, now); }
      else if earlier - last < HOUR { RecentAppend(Recent(front, earlier), last, now); }
      else { assert Recent(bucket, earlier) == Recent(front, earlier); }
    }
  }

  lemma RecentAppend(bucket: seq<int>, at: int, now: int)
    ensures Recent(bucket + [at], now) == Recent(bucket, now) + if now - at < HOUR then [at] else []
  {
    assert (bucket + [at])[..|bucket|] == bucket;
  }

  /** The bucket forgets only what no later window contains. */
  lemma {:induction false} BucketIsExact(limit: int, run: seq<Attempt>, now: int)
    requires ClockRuns(run) && (run != [] ==> run[|run| - 1].now <= now)
    ensures Recent(BucketAfter(limit, run), now) == Recent(AcceptedAt(limit, run), now)
  {
    if run != [] {
      var front, a := run[..|run| - 1], run[|run| - 1];
      assert front != [] ==> run[|front| - 1].now <= a.now;
      BucketIsExact(limit, front, now);
      var bucket := BucketAfter(limit, front);
      if |Recent(bucket, a.now)| < limit && a.verified {
        RecentAppend(Recent(bucket, a.now), a.now, now);
        RecentOfRecent(bucket, a.now, now);
        RecentAppend(AcceptedAt(limit, front), a.now, now);
      }
    }
  }

  lemma {:induction false} RecentShrinks(bucket: seq<int>, earlier: int, now: int)
    requires earlier <= now
    ensures |Recent(bucket, now)| <= |Recent(bucket, earlier)|
  {
    if bucket != [] { RecentShrinks(bucket[..|bucket| - 1], earlier, now); }
  }

  /** How many of these times lie within the hour before now. */
  ghost function WithinHour(times: seq<int>, now: int): set<int> {
    set i | 0 <= i < |times| && now - times[i] < 3_600_000
  }

  lemma {:induction false} RecentCount(times: seq<int>, now: int)
    ensures |Recent(times, now)| == |WithinHour(times, now)|
  {
    if times != [] {
      var n := |times| - 1;
      RecentCount(times[..n], now);
      assert WithinHour(times, now) == WithinHour(times[..n], now) + if now - times[n] < 3_600_000 then {n} else {};
      assert n !in WithinHour(times[..n], now);
    } else {
      assert WithinHour(times, now) == {};
    }
  }

  /** An attempt is turned away exactly if as many as the limit were accepted within the hour before. */
  lemma LimitedIff(limit: int, run: seq<Attempt>, a: Attempt)
    requires ClockRuns(run + [a])
    ensures Verdict(limit, BucketAfter(limit, run), a) == RateLimited <==>
      |WithinHour(AcceptedAt(limit, run), a.now)| >= limit
    ensures |WithinHour(AcceptedAt(limit, run + [a]), a.now)| <= Max(limit, 0)
  {
    var all := run + [a];
    assert forall i :: 0 <= i < |run| ==> all[i] == run[i];
    assert all[|run|] == a;
    BucketIsExact(limit, run, a.now);
    RecentCount(AcceptedAt(limit, run), a.now);
    WithinLimit(limit, all, a.now);
    RecentCount(AcceptedAt(limit, all), a.now);
  }

  function Max(a: int, b: int): int {
    if a < b then b else a
  }

  /** At no time have more than `limit` requests of an address been accepted within the last hour. */
  lemma {:induction false} WithinLimit(limit: int, run: seq<Attempt>, now: int)
    requires ClockRuns(run) && (run != [] ==> run[|run| - 1].now <= now)
    ensures |Recent(AcceptedAt(limit, run), now)| <= if limit < 0 then 0 else limit
  {
    if run != [] {
      var front, a := run[..|run| - 1], run[|run| - 1];
      assert front != [] ==> run[|front| - 1].now <= a.now;
      BucketIsExact(limit, front, a.now);
      WithinLimit(limit, front, a.now);
      RecentShrinks(AcceptedAt(limit, front), a.now, now);
      RecentAppend(AcceptedAt(limit, front), a.now, now);
    }
  }

  // ----- the service -----

  datatype Outcome = RateLimited | InvalidSignature | Created

  function Of<T>(m: map<Str, seq<T>>, address: Str): seq<T> {
    if address in m then m[address] else []
  }

  function WithAttempt(attempts: map<Str, seq<Attempt>>, address: Str, a: Attempt): map<Str, seq<Attempt>> {
    attempts[address := Of(attempts, address) + [a]]
  }

  function Verdict(limit: int, bucket: seq<int>, a: Attempt): Outcome {
    if |Recent(bucket, a.now)| >= limit then RateLimited else if a.verified then Created else InvalidSignature
  }

  /** Every bucket is the one that the attempts of its address leave. */
  ghost predicate BucketsFollow(limit: int, buckets: map<Str, seq<int>>, attempts: map<Str, seq<Attempt>>) {
    forall a :: Of(buckets, a) == BucketAfter(limit, Of(attempts, a))
  }

  /** rateBuckets.set on an accepted attempt. */
  function BucketsAfter(limit: int, buckets: map<Str, seq<int>>, address: Str, a: Attempt): map<Str, seq<int>> {
    var bucket := Of(buckets, address);
    if Verdict(limit, bucket, a) == Created then buckets[address := Recent(bucket, a.now) + [a.now]] else buckets
  }

  /** The accepted attempts are those answered `Created`. */
  lemma AttemptAccepted(limit: int, run: seq<Attempt>, a: Attempt)
    ensures var created := Verdict(limit, BucketAfter(limit, run), a) == Created;
      AcceptedAt(limit, run + [a]) == (AcceptedAt(limit, run) + if created then [a.now] else []) &&
      BucketAfter(limit, run + [a]) ==
        if created then Recent(BucketAfter(limit, run), a.now) + [a.now] else BucketAfter(limit, run)
  {
    assert (run + [a])[..|run|] == run;
  }

  lemma AttemptFollows(limit: int, buckets: map<Str, seq<int>>, attempts: map<Str, seq<Attempt>>, address: Str,
                       a: Attempt)
    requires BucketsFollow(limit, buckets, attempts)
    ensures BucketsFollow(limit, BucketsAfter(limit, buckets, address, a), WithAttempt(attempts, address, a))
    ensures AcceptedAt(limit, Of(WithAttempt(attempts, address, a), address)) ==
      AcceptedAt(limit, Of(attempts, address)) +
        if Verdict(limit, Of(buckets, address), a) == Created then [a.now] else []
  {
    assert Of(buckets, address) == BucketAfter(limit, Of(attempts, address));
    AttemptAccepted(limit, Of(attempts, address), a);
    forall other
      ensures Of(BucketsAfter(limit, buckets, address, a), other) ==
        BucketAfter(limit, Of(WithAttempt(attempts, address, a), other))
    {
      assert Of(buckets, other) == BucketAfter(limit, Of(attempts, other));
    }
  }

  /** /^[A-Za-z0-9_-]{22,128}$/ */
  predicate TokenShape(t: Str) {
    22 <= |t| <= 128 && forall i :: 0 <= i < |t| ==>
      (48 <= t[i] <= 57 || 65 <= t[i] <= 90 || 97 <= t[i] <= 122 || t[i] == 45 || t[i] == 95)
  }

  class InviteService {
    const check: Check

    /** The signature check that `check` makes. */
    ghost const verify: Verify
    const ttlMs: int
    const rateLimit: int
    var invites: Book
    var rateBuckets: map<Str, seq<int>>

    /** The creations each address has attempted since the start. */
    ghost var attempts: map<Str, seq<Attempt>>

    /** What the file holds since the first write of this process. */
    var written: Option<Book>

    /** The changes of the book and the writes of the file since the start. */
    ghost var history: seq<Step<Book>>

    ghost predicate Valid()
      reads this
    {
      Sound(check, invites) && ChecksManifests(check, verify) && BucketsFollow(rateLimit, rateBuckets, attempts) &&
      HistoryFits()
    }

    ghost predicate HistoryFits()
      reads this`invites, this`written, this`history
    {
      Legal(history) && Memory(history) == Some(invites) && written == File(history)
    }

    /** The book has been changed. */
    ghost method NoteChange()
      requires Legal(history) && written == File(history)
      modifies this`history
      ensures HistoryFits() && history == old(history) + [Change(invites)]
    {
      ChangeKeepsFile(history, Change(invites));
      history := history + [Change(invites)];
    }

    /** persist, once its directory is there: the text of the book is taken. */
    method TakeText() returns (text: Book, ghost begun: nat)
      requires Valid()
      modifies this`history
      ensures Valid() && text == invites && begun == |old(history)| && history == old(history) + [Begin]
      ensures IsPending(history, begun) && Memory(history[..begun]) == Some(text)
    {
      text, begun := invites, |history|;
      ChangeKeepsFile(history, Begin);
      FinishedIsPast(history);
      StepPending(history, Begin, begun);
      history := history + [Begin];
      assert history[..begun] == old(history);
    }

    /** The temporary file with that text is renamed into place. */
    method RenameText(text: Book, ghost begun: nat)
      requires Valid() && IsPending(history, begun) && Memory(history[..begun]) == Some(text)
      modifies this`written, this`history
      ensures Valid() && written == Some(text) && history == old(history) + [Finish(begun)]
    {
      FinishPublishes(history, begun);
      written := Some(text);
      history := history + [Finish(begun)];
    }

    /** Startup: what the file holds, or nothing. */
    constructor (verify: Verify, ttlMs: int, rateLimit: int, file: Option<Json>, now: int)
      requires file.Some? ==> WellFormed(file.value)
      ensures this.verify == verify && this.ttlMs == ttlMs && this.rateLimit == rateLimit
      ensures rateBuckets == map[] && attempts == map[] && written == None && history == [Change(invites)]
      ensures invites == if file.Some? && file.value.Obj? then Restored(check, file.value.fields, now) else map[]
      ensures Valid()
    {
      check, this.ttlMs, this.rateLimit := v => Verified(verify, v), ttlMs, rateLimit;
      this.verify := verify;
      rateBuckets, invites, attempts := map[], map[], map[];
      written, history := None, [];
      new;
      if file.Some? && file.value.Obj? {
        Restore(file.value.fields, now);
        RestoredIsSound(check, file.value.fields, now);
      }
      NoteChange();
    }

    /** The loop over the properties of the file. */
    method Restore(entries: Fields, now: int)
      requires invites == map[]
      modifies this`invites
      ensures invites == Restored(check, entries, now)
    {
      var f := entries;
      while f.Field?
        invariant Restored(check, entries, now) == invites + Restored(check, f, now)
        decreases f
      {
        var record := ReadRecord(f.value);
        if record.Some? && record.value.expiresAtMs > now && check(record.value.manifest) {
          invites := invites[f.key := record.value];
        }
        f := f.rest;
      }
    }

    method Prune(now: int)
      modifies this`invites
      ensures invites == Unexpired(old(invites), now)
    {
      var todo := invites.Keys;
      while todo != {}
        invariant todo <= invites.Keys <= old(invites).Keys
        invariant forall t :: t in old(invites) ==> (t in invites <==> t in todo || old(invites)[t].expiresAtMs > now)
        invariant forall t :: t in invites ==> invites[t] == old(invites)[t]
        decreases todo
      {
        var t :| t in todo;
        todo := todo - {t};
        if invites[t].expiresAtMs <= now {
          invites := invites - {t};
        }
      }
    }

    method RecentOf(address: Str, now: int) returns (bucket: seq<int>)
      ensures bucket == Recent(Of(rateBuckets, address), now)
    {
      var all := Of(rateBuckets, address);
      bucket := [];
      for i := 0 to |all|
        invariant bucket == Recent(all[..i], now)
      {
        assert all[..i + 1][..i] == all[..i];
        if now - all[i] < HOUR {
          bucket := bucket + [all[i]];
        }
      }
      assert all[..|all|] == all;
    }

    /** POST /invites. The token, the invite id and the text of the expiration are made by the caller. */
    method Create(body: Json, address: Str, token: Str, inviteId: Str, expiration: Str, now: int)
      returns (outcome: Outcome)
      requires Valid() && WellFormed(body)
      modifies this
      ensures Valid() && attempts == WithAttempt(old(attempts), address, Attempt(now, check(body)))
      ensures outcome == Verdict(rateLimit, Of(old(rateBuckets), address), Attempt(now, check(body)))
      ensures check(body) <==> ProperFields(body) && SignedManifest(verify, body)
      ensures outcome == Created ==>
        rateBuckets == old(rateBuckets)[address := Recent(Of(old(rateBuckets), address), now) + [now]] &&
        invites == Unexpired(old(invites), now)[token := Invite(Stored(body, inviteId, expiration), now + ttlMs)]
      ensures outcome != Created ==> invites == old(invites) && rateBuckets == old(rateBuckets)
      ensures history == if outcome == Created then old(history) + [Change(invites)] else old(history)
      ensures AcceptedAt(rateLimit, Of(attempts, address)) ==
        AcceptedAt(rateLimit, Of(old(attempts), address)) + if outcome == Created then [now] else []
    {
      AcceptedBody(check, verify, body, inviteId, expiration);
      outcome := CountAttempt(body, address, now);
      if outcome == Created {
        AddInvite(token, Stored(body, inviteId, expiration), now);
      }
    }

    /** The limit and the signature; an accepted attempt joins the bucket of its address. */
    method CountAttempt(body: Json, address: Str, now: int) returns (outcome: Outcome)
      requires BucketsFollow(rateLimit, rateBuckets, attempts)
      modifies this`rateBuckets, this`attempts
      ensures BucketsFollow(rateLimit, rateBuckets, attempts)
      ensures attempts == WithAttempt(old(attempts), address, Attempt(now, check(body)))
      ensures outcome == Verdict(rateLimit, Of(old(rateBuckets), address), Attempt(now, check(body)))
      ensures rateBuckets == BucketsAfter(rateLimit, old(rateBuckets), address, Attempt(now, check(body)))
      ensures AcceptedAt(rateLimit, Of(attempts, address)) ==
        AcceptedAt(rateLimit, Of(old(attempts), address)) + if outcome == Created then [now] else []
    {
      AttemptFollows(rateLimit, rateBuckets, attempts, address, Attempt(now, check(body)));
      attempts := WithAttempt(attempts, address, Attempt(now, check(body)));
      var bucket := RecentOf(address, now);
      if |bucket| >= rateLimit { return RateLimited; }
      if !check(body) { return InvalidSignature; }
      bucket := bucket + [now];
      rateBuckets := rateBuckets[address := bucket];
      outcome := Created;
    }

    /** The new invite joins the unexpired ones. */
    method AddInvite(token: Str, manifest: Json, now: int)
      requires HistoryFits() && Sound(check, invites) && WellFormed(manifest) && check(manifest)
      modifies this`invites, this`history
      ensures Sound(check, invites)
      ensures invites == Unexpired(old(invites), now)[token := Invite(manifest, now + ttlMs)]
      ensures HistoryFits() && history == old(history) + [Change(invites)]
    {
      AddedIsSound(check, invites, now, token, Invite(manifest, now + ttlMs));
      Prune(now);
      var expiresAtMs := now + ttlMs;
      invites := invites[token := Invite(manifest, expiresAtMs)];
      NoteChange();
    }

    /** GET /invites/:token. */
    method Fetch(token: Str, now: int) returns (manifest: Option<Json>)
      requires Valid()
      modifies this`invites, this`history
      ensures Valid() && invites == Unexpired(old(invites), now) && history == old(history) + [Change(invites)]
      ensures manifest.Some? <==> TokenShape(token) && token in old(invites) && old(invites)[token].expiresAtMs > now
      ensures manifest.Some? ==> manifest.value == old(invites)[token].manifest && check(manifest.value)
    {
      Prune(now);
      NoteChange();
      if !TokenShape(token) || token !in invites { return None; }
      return Some(invites[token].manifest);
    }
  }

  lemma {:induction false} RestoredIsSound(check: Check, f: Fields, now: int)
    requires WellFormedFields(f)
    ensures Sound(check, Restored(check, f, now))
  {
    if f.Field? {
      RestoredIsSound(check, f.rest, now);
      if Restorable(check, f.value, now) { GetWellFormed(f.value.fields, MANIFEST); }
    }
  }

  /** Tokens have 22 to 128 characters, letters, digits, "_" and "-". */
  lemma TokenShapeIff(t: Str)
    ensures TokenShape(t) <==> 22 <= |t| <= 128 && forall u :: u in t ==> TokenUnit(u)
  {
    if forall u :: u in t ==> TokenUnit(u) {
      forall i | 0 <= i < |t| ensures TokenUnit(t[i]) { assert t[i] in t; }
    }
  }

  predicate TokenUnit(u: Unit) {
    'a' as int <= u <= 'z' as int || 'A' as int <= u <= 'Z' as int || '0' as int <= u <= '9' as int ||
    u == '_' as int || u == '-' as int
  }
}
