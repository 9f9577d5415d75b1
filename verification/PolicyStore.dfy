/** The in-memory branches of the access policy methods: four tables updated together. */
module PolicyStore {
  import opened JsText
  import opened AccessPolicy

  class Policies {
    var pushUserPolicies: map<Str, Row>
    var pushUserContacts: map<Str, set<Str>>
    var pushUserBlocked: map<Str, set<Str>>
    var pushUserNotificationMutes: map<Str, Mutes>

    /** The arrivals so far. */
    ghost var history: seq<Arrival>

    function Now(): State
      reads this
    {
      State(pushUserPolicies, pushUserContacts, pushUserBlocked, pushUserNotificationMutes)
    }

    ghost predicate Valid()
      reads this
    {
      Now() == After(history)
    }

    constructor ()
      ensures Valid() && history == []
    {
      pushUserPolicies, pushUserContacts, pushUserBlocked, pushUserNotificationMutes := map[], map[], map[], map[];
      history := [];
    }

    /** The new snapshot replaces what is stored in all four tables, or in none. */
    method UpsertAccessPolicy(user: Str, s: Snapshot, now: int) returns (result: Upserted)
      requires Valid()
      modifies this
      ensures Valid() && history == old(history) + [Arrival(now, user, s)]
      ensures result == Verdict(old(Now()), user, s)
      ensures result.Stored? ==> View(Now(), user) == Some(PolicyOf(s, now))
      ensures !result.Stored? ==> Now() == old(Now())
    {
      history := history + [Arrival(now, user, s)];
      assert history[..|history| - 1] == old(history);
      var contacts := IdSet(s.contacts);
      var blocked := IdSet(s.blocked);
      var mutes := MutesOf(s);
      var version := if s.version.Some? then s.version.value else 0.0;
      if s.updatedAt.NotADate? { return InvalidUpdatedAt; }
      if user in pushUserPolicies && version < pushUserPolicies[user].version {
        return Stale(pushUserPolicies[user].version, pushUserPolicies[user].hash);
      }
      pushUserPolicies := pushUserPolicies[user := Row(s.onlyContacts, version, s.hash, DateOf(s, now), now)];
      pushUserContacts := pushUserContacts[user := contacts];
      pushUserBlocked := pushUserBlocked[user := blocked];
      pushUserNotificationMutes := pushUserNotificationMutes[user := mutes];
      return Stored(version, s.hash);
    }

    method DecideAccessPolicy(recipient: Str, sender: Str, mute: Option<Mute>, dropMissing: bool) returns (d: Decision)
      requires Valid()
      ensures d == Decide(View(Now(), recipient), sender, mute, dropMissing)
    {
      var policy := View(Now(), recipient);
      if policy.None? { return Decision(!dropMissing, MissingSnapshot, None, [], 0, 0); }
      var p := policy.value;
      if sender in p.blocked { return Decision(false, Blocked, Some(p.version), p.hash, |p.contacts|, |p.blocked|); }
      var muted := MuteDecision(p, mute);
      if muted.Some? { return Decision(false, muted.value, Some(p.version), p.hash, |p.contacts|, |p.blocked|); }
      if !p.onlyContacts { return Decision(true, AllowAll, Some(p.version), p.hash, |p.contacts|, |p.blocked|); }
      if sender in p.contacts { return Decision(true, Contact, Some(p.version), p.hash, |p.contacts|, |p.blocked|); }
      return Decision(false, NotContact, Some(p.version), p.hash, |p.contacts|, |p.blocked|);
    }

    /** filterByAccessPolicy: every recipient ends up allowed or dropped, in the order given, by the
        decision of its own policy. */
    method FilterByAccessPolicy(sender: Str, recipients: seq<Str>, mute: Option<Mute>, dropMissing: bool)
      returns (allowed: seq<Str>, dropped: seq<Refusal>, decisions: seq<Decision>)
      requires Valid()
      ensures |decisions| == |recipients|
      ensures forall i :: 0 <= i < |recipients| ==>
                decisions[i] == Decide(View(Now(), recipients[i]), sender, mute, dropMissing)
      ensures allowed == AllowedOf(recipients, decisions)
      ensures dropped == DroppedOf(recipients, decisions)
    {
      allowed, dropped, decisions := [], [], [];
      for i := 0 to |recipients|
        invariant |decisions| == i && EachDecided(Now(), sender, mute, dropMissing, recipients[..i], decisions)
        invariant allowed == AllowedOf(recipients[..i], decisions)
        invariant dropped == DroppedOf(recipients[..i], decisions)
      {
        var d := DecideAccessPolicy(recipients[i], sender, mute, dropMissing);
        FilterOneMore(recipients, i, decisions, d);
        DecidedOneMore(Now(), sender, mute, dropMissing, recipients, i, decisions, d);
        decisions := decisions + [d];
        if d.allowed {
          allowed := allowed + [recipients[i]];
        } else {
          dropped := dropped + [Refusal(recipients[i], d.reason)];
        }
      }
      assert recipients[..|recipients|] == recipients;
    }
  }

  datatype Refusal = Refusal(user: Str, reason: Reason)

  function AllowedOf(recipients: seq<Str>, decisions: seq<Decision>): seq<Str>
    requires |recipients| == |decisions|
  {
    if recipients == [] then [] else
      var n := |recipients| - 1;
      AllowedOf(recipients[..n], decisions[..n]) + if decisions[n].allowed then [recipients[n]] else []
  }

  function DroppedOf(recipients: seq<Str>, decisions: seq<Decision>): seq<Refusal>
    requires |recipients| == |decisions|
  {
    if recipients == [] then [] else
      var n := |recipients| - 1;
      DroppedOf(recipients[..n], decisions[..n]) +
        if decisions[n].allowed then [] else [Refusal(recipients[n], decisions[n].reason)]
  }

  /** Every recipient has the decision of its own policy. */
  ghost predicate EachDecided(st: State, sender: Str, mute: Option<Mute>, dropMissing: bool, recipients: seq<Str>,
                              decisions: seq<Decision>)
  {
    |decisions| == |recipients| && forall i :: 0 <= i < |recipients| ==>
      decisions[i] == Decide(View(st, recipients[i]), sender, mute, dropMissing)
  }

  lemma DecidedOneMore(st: State, sender: Str, mute: Option<Mute>, dropMissing: bool, recipients: seq<Str>, i: nat,
                       decisions: seq<Decision>, d: Decision)
    requires i < |recipients| && EachDecided(st, sender, mute, dropMissing, recipients[..i], decisions)
    requires d == Decide(View(st, recipients[i]), sender, mute, dropMissing)
    ensures EachDecided(st, sender, mute, dropMissing, recipients[..i + 1], decisions + [d])
  {
  }

  lemma FilterOneMore(recipients: seq<Str>, i: nat, decisions: seq<Decision>, d: Decision)
    requires i < |recipients| && |decisions| == i
    ensures AllowedOf(recipients[..i + 1], decisions + [d]) ==
      AllowedOf(recipients[..i], decisions) + if d.allowed then [recipients[i]] else []
    ensures DroppedOf(recipients[..i + 1], decisions + [d]) ==
      DroppedOf(recipients[..i], decisions) + if d.allowed then [] else [Refusal(recipients[i], d.reason)]
  {
    assert recipients[..i + 1][..i] == recipients[..i] && (decisions + [d])[..i] == decisions;
  }

  /** Each recipient is counted once, as allowed or as dropped. */
  lemma {:induction false} FilterSplits(recipients: seq<Str>, decisions: seq<Decision>)
    requires |recipients| == |decisions|
    ensures |AllowedOf(recipients, decisions)| + |DroppedOf(recipients, decisions)| == |recipients|
  {
    if recipients != [] {
      var n := |recipients| - 1;
      FilterSplits(recipients[..n], decisions[..n]);
    }
  }

  predicate LetThrough(recipients: seq<Str>, decisions: seq<Decision>, i: int, user: Str)
    requires |recipients| == |decisions|
  {
    0 <= i < |recipients| && recipients[i] == user && decisions[i].allowed
  }

  /** The allowed list holds exactly the recipients whose own policy lets the sender through. */
  lemma {:induction false} AllowedExactly(recipients: seq<Str>, decisions: seq<Decision>, user: Str)
    requires |recipients| == |decisions|
    ensures user in AllowedOf(recipients, decisions) <==> exists i :: LetThrough(recipients, decisions, i, user)
  {
    if recipients != [] {
      var n := |recipients| - 1;
      AllowedExactly(recipients[..n], decisions[..n], user);
      if i :| LetThrough(recipients, decisions, i, user) {
        assert i == n || LetThrough(recipients[..n], decisions[..n], i, user);
      }
      if i :| LetThrough(recipients[..n], decisions[..n], i, user) {
        assert LetThrough(recipients, decisions, i, user);
      }
      assert decisions[n].allowed && recipients[n] == user ==> LetThrough(recipients, decisions, n, user);
    }
  }

  predicate Refused(recipients: seq<Str>, decisions: seq<Decision>, i: int, x: Refusal)
    requires |recipients| == |decisions|
  {
    0 <= i < |recipients| && recipients[i] == x.user && !decisions[i].allowed && decisions[i].reason == x.reason
  }

  /** The dropped list holds the others, each with the reason of its own policy. */
  lemma {:induction false} DroppedExactly(recipients: seq<Str>, decisions: seq<Decision>, x: Refusal)
    requires |recipients| == |decisions|
    ensures x in DroppedOf(recipients, decisions) <==> exists i :: Refused(recipients, decisions, i, x)
  {
    if recipients != [] {
      var n := |recipients| - 1;
      DroppedExactly(recipients[..n], decisions[..n], x);
      if i :| Refused(recipients, decisions, i, x) {
        assert i == n || Refused(recipients[..n], decisions[..n], i, x);
      }
      if i :| Refused(recipients[..n], decisions[..n], i, x) {
        assert Refused(recipients, decisions, i, x);
      }
      assert x == Refusal(recipients[n], decisions[n].reason) && !decisions[n].allowed ==>
        Refused(recipients, decisions, n, x);
    }
  }

  /** Both lists keep the order of the recipients: what comes of the first `k` comes first. */
  lemma FilterKeepsOrder(recipients: seq<Str>, decisions: seq<Decision>, k: nat)
    requires |recipients| == |decisions| && k <= |recipients|
    ensures AllowedOf(recipients, decisions) ==
      AllowedOf(recipients[..k], decisions[..k]) + AllowedOf(recipients[k..], decisions[k..])
    ensures DroppedOf(recipients, decisions) ==
      DroppedOf(recipients[..k], decisions[..k]) + DroppedOf(recipients[k..], decisions[k..])
  {
    AllowedInOrder(recipients, decisions, k);
    DroppedInOrder(recipients, decisions, k);
  }

  lemma {:induction false} AllowedInOrder(recipients: seq<Str>, decisions: seq<Decision>, k: nat)
    requires |recipients| == |decisions| && k <= |recipients|
    ensures AllowedOf(recipients, decisions) ==
      AllowedOf(recipients[..k], decisions[..k]) + AllowedOf(recipients[k..], decisions[k..])
    decreases |recipients|
  {
    var n := |recipients| - 1;
    if k <= n {
      AllowedInOrder(recipients[..n], decisions[..n], k);
      LastApart(recipients, n, k);
      LastApart(decisions, n, k);
    } else {
      assert recipients[..k] == recipients && decisions[..k] == decisions;
    }
  }

  lemma {:induction false} DroppedInOrder(recipients: seq<Str>, decisions: seq<Decision>, k: nat)
    requires |recipients| == |decisions| && k <= |recipients|
    ensures DroppedOf(recipients, decisions) ==
      DroppedOf(recipients[..k], decisions[..k]) + DroppedOf(recipients[k..], decisions[k..])
    decreases |recipients|
  {
    var n := |recipients| - 1;
    if k <= n {
      DroppedInOrder(recipients[..n], decisions[..n], k);
      LastApart(recipients, n, k);
      LastApart(decisions, n, k);
    } else {
      assert recipients[..k] == recipients && decisions[..k] == decisions;
    }
  }

  lemma LastApart<T>(xs: seq<T>, n: nat, k: nat)
    requires k <= n < |xs|
    ensures xs[..n][..k] == xs[..k] && xs[k..][..n - k] == xs[..n][k..]
  {
  }
}
