/** How memberships and tombstones become JSON and come back. */
module StorageCodecs {
  import opened JsText
  import opened RelayMail
  import opened RelayGroups
  import opened Storage

  // ----- group memberships -----

  /** The JSON object of a membership; a field may be missing or of another type. */
  datatype JsonMembership = JsonMembership(
    owner: Option<Str>, members: Option<seq<Str>>, delegations: Option<map<Str, Token>>,
    updatedAtMs: Option<int>, provisional: Option<bool>, expiredAtMs: Option<int>)

  /** An expired group keeps only the time of its expiry; a set becomes a list in some order. */
  function EncodeMembership(g: Membership): JsonMembership {
    match g
    case Expired(at) => JsonMembership(None, None, None, None, None, Some(at))
    case Active(owner, members, delegations, at, provisional) =>
      JsonMembership(Some(owner), Some(Listing(members)), Some(delegations), Some(at), Some(provisional), None)
  }

  /** A missing owner stays unknown to every comparison and a missing time is swept at once; such
      records are not written by the relay, so they are rejected here like malformed ones. */
  function DecodeMembership(j: JsonMembership, key: Str): Option<Membership> {
    if j.expiredAtMs.Some? then Some(Expired(j.expiredAtMs.value))
    else if j.members.None? || j.owner.None? || j.updatedAtMs.None? then None
    else Some(Active(j.owner.value, Elements(j.members.value),
                     if j.delegations.Some? then j.delegations.value else map[], j.updatedAtMs.value,
                     j.provisional == Some(true)))
  }

  const MEMBERSHIP_CODEC := Codec(EncodeMembership, DecodeMembership)

  /** Every membership survives the round trip. */
  lemma MembershipRoundTrip(g: Membership, key: Str)
    ensures Storable(MEMBERSHIP_CODEC, key, g)
  {
    if g.Active? { assert Elements(Listing(g.members)) == g.members; }
  }

  lemma MembershipCodecIsLawful()
    ensures Lawful(MEMBERSHIP_CODEC)
  {
    forall e, k, v | MEMBERSHIP_CODEC.decode(e, k) == Some(v) ensures Storable(MEMBERSHIP_CODEC, k, v) {
      MembershipRoundTrip(v, k);
    }
  }

  // ----- ACK tombstones -----

  /** Older snapshots hold just the time; newer ones an object. */
  datatype JsonTombstone =
    | Time(ackedAtMs: int)
    | Object(recipient: Option<Str>, messageId: Option<Str>, at: Option<int>, expiresAtMs: Option<int>)
    | NotATombstone

  function EncodeTombstone(t: Tombstone): JsonTombstone {
    Object(Some(t.recipient), Some(t.messageId), Some(t.ackedAtMs), t.expiresAtMs)
  }

  function DecodeTombstone(j: JsonTombstone, key: Str): Option<Tombstone> {
    match j
    case Time(at) =>
      var i := SeparatorIndex(key);
      if i == |key| then Some(Tombstone([], key, at, None))
      else Some(Tombstone(key[..i], key[i + 1..], at, None))
    case Object(recipient, messageId, at, expiresAtMs) =>
      if at.None? then None
      else Some(Tombstone(if recipient.Some? then recipient.value else [],
                          if messageId.Some? then messageId.value else [], at.value, expiresAtMs))
    case NotATombstone => None
  }

  const TOMBSTONE_CODEC := Codec(EncodeTombstone, DecodeTombstone)

  lemma TombstoneRoundTrip(t: Tombstone, key: Str)
    ensures Storable(TOMBSTONE_CODEC, key, t)
  {
  }

  lemma TombstoneCodecIsLawful()
    ensures Lawful(TOMBSTONE_CODEC)
  {
    forall e, k, v | TOMBSTONE_CODEC.decode(e, k) == Some(v) ensures Storable(TOMBSTONE_CODEC, k, v) {
      TombstoneRoundTrip(v, k);
    }
  }

  /** An old entry is read back for the recipient and message it was filed under exactly when the
      recipient is free of the separator. */
  lemma LegacyTombstoneIff(to: Str, id: Str, at: int)
    ensures DecodeTombstone(Time(at), EnvelopeKey(to, id)) == Some(Tombstone(to, id, at, None)) <==> Without(PIPE, to)
  {
    var key := EnvelopeKey(to, id);
    var i := SeparatorIndex(key);
    assert key[|to|] == PIPE;
    if Without(PIPE, to) {
      assert key == key[..i] + [PIPE] + key[i + 1..];
      SplitUnique(PIPE, key[..i], key[i + 1..], to, id);
    }
  }

  /** Records of older versions: without provisional mark or tokens the group is owned and has no
      administrators; a time of expiry goes before everything else. */
  lemma OlderMembership(j: JsonMembership, key: Str)
    ensures j.expiredAtMs.Some? ==> DecodeMembership(j, key) == Some(Expired(j.expiredAtMs.value))
    ensures j.expiredAtMs.None? && j.members.Some? && j.owner.Some? && j.updatedAtMs.Some? ==>
      var g := DecodeMembership(j, key);
      g.Some? && g.value.Active? && g.value.owner == j.owner.value && g.value.updatedAtMs == j.updatedAtMs.value &&
      (forall p :: p in g.value.members <==> p in j.members.value) &&
      (g.value.provisional <==> j.provisional == Some(true)) &&
      g.value.delegations == if j.delegations.Some? then j.delegations.value else map[]
  {
  }

  /** Tombstones of older versions: the text up to the first separator is the recipient, without one there is
      none; in an object the names may be missing, but not the time. */
  lemma OlderTombstone(j: JsonTombstone, key: Str)
    ensures j.Time? && Without(PIPE, key) ==> DecodeTombstone(j, key) == Some(Tombstone([], key, j.ackedAtMs, None))
    ensures j.Time? && !Without(PIPE, key) ==>
      var t := DecodeTombstone(j, key);
      t.Some? && t.value.ackedAtMs == j.ackedAtMs && t.value.expiresAtMs == None &&
      Without(PIPE, t.value.recipient) && key == t.value.recipient + [PIPE] + t.value.messageId
    ensures j.Object? ==>
      var t := DecodeTombstone(j, key);
      (t.Some? <==> j.at.Some?) &&
      (t.Some? ==>
        t.value.ackedAtMs == j.at.value && t.value.expiresAtMs == j.expiresAtMs &&
        (j.recipient.Some? ==> t.value.recipient == j.recipient.value) &&
        (j.messageId.Some? ==> t.value.messageId == j.messageId.value) &&
        (j.recipient.None? ==> t.value.recipient == []) && (j.messageId.None? ==> t.value.messageId == []))
    ensures j.NotATombstone? ==> DecodeTombstone(j, key).None?
  {
    var i := SeparatorIndex(key);
    if j.Time? && i < |key| { assert key == key[..i] + [PIPE] + key[i + 1..]; }
  }
}
