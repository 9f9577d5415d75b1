/** What the relay handlers share: the settings of one relay process, the texts that clients
    sign, and the shape of an envelope. */
module RelayTypes {
  import opened JsText

  /** The signed texts, one constructor per builder in relay-validation.js. A list the builder
      sorts and joins appears here as the multiset it is built from. */
  datatype SignedText =
    | EnvelopeText(id: Str, from: Str, to: Str, ts: real, ttl: real, payload: Bytes)
    | GroupEnvelopeText(id: Str, from: Str, groupId: Str, recipients: seq<Str>, ts: real, ttl: real, payload: Bytes)
    | BlobText(id: Str, from: Str, groupId: Str, fileName: Str, mime: Str, ts: real, ttl: real, payload: Bytes)
    | AckText(id: Str, from: Str, to: Str, ts: real)
    | MembersText(id: Str, from: Str, groupId: Str, owner: Str, members: multiset<Str>, ts: real, ttl: real)
    | OwnerMembersText(id: Str, from: Str, groupId: Str, owner: Str, members: multiset<Str>, ts: real, ttl: real,
                       delegationVersion: real)
    | DelegationText(groupId: Str, admin: Str, permissions: multiset<Str>, expiresAtMs: real,
                     delegationVersion: real, protectedPeers: multiset<Str>)
    | DelegatedMembersText(id: Str, from: Str, groupId: Str, owner: Str, members: multiset<Str>, ts: real, ttl: real,
                           add: bool, changed: multiset<Str>, delegationVersion: real, expiresAtMs: real, ownerSig: Str)

  /** The settings of relay.js and the abstract signature check (text, signature, public key). */
  datatype Config = Config(
    ttlSeconds: int,
    uploadTtlSeconds: int,
    ackTtlSeconds: int,
    groupTtlSeconds: int,
    groupTombstoneTtlSeconds: int,
    verify: (SignedText, Str, Str) -> bool)

  datatype Envelope = Envelope(
    id: Str, from: Str, to: Str, groupId: Option<Str>, recipients: seq<Str>,
    ts: real, ttl: real, payload: Bytes, sig: Str, signingPub: Str)
}
