/** Signed invite manifests: what is checked, what the signature covers, and why a manifest that was
    accepted is accepted again after the server has added its fields and the JSON was written and read. */
module Manifests {
  import opened JsText
  import opened JsonText
  import opened CanonicalJson

  const VERSION := Ascii("version")
  const MANIFEST_SIGNATURE := Ascii("manifestSignature")
  const INVITER := Ascii("inviter")
  const INVITE_ID := Ascii("inviteId")
  const EXPIRATION := Ascii("expiration")
  const PEER_ID := Ascii("peerId")
  const USERNAME := Ascii("username")
  const IDENTITY_BUNDLE := Ascii("identityBundle")
  const TYPE := Ascii("type")
  const SIGNING_PUBLIC_KEY := Ascii("signingPublicKey")
  const AGREEMENT_PUBLIC_KEY := Ascii("agreementPublicKey")
  const SIGNATURE := Ascii("signature")
  const BUNDLE_TYPE := Ascii("peerlink_identity_bundle")

  /** The signature check: text, signature, public key. */
  type Verify = (Str, Str, Str) -> bool

  /** `value?.key`. */
  function Prop(v: Option<Json>, key: Str): Option<Json> {
    if v.Some? && v.value.Obj? && key in Keys(v.value.fields) then Some(Get(v.value.fields, key)) else None
  }

  predicate IsText(v: Option<Json>) {
    v.Some? && v.value.Text?
  }

  function TextOf(v: Option<Json>): Str {
    if IsText(v) then v.value.s else []
  }

  predicate Control(u: Unit) {
    u < 32 || u == 127
  }

  /** Absent, or a text of at most 64 units once trimmed, without control characters. */
  predicate UsernameOk(v: Option<Json>) {
    v.None? || (v.value.Text? && |Trim(v.value.s)| <= 64 && forall i :: 0 <= i < |v.value.s| ==> !Control(v.value.s[i]))
  }

  function Identity(v: Json): Option<Json> {
    Prop(Prop(Some(v), INVITER), IDENTITY_BUNDLE)
  }

  predicate ValidInviter(inviter: Option<Json>) {
    IsText(Prop(inviter, PEER_ID)) && Trim(TextOf(Prop(inviter, PEER_ID))) != [] && UsernameOk(Prop(inviter, USERNAME))
  }

  predicate ValidIdentity(identity: Option<Json>, peerId: Option<Json>) {
    Prop(identity, TYPE) == Some(Text(BUNDLE_TYPE)) && Prop(identity, VERSION) == Some(Num([51])) &&
    IsText(peerId) && Prop(identity, PEER_ID) == peerId &&
    IsText(Prop(identity, SIGNING_PUBLIC_KEY)) && IsText(Prop(identity, AGREEMENT_PUBLIC_KEY)) &&
    IsText(Prop(identity, SIGNATURE))
  }

  /** validManifest. */
  predicate ValidManifest(v: Json) {
    Prop(Some(v), VERSION) == Some(Num([49])) && IsText(Prop(Some(v), MANIFEST_SIGNATURE)) &&
    ValidInviter(Prop(Some(v), INVITER)) && ValidIdentity(Identity(v), Prop(Prop(Some(v), INVITER), PEER_ID))
  }

  /** identityBundlePayload. */
  function IdentityText(identity: Option<Json>): Str {
    Raw(Obj(
      Field(TYPE, Text(BUNDLE_TYPE),
      Field(VERSION, Num([51]),
      Field(PEER_ID, Text(TextOf(Prop(identity, PEER_ID))),
      Field(SIGNING_PUBLIC_KEY, Text(TextOf(Prop(identity, SIGNING_PUBLIC_KEY))),
      Field(AGREEMENT_PUBLIC_KEY, Text(TextOf(Prop(identity, AGREEMENT_PUBLIC_KEY))), Empty)))))))
  }

  /** `delete`. */
  function Drop(f: Fields, key: Str): Fields {
    match f
    case Empty => Empty
    case Field(k, v, rest) => if k == key then rest else Field(k, v, Drop(rest, key))
  }

  /** Assigning a property: an existing one keeps its place. */
  function Put(f: Fields, key: Str, value: Json): Fields {
    match f
    case Empty => Field(key, value, Empty)
    case Field(k, v, rest) => if k == key then Field(k, value, rest) else Field(k, v, Put(rest, key, value))
  }

  /** The part of the manifest that the inviter signs. */
  function Unsigned(v: Json): Json {
    if v.Obj? then Obj(Drop(Drop(Drop(v.fields, MANIFEST_SIGNATURE), INVITE_ID), EXPIRATION)) else v
  }

  /** verifiedManifest. */
  predicate Verified(verify: Verify, v: Json) {
    ValidManifest(v) &&
    verify(IdentityText(Identity(v)), TextOf(Prop(Identity(v), SIGNATURE)),
      TextOf(Prop(Identity(v), SIGNING_PUBLIC_KEY))) &&
    verify(Canonical(Unsigned(v)), TextOf(Prop(Some(v), MANIFEST_SIGNATURE)),
      TextOf(Prop(Identity(v), SIGNING_PUBLIC_KEY)))
  }

  /** What the server stores for an accepted manifest. */
  function Stored(v: Json, inviteId: Str, expiration: Str): Json {
    if v.Obj? then Obj(Put(Put(v.fields, INVITE_ID, Text(inviteId)), EXPIRATION, Text(expiration))) else v
  }

  // ----- properties of objects -----

  lemma {:induction false} PutGet(f: Fields, key: Str, value: Json, j: Str)
    ensures Keys(Put(f, key, value)) == Keys(f) + {key}
    ensures j in Keys(Put(f, key, value)) ==> Get(Put(f, key, value), j) == if j == key then value else Get(f, j)
    ensures WellFormedFields(f) && WellFormed(value) ==> WellFormedFields(Put(f, key, value))
  {
    if f.Field? { PutGet(f.rest, key, value, j); }
  }

  lemma {:induction false} DropGet(f: Fields, key: Str, j: Str)
    requires WellFormedFields(f)
    ensures Keys(Drop(f, key)) == Keys(f) - {key} && WellFormedFields(Drop(f, key))
    ensures j in Keys(Drop(f, key)) ==> Get(Drop(f, key), j) == Get(f, j)
  {
    if f.Field? { DropGet(f.rest, key, j); }
  }

  lemma {:induction false} DropPut(f: Fields, key: Str, value: Json, j: Str)
    ensures Drop(Put(f, key, value), j) == if j == key then Drop(f, j) else Put(Drop(f, j), key, value)
    decreases f
  {
    if f.Field? { DropPut(f.rest, key, value, j); }
  }

  lemma {:induction false} DropsCommute(f: Fields, a: Str, b: Str)
    ensures Drop(Drop(f, a), b) == Drop(Drop(f, b), a)
  {
    if f.Field? { DropsCommute(f.rest, a, b); }
  }

  /** Objects are equal when their keys are the same and have equal values. */
  lemma {:induction false} SameFromGets(f: Fields, g: Fields)
    requires WellFormedFields(f)
    requires forall k :: k in Keys(f) ==> k in Keys(g) && Same(Get(f, k), Get(g, k))
    ensures SameFields(f, g)
  {
    if f.Field? {
      assert f.key in Keys(f);
      forall k | k in Keys(f.rest) ensures k in Keys(g) && Same(Get(f.rest, k), Get(g, k)) {
        assert k in Keys(f) && Get(f, k) == Get(f.rest, k);
      }
      SameFromGets(f.rest, g);
    }
  }

  lemma SameDrop(f: Fields, g: Fields, key: Str)
    requires WellFormedFields(f) && WellFormedFields(g) && Keys(f) == Keys(g) && SameFields(f, g)
    ensures Keys(Drop(f, key)) == Keys(Drop(g, key)) && SameFields(Drop(f, key), Drop(g, key))
    ensures WellFormedFields(Drop(f, key)) && WellFormedFields(Drop(g, key))
  {
    DropGet(f, key, key);
    DropGet(g, key, key);
    forall k | k in Keys(Drop(f, key)) ensures Same(Get(Drop(f, key), k), Get(Drop(g, key), k)) {
      DropGet(f, key, k);
      DropGet(g, key, k);
      SameFieldsGet(f, g, k);
    }
    SameFromGets(Drop(f, key), Drop(g, key));
  }

  lemma SameUnsigned(a: Json, b: Json)
    requires WellFormed(a) && WellFormed(b) && Same(a, b)
    ensures Same(Unsigned(a), Unsigned(b)) && WellFormed(Unsigned(a)) && WellFormed(Unsigned(b))
  {
    if a.Obj? {
      var f, g := a.fields, b.fields;
      SameDrop(f, g, MANIFEST_SIGNATURE);
      SameDrop(Drop(f, MANIFEST_SIGNATURE), Drop(g, MANIFEST_SIGNATURE), INVITE_ID);
      SameDrop(Drop(Drop(f, MANIFEST_SIGNATURE), INVITE_ID), Drop(Drop(g, MANIFEST_SIGNATURE), INVITE_ID), EXPIRATION);
    }
  }

  /** Equal as JSON, or both absent. */
  predicate SameOption(a: Option<Json>, b: Option<Json>) {
    if a.Some? then b.Some? && Same(a.value, b.value) else b.None?
  }

  lemma SameProp(a: Option<Json>, b: Option<Json>, key: Str)
    requires SameOption(a, b)
    ensures SameOption(Prop(a, key), Prop(b, key))
    ensures TextOf(Prop(a, key)) == TextOf(Prop(b, key)) && (IsText(Prop(a, key)) <==> IsText(Prop(b, key)))
  {
    if a.Some? && a.value.Obj? && key in Keys(a.value.fields) {
      SameFieldsGet(a.value.fields, b.value.fields, key);
    }
  }

  /** For a value without parts equality is identity. */
  lemma SameLeaf(a: Option<Json>, b: Option<Json>, leaf: Json)
    requires SameOption(a, b) && (leaf.Num? || leaf.Text?)
    ensures a == Some(leaf) <==> b == Some(leaf)
  {
  }

  lemma SameInviter(a: Option<Json>, b: Option<Json>)
    requires SameOption(a, b)
    ensures ValidInviter(a) <==> ValidInviter(b)
  {
    SameProp(a, b, PEER_ID);
    SameProp(a, b, USERNAME);
  }

  lemma SameIdentity(a: Option<Json>, b: Option<Json>, p: Option<Json>, q: Option<Json>)
    requires SameOption(a, b) && SameOption(p, q)
    ensures ValidIdentity(a, p) <==> ValidIdentity(b, q)
    ensures IdentityText(a) == IdentityText(b)
  {
    SameProp(a, b, TYPE);
    SameProp(a, b, VERSION);
    SameProp(a, b, PEER_ID);
    SameProp(a, b, SIGNING_PUBLIC_KEY);
    SameProp(a, b, AGREEMENT_PUBLIC_KEY);
    SameProp(a, b, SIGNATURE);
    SameLeaf(Prop(a, TYPE), Prop(b, TYPE), Text(BUNDLE_TYPE));
    SameLeaf(Prop(a, VERSION), Prop(b, VERSION), Num([51]));
  }

  /** Whether a manifest is accepted does not depend on the order of its properties. */
  lemma SameVerified(verify: Verify, a: Json, b: Json)
    requires WellFormed(a) && WellFormed(b) && Same(a, b)
    ensures Verified(verify, a) <==> Verified(verify, b)
  {
    var inviterA, inviterB := Prop(Some(a), INVITER), Prop(Some(b), INVITER);
    SameProp(Some(a), Some(b), VERSION);
    SameLeaf(Prop(Some(a), VERSION), Prop(Some(b), VERSION), Num([49]));
    SameProp(Some(a), Some(b), MANIFEST_SIGNATURE);
    SameProp(Some(a), Some(b), INVITER);
    SameProp(inviterA, inviterB, IDENTITY_BUNDLE);
    SameProp(inviterA, inviterB, PEER_ID);
    SameInviter(inviterA, inviterB);
    SameIdentity(Identity(a), Identity(b), Prop(inviterA, PEER_ID), Prop(inviterB, PEER_ID));
    SameProp(Identity(a), Identity(b), SIGNATURE);
    SameProp(Identity(a), Identity(b), SIGNING_PUBLIC_KEY);
    SameUnsigned(a, b);
    CanonicalIff(Unsigned(a), Unsigned(b));
  }

  // ----- the fields the server adds -----

  lemma ServerKeysAreOthers()
    ensures INVITE_ID != EXPIRATION && INVITE_ID != MANIFEST_SIGNATURE && EXPIRATION != MANIFEST_SIGNATURE
    ensures VERSION !in {INVITE_ID, EXPIRATION} && INVITER !in {INVITE_ID, EXPIRATION}
  {
    assert |VERSION| == 7 && |INVITER| == 7 && |INVITE_ID| == 8 && |EXPIRATION| == 10 && |MANIFEST_SIGNATURE| == 17;
  }

  lemma StoredProp(v: Json, inviteId: Str, expiration: Str, key: Str)
    requires key != INVITE_ID && key != EXPIRATION
    ensures Prop(Some(Stored(v, inviteId, expiration)), key) == Prop(Some(v), key)
  {
    if v.Obj? {
      PutGet(v.fields, INVITE_ID, Text(inviteId), key);
      PutGet(Put(v.fields, INVITE_ID, Text(inviteId)), EXPIRATION, Text(expiration), key);
    }
  }

  /** What is signed does not change. */
  lemma StoredUnsigned(v: Json, inviteId: Str, expiration: Str)
    ensures Unsigned(Stored(v, inviteId, expiration)) == Unsigned(v)
  {
    ServerKeysAreOthers();
    if v.Obj? {
      var f := v.fields;
      var f1 := Put(f, INVITE_ID, Text(inviteId));
      DropPut(f1, EXPIRATION, Text(expiration), MANIFEST_SIGNATURE);
      DropPut(f, INVITE_ID, Text(inviteId), MANIFEST_SIGNATURE);
      var d := Drop(f, MANIFEST_SIGNATURE);
      var d1 := Put(d, INVITE_ID, Text(inviteId));
      DropPut(d1, EXPIRATION, Text(expiration), INVITE_ID);
      DropPut(d, INVITE_ID, Text(inviteId), INVITE_ID);
      DropPut(Drop(d, INVITE_ID), EXPIRATION, Text(expiration), EXPIRATION);
    }
  }

  lemma StoredVerified(verify: Verify, v: Json, inviteId: Str, expiration: Str)
    ensures Verified(verify, Stored(v, inviteId, expiration)) <==> Verified(verify, v)
  {
    ServerKeysAreOthers();
    StoredProp(v, inviteId, expiration, VERSION);
    StoredProp(v, inviteId, expiration, INVITER);
    StoredProp(v, inviteId, expiration, MANIFEST_SIGNATURE);
    StoredUnsigned(v, inviteId, expiration);
  }

  lemma StoredWellFormed(v: Json, inviteId: Str, expiration: Str)
    requires WellFormed(v)
    ensures WellFormed(Stored(v, inviteId, expiration))
  {
    if v.Obj? {
      PutGet(v.fields, INVITE_ID, Text(inviteId), []);
      PutGet(Put(v.fields, INVITE_ID, Text(inviteId)), EXPIRATION, Text(expiration), []);
    }
  }

  /** A manifest accepted at creation is accepted at restore, after the server has added its fields and
      the JSON has been written and read again, in whatever order the properties come back. */
  lemma AcceptedAgain(verify: Verify, v: Json, inviteId: Str, expiration: Str, read: Json)
    requires WellFormed(v) && WellFormed(read) && Same(read, Stored(v, inviteId, expiration))
    ensures Verified(verify, read) <==> Verified(verify, v)
  {
    StoredVerified(verify, v, inviteId, expiration);
    StoredWellFormed(v, inviteId, expiration);
    SameVerified(verify, read, Stored(v, inviteId, expiration));
  }

  /** The fields that are not signed: the signature itself and those the server adds. */
  const UNSIGNED := {MANIFEST_SIGNATURE, INVITE_ID, EXPIRATION}

  /** The properties have the same names and equal values, but for those that are not signed. */
  ghost predicate AgreeOnSigned(f: Fields, g: Fields) {
    forall k :: k !in UNSIGNED ==> AgreeOn(f, g, k)
  }

  predicate AgreeOn(f: Fields, g: Fields, k: Str) {
    (k in Keys(f) <==> k in Keys(g)) && (k in Keys(f) ==> k in Keys(g) && Same(Get(f, k), Get(g, k)))
  }

  /** Two manifests have one signed text exactly when their properties, other than the signature and the
      server's fields, have the same names and equal values. */
  lemma SignedTextIff(a: Json, b: Json)
    requires WellFormed(a) && WellFormed(b) && a.Obj? && b.Obj?
    ensures Canonical(Unsigned(a)) == Canonical(Unsigned(b)) <==> AgreeOnSigned(a.fields, b.fields)
  {
    UnsignedWellFormed(a);
    UnsignedWellFormed(b);
    CanonicalIff(Unsigned(a), Unsigned(b));
    var f, g := Unsigned(a).fields, Unsigned(b).fields;
    forall k ensures (k in Keys(f) <==> k in Keys(a.fields) && k !in UNSIGNED) &&
                     (k in Keys(g) <==> k in Keys(b.fields) && k !in UNSIGNED) {
      UnsignedGet(a, k);
      UnsignedGet(b, k);
    }
    if AgreeOnSigned(a.fields, b.fields) {
      forall k ensures k in Keys(f) <==> k in Keys(g) { assert k !in UNSIGNED ==> AgreeOn(a.fields, b.fields, k); }
      forall k | k in Keys(f) ensures k in Keys(g) && Same(Get(f, k), Get(g, k)) {
        assert AgreeOn(a.fields, b.fields, k);
        UnsignedGet(a, k);
        UnsignedGet(b, k);
      }
      SameGetFields(f, g);
    } else {
      var k :| k !in UNSIGNED && !AgreeOn(a.fields, b.fields, k);
      UnsignedGet(a, k);
      UnsignedGet(b, k);
      if k in Keys(f) && Same(Unsigned(a), Unsigned(b)) { SameFieldsGet(f, g, k); }
    }
  }

  lemma UnsignedGet(v: Json, k: Str)
    requires WellFormed(v) && v.Obj?
    ensures k in Keys(Unsigned(v).fields) <==> k in Keys(v.fields) && k !in UNSIGNED
    ensures k in Keys(Unsigned(v).fields) ==> Get(Unsigned(v).fields, k) == Get(v.fields, k)
  {
    DropGet(v.fields, MANIFEST_SIGNATURE, k);
    DropGet(Drop(v.fields, MANIFEST_SIGNATURE), INVITE_ID, k);
    DropGet(Drop(Drop(v.fields, MANIFEST_SIGNATURE), INVITE_ID), EXPIRATION, k);
  }

  lemma {:induction false} SameGetFields(f: Fields, g: Fields)
    requires WellFormedFields(f) && forall k :: k in Keys(f) ==> k in Keys(g) && Same(Get(f, k), Get(g, k))
    ensures SameFields(f, g)
  {
    if f.Field? {
      forall k | k in Keys(f.rest) ensures k in Keys(g) && Same(Get(f.rest, k), Get(g, k)) {
        assert k in Keys(f) && Get(f, k) == Get(f.rest, k);
      }
      SameGetFields(f.rest, g);
      assert f.key in Keys(f) && Get(f, f.key) == f.value;
    }
  }

  lemma UnsignedWellFormed(v: Json)
    requires WellFormed(v)
    ensures WellFormed(Unsigned(v))
  {
    if v.Obj? {
      DropGet(v.fields, MANIFEST_SIGNATURE, []);
      DropGet(Drop(v.fields, MANIFEST_SIGNATURE), INVITE_ID, []);
      DropGet(Drop(Drop(v.fields, MANIFEST_SIGNATURE), INVITE_ID), EXPIRATION, []);
    }
  }

  // ----- what acceptance says -----

  function InviterOf(v: Json): Option<Json> {
    Prop(Some(v), INVITER)
  }

  function BundleOf(v: Json): Option<Json> {
    Prop(InviterOf(v), IDENTITY_BUNDLE)
  }

  /** The identity bundle is signed with the key it names, and so is the manifest without its signature and
      the fields of the server. */
  ghost predicate SignedManifest(verify: Verify, v: Json) {
    exists key, own, whole :: SignedWith(verify, v, key, own, whole)
  }

  predicate SignedWith(verify: Verify, v: Json, key: Str, own: Str, whole: Str) {
    v.Obj? && Prop(BundleOf(v), SIGNING_PUBLIC_KEY) == Some(Text(key)) &&
    Prop(BundleOf(v), SIGNATURE) == Some(Text(own)) &&
    Prop(Some(v), MANIFEST_SIGNATURE) == Some(Text(whole)) &&
    verify(BundleText(BundleOf(v), key), own, key) && verify(Canonical(Unsigned(v)), whole, key)
  }

  /** The text of an identity bundle: type and version 3, peer id, and the two keys. */
  function BundleText(identity: Option<Json>, key: Str): Str {
    Raw(Bundle(TextOf(Prop(identity, PEER_ID)), key, TextOf(Prop(identity, AGREEMENT_PUBLIC_KEY))))
  }

  lemma AcceptedIsSigned(verify: Verify, v: Json)
    requires Verified(verify, v)
    ensures SignedManifest(verify, v)
  {
    assert SignedWith(verify, v, TextOf(Prop(Identity(v), SIGNING_PUBLIC_KEY)), TextOf(Prop(Identity(v), SIGNATURE)),
                      TextOf(Prop(Some(v), MANIFEST_SIGNATURE)));
  }

  /** The fields an accepted manifest has besides its signatures. */
  predicate ProperFields(v: Json) {
    var inviter, identity := InviterOf(v), BundleOf(v);
    var peer, name := Prop(inviter, PEER_ID), Prop(inviter, USERNAME);
    Prop(Some(v), VERSION) == Some(Num([49])) &&
    IsText(peer) && Trim(TextOf(peer)) != [] &&
    (name.Some? ==> name.value.Text? && |Trim(name.value.s)| <= 64 &&
                    forall u :: u in name.value.s ==> 32 <= u && u != 127) &&
    Prop(identity, TYPE) == Some(Text(BUNDLE_TYPE)) &&
    Prop(identity, VERSION) == Some(Num([51])) && Prop(identity, PEER_ID) == peer &&
    IsText(Prop(identity, AGREEMENT_PUBLIC_KEY))
  }

  /** The names of the properties, and the numbers 1 and 3 as JSON prints them. */
  lemma ManifestNames()
    ensures INVITER == Ascii("inviter") && MANIFEST_SIGNATURE == Ascii("manifestSignature")
    ensures INVITE_ID == Ascii("inviteId") && EXPIRATION == Ascii("expiration") && VERSION == Ascii("version")
  {
  }

  lemma InviterNames()
    ensures IDENTITY_BUNDLE == Ascii("identityBundle") && PEER_ID == Ascii("peerId") && USERNAME == Ascii("username")
    ensures [49] == Ascii("1") && [51] == Ascii("3")
  {
  }

  lemma BundleNames()
    ensures SIGNING_PUBLIC_KEY == Ascii("signingPublicKey") && AGREEMENT_PUBLIC_KEY == Ascii("agreementPublicKey")
    ensures SIGNATURE == Ascii("signature") && TYPE == Ascii("type")
  {
  }

  lemma BundleTypeName()
    ensures BUNDLE_TYPE == Ascii("peerlink_identity_bundle")
  {
  }

  lemma NameIff(name: Option<Json>)
    ensures UsernameOk(name) <==>
      (name.Some? ==> name.value.Text? && |Trim(name.value.s)| <= 64 &&
                      forall u :: u in name.value.s ==> 32 <= u && u != 127)
  {
    if name.Some? && name.value.Text? && (forall u :: u in name.value.s ==> 32 <= u && u != 127) {
      forall i | 0 <= i < |name.value.s| ensures !Control(name.value.s[i]) { assert name.value.s[i] in name.value.s; }
    }
    if UsernameOk(name) && name.Some? {
      forall u | u in name.value.s ensures 32 <= u && u != 127 {
        var i :| 0 <= i < |name.value.s| && name.value.s[i] == u;
        assert !Control(name.value.s[i]);
      }
    }
  }

  lemma TextsAre(v: Option<Json>)
    ensures IsText(v) <==> v == Some(Text(TextOf(v)))
  {
  }

  /** A manifest is accepted exactly if its fields are proper and both its signatures verify. */
  lemma AcceptedIff(verify: Verify, v: Json)
    ensures Verified(verify, v) <==> ProperFields(v) && SignedManifest(verify, v)
  {
    NameIff(Prop(Prop(Some(v), INVITER), USERNAME));
    if Verified(verify, v) { AcceptedIsSigned(verify, v); }
    if ProperFields(v) && SignedManifest(verify, v) {
      var key, own, whole :| SignedWith(verify, v, key, own, whole);
    }
  }

  /** An identity bundle cannot be exchanged either: one text, one peer id and one agreement key. */
  lemma BundleTextIff(a: Option<Json>, b: Option<Json>, key: Str)
    ensures BundleText(a, key) == BundleText(b, key) <==>
      TextOf(Prop(a, PEER_ID)) == TextOf(Prop(b, PEER_ID)) &&
      TextOf(Prop(a, AGREEMENT_PUBLIC_KEY)) == TextOf(Prop(b, AGREEMENT_PUBLIC_KEY))
  {
    if BundleText(a, key) == BundleText(b, key) {
      BundleReads(TextOf(Prop(a, PEER_ID)), key, TextOf(Prop(a, AGREEMENT_PUBLIC_KEY)));
      BundleReads(TextOf(Prop(b, PEER_ID)), key, TextOf(Prop(b, AGREEMENT_PUBLIC_KEY)));
    }
  }

  function Bundle(peer: Str, key: Str, agreement: Str): Json {
    Obj(
      Field(TYPE, Text(BUNDLE_TYPE),
      Field(VERSION, Num([51]),
      Field(PEER_ID, Text(peer),
      Field(SIGNING_PUBLIC_KEY, Text(key),
      Field(AGREEMENT_PUBLIC_KEY, Text(agreement), Empty))))))
  }

  lemma BundleReads(peer: Str, key: Str, agreement: Str)
    ensures Parse(Raw(Bundle(peer, key, agreement))) == Some(Bundle(peer, key, agreement))
  {
    assert |TYPE| == 4 && |VERSION| == 7 && |PEER_ID| == 6;
    assert |SIGNING_PUBLIC_KEY| == 16 && |AGREEMENT_PUBLIC_KEY| == 18;
    var last := Field(AGREEMENT_PUBLIC_KEY, Text(agreement), Empty);
    var keys := Field(SIGNING_PUBLIC_KEY, Text(key), last);
    var named := Field(PEER_ID, Text(peer), keys);
    var versioned := Field(VERSION, Num([51]), named);
    assert Keys(last) == {AGREEMENT_PUBLIC_KEY} && Keys(keys) == {SIGNING_PUBLIC_KEY} + Keys(last);
    assert Keys(named) == {PEER_ID} + Keys(keys) && Keys(versioned) == {VERSION} + Keys(named);
    assert SIGNING_PUBLIC_KEY != AGREEMENT_PUBLIC_KEY && WellFormedFields(Empty) && WellFormed(Text(agreement));
    assert WellFormedFields(last);
    assert WellFormed(Text(key)) && WellFormedFields(keys);
    assert WellFormedFields(named);
    assert NumText([51]) && WellFormedFields(versioned);
    ParseInvertsRaw(Bundle(peer, key, agreement));
  }

  /** Tampering shows: if this signature and key fit the text of manifest `a` alone, whatever is accepted with
      them has the signed properties of `a`. */
  lemma TamperEvident(verify: Verify, a: Json, v: Json, key: Str, own: Str, whole: Str)
    requires WellFormed(a) && WellFormed(v) && a.Obj? && SignedWith(verify, v, key, own, whole)
    requires forall t :: verify(t, whole, key) ==> t == Canonical(Unsigned(a))
    ensures AgreeOnSigned(a.fields, v.fields)
  {
    SignedTextIff(a, v);
  }

  /** What is stored of an accepted manifest: invite id and expiration as given, everything else as it came. */
  lemma StoredProperties(v: Json, inviteId: Str, expiration: Str, key: Str)
    requires v.Obj?
    ensures Prop(Some(Stored(v, inviteId, expiration)), key) ==
      if key == Ascii("inviteId") then Some(Text(inviteId))
      else if key == Ascii("expiration") then Some(Text(expiration))
      else Prop(Some(v), key)
  {
    ManifestNames();
    ServerKeysAreOthers();
    PutGet(v.fields, INVITE_ID, Text(inviteId), key);
    PutGet(Put(v.fields, INVITE_ID, Text(inviteId)), EXPIRATION, Text(expiration), key);
  }
}
