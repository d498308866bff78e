/** The signing payload of protocol/src/encode.rs and its verification in protocol/src/verify.rs. */
module Signing {
  import opened Base
  import opened Cbor
  import opened Values
  import opened Event
  import opened Fields
  import opened Pairs
  import opened Encode
  import opened Payload
  import opened Emitted
  import opened RoundTrip

  // ----- when there is a signing payload -----

  /** A valid event has a signing payload exactly when its type does not itself demand `sig`; for
      the types that do, clearing `sig` makes the embedded validation fail. */
  lemma SigningPayloadExistsIff(ev: ParsedKommsEvent)
    requires ValidateEvent(ev).Pass?
    ensures SigningPayload(ev).Ok? <==> !RequiresSig(ev.t)
    ensures RequiresSig(ev.t) ==> SigningPayload(ev) == Err(MissingForType(ev.t, "sig"))
  {
    hide ValidateEvent, WirePairs;
    ClearingSig(ev);
  }

  // ----- what it covers -----

  /** The event as its signature sees it: without `sig`, and with the scheme of version 0 read off
      `enc`. */
  function Signed(ev: ParsedKommsEvent): ParsedKommsEvent
  {
    Resynthesised(ev.(sig := None))
  }

  /** Whatever the extensions hold, signing payloads are equal exactly when the pairs written
      without `sig` are. */
  lemma SigningPayloadCoversPairs(a: ParsedKommsEvent, b: ParsedKommsEvent)
    requires SigningPayload(a).Ok? && SigningPayload(b).Ok?
    ensures SigningPayload(a) == SigningPayload(b)
       <==> WirePairs(a.(sig := None)) == WirePairs(b.(sig := None))
  {
    hide ValidateEvent, WirePairs, Enc, Sized, TextsValid, HasUndefined;
    var a', b' := a.(sig := None), b.(sig := None);
    WirePairsSized(a');
    WirePairsSized(b');
    if SigningPayload(a) == SigningPayload(b) {
      EncInjective(Map(WirePairs(a')), Map(WirePairs(b')));
    }
  }

  /** Main theorem: with extension keys clear of the core, two events have the same signing payload
      exactly when they agree on every field except `sig` and, in version 0, `enc_scheme`. */
  lemma SigningPayloadDetermines(a: ParsedKommsEvent, b: ParsedKommsEvent)
    requires ExtensionKeysApart(a) && ExtensionKeysApart(b)
    requires SigningPayload(a).Ok? && SigningPayload(b).Ok?
    ensures SigningPayload(a) == SigningPayload(b) <==> Signed(a) == Signed(b)
  {
    hide ValidateEvent, WirePairs, WireMap, Enc, Build, AsU8, FromU8;
    var a', b' := a.(sig := None), b.(sig := None);
    ValidShape(a');
    ValidShape(b');
    WirePairsAreListing(a');
    WirePairsAreListing(b');
    SigningPayloadCoversPairs(a, b);
    if SigningPayload(a) == SigningPayload(b) {
      ListingInjective(WireMap(a'), WireMap(b'));
      Rebuild(a');
      Rebuild(b');
    }
    if Signed(a) == Signed(b) {
      SchemeNotWritten(a');
      SchemeNotWritten(b');
    }
  }

  // ----- the splice -----

  function SigEntry(sig: Bytes64): Entry
  {
    Entry(UInt(11), Bytes(sig))
  }

  lemma SigEntryBytes(sig: Bytes64)
    ensures EncEntry(SigEntry(sig)) == [0x0B, 0x58, 0x40] + sig
    ensures |EncEntry(SigEntry(sig))| == 67
  {
    assert ToBE(64, 1) == [64];
    assert Head(2, 64) == [0x58, 0x40];
  }

  lemma {:induction false} CorePairsSplice(ev: ParsedKommsEvent, hi: nat) returns (post: seq<Entry>)
    requires ev.sig.Some? && 12 <= hi <= EXTENSION_KEY_MIN
    ensures CorePairs(ev, hi) == CorePairs(ev, 11) + [SigEntry(ev.sig.value)] + post
    ensures CorePairs(ev.(sig := None), hi) == CorePairs(ev, 11) + post
  {
    hide IsValue, AsU8;
    var cleared := ev.(sig := None);
    if hi == 12 {
      post := [];
      forall k: byte | k < 11 ensures CoreField(cleared, k) == CoreField(ev, k) { SigWrittenUnderItsKey(ev, k); }
      SameCorePairs(cleared, ev, 11);
      assert CoreField(ev, 11) == Some(Bytes(ev.sig.value)) && CoreField(cleared, 11) == None;
    } else {
      hide CoreField;
      var post' := CorePairsSplice(ev, hi - 1);
      SigWrittenUnderItsKey(ev, hi - 1);
      var p := Pair(hi - 1, CoreField(ev, hi - 1));
      post := post' + p;
      ConcatAssociative(CorePairs(ev, 11) + [SigEntry(ev.sig.value)], post', p);
      ConcatAssociative(CorePairs(ev, 11), post', p);
    }
  }

  lemma SigWrittenUnderItsKey(ev: ParsedKommsEvent, k: byte)
    requires k != 11
    ensures CoreField(ev.(sig := None), k) == CoreField(ev, k)
  {
    hide AsU8, IsValue;
  }

  lemma {:induction false} ListingShorter(m: Fields, lo: nat, absent: byte)
    requires lo <= absent && absent !in m
    ensures |Listing(m, lo)| + lo < KEY_LIMIT
    decreases absent - lo
  {
    if lo < absent {
      ListingShorter(m, lo + 1, absent);
    }
  }

  /** Main theorem: for a signed event of a type that does not demand `sig`, the signing payload is
      the encoding with the 67 bytes of key 11 cut out and the map head counting one entry less, which
      also shortens the head from 24 to 23 and from 256 to 255 entries; with extension keys clear of
      the core there are at most 255. */
  lemma SigningPayloadIsSplice(ev: ParsedKommsEvent) returns (n: nat, pre: seq<byte>, post: seq<byte>)
    requires ValidateEvent(ev).Pass? && ev.sig.Some? && !RequiresSig(ev.t)
    ensures 1 <= n <= EXTENSION_KEY_MIN + KEY_LIMIT
    ensures ExtensionKeysApart(ev) ==> n <= 255
    ensures EncodedMap(ev) == Ok(Head(5, n) + pre + [0x0B, 0x58, 0x40] + ev.sig.value + post)
    ensures SigningPayload(ev) == Ok(Head(5, n - 1) + pre + post)
    ensures |Head(5, n)| == |Head(5, n - 1)| + (if n == 24 || n == 256 then 1 else 0)
  {
    hide ValidateEvent, CoreField, CorePairs, WireMap, Listing, EncodeCborUintHeader;
    ClearingSig(ev);
    var core := CorePairsSplice(ev, EXTENSION_KEY_MIN);
    var before, after := CorePairs(ev, 11), core + Listing(ev.extensionFields, 0);
    var sig := SigEntry(ev.sig.value);
    ConcatAssociative(before + [sig], core, Listing(ev.extensionFields, 0));
    ConcatAssociative(before, core, Listing(ev.extensionFields, 0));
    n, pre, post := |WirePairs(ev)|, EncEntries(before), EncEntries(after);
    if ExtensionKeysApart(ev) {
      PairCount(ev);
    }
    SigEntryBytes(ev.sig.value);
    SpliceBytes(before, sig, after);
    HeadGrowth(n);
    hide WirePairs, EncEntries, EncEntry;
    var h := Head(5, n);
    assert h + (pre + ([0x0B, 0x58, 0x40] + ev.sig.value) + post) == h + pre + [0x0B, 0x58, 0x40] + ev.sig.value + post;
    ConcatAssociative(Head(5, n - 1), pre, post);
  }

  lemma PairCount(ev: ParsedKommsEvent)
    requires ValidateEvent(ev).Pass? && ExtensionKeysApart(ev)
    ensures |WirePairs(ev)| <= 255
  {
    hide ValidateEvent, WirePairs, WireMap, CoreField, Listing, IsValue;
    ValidShape(ev);
    WirePairsAreListing(ev);
    WireLookup(ev, 30);
    NoSealedSignerPair(ev);
    ListingShorter(WireMap(ev), 0, 30);
  }

  lemma NoSealedSignerPair(ev: ParsedKommsEvent)
    requires ev.sealedSigner.None?
    ensures CoreField(ev, 30) == None
  {
  }

  lemma SpliceBytes(before: seq<Entry>, sig: Entry, after: seq<Entry>)
    ensures EncEntries(before + [sig] + after) == EncEntries(before) + EncEntry(sig) + EncEntries(after)
    ensures EncEntries(before + after) == EncEntries(before) + EncEntries(after)
  {
    EncEntriesOne(sig);
    hide EncEntry, EncEntries;
    EncEntriesConcat(before + [sig], after);
    EncEntriesConcat(before, [sig]);
    EncEntriesConcat(before, after);
  }

  lemma EncEntriesOne(e: Entry)
    ensures EncEntries([e]) == EncEntry(e)
  {
    hide EncEntry;
    assert [e][1..] == [];
    assert EncEntry(e) + [] == EncEntry(e);
  }

  lemma HeadGrowth(n: nat)
    requires 1 <= n <= EXTENSION_KEY_MIN + KEY_LIMIT
    ensures |Head(5, n)| == |Head(5, n - 1)| + (if n == 24 || n == 256 then 1 else 0)
  {
  }

  // ----- verification -----

  datatype SignerPubkey = InBand(key: Bytes32) | OutOfBand

  datatype VerifyError =
    | SignatureMissing
    | InvalidPubkey
    | SignatureInvalid
    | EncodeFailed(error: ValidationError)

  /** Ed25519, left open: which byte strings are keys, and which signatures a key accepts. */
  datatype SignatureScheme = SignatureScheme(
    isKey: Bytes32 -> bool,
    verifyStrict: (Bytes32, seq<byte>, Bytes64) -> bool)

  function SignerPubkeyFromEvent(ev: ParsedKommsEvent): SignerPubkey
  {
    match ev.devicePk
    case Some(dpk) => InBand(dpk)
    case None => OutOfBand
  }

  /** Accepts exactly when the signature verifies over the canonical signing payload, and otherwise
      says which of the four is wanting. */
  function VerifyEvent(scheme: SignatureScheme, ev: ParsedKommsEvent, pubkey: Bytes32)
    : (r: Result<(), VerifyError>)
    ensures r.Ok? <==>
              && ev.sig.Some? && SigningPayload(ev).Ok? && scheme.isKey(pubkey)
              && scheme.verifyStrict(pubkey, SigningPayload(ev).value, ev.sig.value)
    ensures r == Err(SignatureMissing) <==> ev.sig.None?
    ensures r.Err? && r.error.EncodeFailed? <==> ev.sig.Some? && SigningPayload(ev).Err?
    ensures r.Err? && r.error.EncodeFailed? ==> r.error.error == SigningPayload(ev).error
    ensures r == Err(InvalidPubkey) <==> ev.sig.Some? && SigningPayload(ev).Ok? && !scheme.isKey(pubkey)
    ensures r == Err(SignatureInvalid) <==>
              && ev.sig.Some? && SigningPayload(ev).Ok? && scheme.isKey(pubkey)
              && !scheme.verifyStrict(pubkey, SigningPayload(ev).value, ev.sig.value)
  {
    if ev.sig.None? then Err(SignatureMissing)
    else
      match SigningPayload(ev)
      case Err(e) => Err(EncodeFailed(e))
      case Ok(bytes) =>
        if !scheme.isKey(pubkey) then Err(InvalidPubkey)
        else if scheme.verifyStrict(pubkey, bytes, ev.sig.value) then Ok(())
        else Err(SignatureInvalid)
  }

  /** No extension key 13 that version 0 drops, and no extension key 31 that saturates. */
  predicate SchemeAndRoleKept(ev: ParsedKommsEvent)
  {
    var m := ev.extensionFields;
    !(ev.v == 0 && 13 in m) && (31 in m && m[31].UInt? ==> m[31].n <= 255)
  }

  /** What the extension map must not hold for the verdict to survive encoding and parsing. */
  predicate VerdictKept(ev: ParsedKommsEvent)
  {
    && 11 !in ev.extensionFields
    && (ev.sig.Some? && !RequiresSig(ev.t) ==> SchemeAndRoleKept(ev))
  }

  ghost predicate SameVerdicts(a: ParsedKommsEvent, b: ParsedKommsEvent)
  {
    forall scheme: SignatureScheme, pubkey: Bytes32 :: VerifyEvent(scheme, a, pubkey) == VerifyEvent(scheme, b, pubkey)
  }

  /** Main theorem: encoding and parsing an event keeps its verdict, under every scheme and key,
      exactly when no extension takes the place of `sig` and, where a signature is checked at all,
      none under key 13 or 31 is dropped or saturated; it keeps the signer exactly when no extension
      takes the place of the device key. */
  lemma VerdictSurvivesTheWire(ev: ParsedKommsEvent)
    requires EncodedPayload(ev).Ok? && ParseKommsPayload(EncodedPayload(ev).value).Ok?
    ensures var parsed := ParseKommsPayload(EncodedPayload(ev).value).value;
            && (SameVerdicts(parsed, ev) <==> VerdictKept(ev))
            && (SignerPubkeyFromEvent(parsed) == SignerPubkeyFromEvent(ev) <==> 17 !in ev.extensionFields)
  {
    EmittedOutcome(ev);
    hide ParseKommsPayload, ValidateEvent, Absorbed, ExtensionsCanonical, ReservedKeysTyped, ExtensionKeysFollow;
    hide SigningPayload, SchemeAndRoleKept, WirePairs, Enc, VerifyEvent, SameVerdicts;
    var parsed := Absorbed(ev);
    AbsorbedSig(ev);
    AbsorbedDeviceKey(ev);
    if 11 in ev.extensionFields {
      AbsorbedSigDiffers(ev);
    } else if ev.sig.None? {
      UnsignedAlike(parsed, ev);
    } else {
      AbsorbedType(ev);
      SigningPayloadExistsIff(ev);
      SigningPayloadExistsIff(parsed);
      if !RequiresSig(ev.t) {
        AbsorbedSigningPayload(ev);
      }
      SameVerdictsIff(parsed, ev);
    }
  }

  lemma AbsorbedSig(ev: ParsedKommsEvent)
    requires ExtensionKeysFollow(ev) && ReservedKeysTyped(ev)
    ensures 11 !in ev.extensionFields ==> Absorbed(ev).sig == ev.sig
    ensures 11 in ev.extensionFields ==> ev.sig.None? && Absorbed(ev).sig.Some?
  {
    hide Absorbed, ReservedKeysTyped, IsValue, FirstFree, CoreField;
    AbsorbedField(ev, 11);
    SigField(ev);
    SigField(Absorbed(ev));
    if ev.sig.Some? {
      WrittenBelowFirstFree(ev, EXTENSION_KEY_MIN, 11);
    }
  }

  lemma SigField(ev: ParsedKommsEvent)
    ensures CoreField(ev, 11) == OfBytes(ev.sig)
  {
  }

  lemma AbsorbedDeviceKey(ev: ParsedKommsEvent)
    requires ExtensionKeysFollow(ev) && ReservedKeysTyped(ev)
    ensures 17 !in ev.extensionFields ==> Absorbed(ev).devicePk == ev.devicePk
    ensures 17 in ev.extensionFields ==> ev.devicePk.None? && Absorbed(ev).devicePk.Some?
  {
    hide Absorbed, ReservedKeysTyped, IsValue, FirstFree, CoreField;
    AbsorbedField(ev, 17);
    DeviceKeyField(ev);
    DeviceKeyField(Absorbed(ev));
    if ev.devicePk.Some? {
      WrittenBelowFirstFree(ev, EXTENSION_KEY_MIN, 17);
    }
  }

  lemma DeviceKeyField(ev: ParsedKommsEvent)
    ensures CoreField(ev, 17) == OfBytes(ev.devicePk)
  {
  }

  /** A signature taken from the extension map shows under every scheme and key. */
  lemma AbsorbedSigDiffers(ev: ParsedKommsEvent)
    requires ExtensionKeysFollow(ev) && ReservedKeysTyped(ev) && 11 in ev.extensionFields
    ensures forall scheme, pubkey ::
              VerifyEvent(scheme, ev, pubkey) == Err(SignatureMissing) != VerifyEvent(scheme, Absorbed(ev), pubkey)
    ensures !SameVerdicts(Absorbed(ev), ev)
  {
    hide Absorbed, ReservedKeysTyped, ExtensionKeysFollow, SigningPayload;
    AbsorbedSig(ev);
    var scheme := SignatureScheme(_ => true, (_, _, _) => true);
    var pubkey: Bytes32 := Absorbed(ev).sig.value[..32];
    assert VerifyEvent(scheme, Absorbed(ev), pubkey) != VerifyEvent(scheme, ev, pubkey);
  }

  lemma UnsignedAlike(a: ParsedKommsEvent, b: ParsedKommsEvent)
    requires a.sig.None? && b.sig.None?
    ensures SameVerdicts(a, b)
  {
    hide SigningPayload;
  }

  /** Verdicts on one signature agree under every scheme and key exactly when the bytes it is
      checked against do. */
  lemma SameVerdictsIff(a: ParsedKommsEvent, b: ParsedKommsEvent)
    requires a.sig.Some? && a.sig == b.sig
    requires SigningPayload(a).Ok? <==> SigningPayload(b).Ok?
    ensures SameVerdicts(a, b) <==> SigningPayload(a) == SigningPayload(b)
  {
    hide SigningPayload;
    if SigningPayload(a) != SigningPayload(b) {
      var scheme := SignatureScheme(_ => true, (_, bytes, _) => SigningPayload(a) == Ok(bytes));
      var pubkey: Bytes32 := a.sig.value[..32];
      assert VerifyEvent(scheme, a, pubkey) != VerifyEvent(scheme, b, pubkey);
    }
  }

  lemma {:induction false} FirstFreeWithoutSig(ev: ParsedKommsEvent, hi: nat)
    requires hi <= EXTENSION_KEY_MIN
    ensures FirstFree(ev.(sig := None), hi) <= FirstFree(ev, hi)
  {
    hide CoreField;
    if hi > 0 {
      FirstFreeWithoutSig(ev, hi - 1);
      if hi - 1 == 11 {
        SigField(ev.(sig := None));
      } else {
        SigWrittenUnderItsKey(ev, hi - 1);
      }
    }
  }

  /** An event and the one read back are signed alike exactly when scheme and role are kept. */
  lemma AbsorbedSigningPayload(ev: ParsedKommsEvent)
    requires ExtensionKeysFollow(ev) && ReservedKeysTyped(ev) && 11 !in ev.extensionFields
    requires ValidateEvent(ev).Pass? && SigningPayload(ev).Ok? && SigningPayload(Absorbed(ev)).Ok?
    ensures SigningPayload(Absorbed(ev)) == SigningPayload(ev) <==> SchemeAndRoleKept(ev)
  {
    hide SigningPayload, ValidateEvent, Absorbed, ReservedKeysTyped, EmittedMap, FirstFree, WirePairs, EmittedField;
    hide IsValue;
    var a, b := Absorbed(ev).(sig := None), ev.(sig := None);
    FirstFreeWithoutSig(ev, EXTENSION_KEY_MIN);
    AbsorbedVersion(ev);
    AbsorbedApart(ev);
    SigningPayloadCoversPairs(Absorbed(ev), ev);
    SamePairsIff(a, b);
    forall k: byte ensures Lookup(EmittedMap(a), k) == Lookup(EmittedMap(b), k) <==> SignedFieldKept(ev, k) {
      AbsorbedSignedField(ev, k);
      EmittedLookup(a, k);
      EmittedLookup(b, k);
    }
    if EmittedMap(a) == EmittedMap(b) {
      assert SignedFieldKept(ev, 13) && SignedFieldKept(ev, 31);
    }
    if SchemeAndRoleKept(ev) {
      SameLookups(EmittedMap(a), EmittedMap(b));
    }
  }

  predicate SignedFieldKept(ev: ParsedKommsEvent, k: byte)
  {
    var m := ev.extensionFields;
    && (k == 13 ==> !(ev.v == 0 && 13 in m))
    && (k == 31 && 31 in m && m[31].UInt? ==> m[31].n <= 255)
  }

  lemma AbsorbedApart(ev: ParsedKommsEvent)
    ensures ExtensionKeysApart(Absorbed(ev)) && ExtensionKeysFollow(Absorbed(ev).(sig := None))
  {
    hide EmittedMap, Build, FirstFree, IsValue;
    BuiltExtensions(EmittedMap(ev));
  }

  lemma AbsorbedSignedField(ev: ParsedKommsEvent, k: byte)
    requires ExtensionKeysFollow(ev) && ReservedKeysTyped(ev) && 11 !in ev.extensionFields
    requires Absorbed(ev).v == ev.v && ExtensionKeysApart(Absorbed(ev))
    ensures EmittedField(Absorbed(ev).(sig := None), k) == EmittedField(ev.(sig := None), k)
       <==> SignedFieldKept(ev, k)
  {
    hide Absorbed, ReservedKeysTyped, CoreField, FirstFree, IsValue;
    var a, b := Absorbed(ev).(sig := None), ev.(sig := None);
    AbsorbedField(ev, k);
    SigField(a);
    SigField(b);
    SchemeField(ev);
    if CoreField(ev, 31).Some? {
      WrittenBelowFirstFree(ev, EXTENSION_KEY_MIN, 31);
    }
    if k != 11 {
      SigWrittenUnderItsKey(ev, k);
      SigWrittenUnderItsKey(Absorbed(ev), k);
    }
  }

  lemma SchemeField(ev: ParsedKommsEvent)
    ensures ev.v == 0 ==> CoreField(ev, 13) == None
  {
  }

  /** A verdict depends on nothing but the key, the signature and the signed fields. */
  lemma VerdictDependsOnSignedFields(
    scheme: SignatureScheme, a: ParsedKommsEvent, b: ParsedKommsEvent, pubkey: Bytes32)
    requires SigningPayload(a).Ok? && SigningPayload(b).Ok?
    requires a.sig == b.sig && Signed(a) == Signed(b)
    ensures VerifyEvent(scheme, a, pubkey) == VerifyEvent(scheme, b, pubkey)
  {
    SchemeNotWritten(a.(sig := None));
    SchemeNotWritten(b.(sig := None));
    hide ValidateEvent, WirePairs, Enc;
  }

  /** Device registration, device revocation and sealed leave can never be verified in band: every
      key and every signature scheme gives the same encoding error. */
  lemma SigDemandingTypesNeverVerify(scheme: SignatureScheme, ev: ParsedKommsEvent, pubkey: Bytes32)
    requires ValidateEvent(ev).Pass? && RequiresSig(ev.t)
    ensures VerifyEvent(scheme, ev, pubkey) == Err(EncodeFailed(MissingForType(ev.t, "sig")))
  {
    SigningPayloadExistsIff(ev);
    hide SigningPayload, CheckCommon;
  }
}
