/** The canonical encoder of protocol/src/encode.rs. */
module Encode {
  import opened Base
  import opened Cbor
  import opened Values
  import opened Event
  import opened Fields
  import opened Pairs

  const KOMMS_PAYLOAD_PREFIX: seq<byte> := [0x4B, 0x4F, 0x4D, 0x4D]

  // ----- specification -----

  /** The pairs for core keys below `hi`, in key order. */
  function CorePairs(ev: ParsedKommsEvent, hi: nat): (s: seq<Entry>)
    requires hi <= EXTENSION_KEY_MIN
    ensures |s| <= hi
  {
    if hi == 0 then [] else CorePairs(ev, hi - 1) + Pair(hi - 1, CoreField(ev, hi - 1))
  }

  /** All pairs of the map: the core keys, then whatever the extension map holds. */
  function WirePairs(ev: ParsedKommsEvent): seq<Entry>
  {
    CorePairs(ev, EXTENSION_KEY_MIN) + Listing(ev.extensionFields, 0)
  }

  function EncodedMap(ev: ParsedKommsEvent): Result<seq<byte>, ValidationError>
  {
    match ValidateEvent(ev)
    case Fail(e) => Err(e)
    case Pass => Ok(Enc(Map(WirePairs(ev))))
  }

  function EncodedPayload(ev: ParsedKommsEvent): Result<seq<byte>, ValidationError>
  {
    var cbor :- EncodedMap(ev);
    Ok(KOMMS_PAYLOAD_PREFIX + cbor)
  }

  /** The bytes covered by `sig`: the encoding of the event without key 11. */
  function SigningPayload(ev: ParsedKommsEvent): Result<seq<byte>, ValidationError>
  {
    EncodedMap(ev.(sig := None))
  }

  // ----- the encoder -----

  method EncodeCborMap(ev: ParsedKommsEvent) returns (r: Result<seq<byte>, ValidationError>)
    ensures r == EncodedMap(ev)
  {
    hide Enc, CheckCommon, CheckType, Sized, TextsValid, HasUndefined;
    var verdict := ValidateEvent(ev);
    if verdict.Fail? { return Err(verdict.error); }
    if ev.refBytes.Some? {
      var again := ValidateRef(ev.refBytes.value);
      ValidRefTwice(ev);
      if again.Fail? {
        assert false;  // validation has already accepted `ref`
      }
    }
    var pairs := PushIds(ev, []);
    pairs := PushContent(ev, pairs);
    pairs := PushThreading(ev, pairs);
    pairs := PushDevice(ev, pairs);
    pairs := PushSealed(ev, pairs);
    pairs := PushGroup(ev, pairs);
    pairs := PushRoles(ev, pairs);
    pairs := PushExtensions(ev, pairs);
    return Ok(Enc(Map(pairs)));
  }

  /** Pushes the extension map in key order. */
  method PushExtensions(ev: ParsedKommsEvent, core: seq<Entry>) returns (pairs: seq<Entry>)
    requires core == CorePairs(ev, EXTENSION_KEY_MIN)
    ensures pairs == WirePairs(ev)
  {
    hide CoreField, CorePairs, Sized, TextsValid, HasUndefined;
    pairs := core;
    for key := 0 to KEY_LIMIT
      invariant pairs + Listing(ev.extensionFields, key) == WirePairs(ev)
    {
      ConcatAssociative(pairs, Pair(key, Lookup(ev.extensionFields, key)), Listing(ev.extensionFields, key + 1));
      if key in ev.extensionFields {
        pairs := pairs + [Entry(UInt(key), ev.extensionFields[key])];
      }
    }
    assert pairs + [] == pairs;
  }

  lemma ValidRefTwice(ev: ParsedKommsEvent)
    requires ValidateEvent(ev).Pass? && ev.refBytes.Some?
    ensures ValidateRef(ev.refBytes.value).Pass?
  {
    hide ValidateRef, CheckType, CheckGroup, CheckScheme;
  }

  /** Pushes keys 0 to 5. */
  method PushIds(ev: ParsedKommsEvent, pairs: seq<Entry>) returns (r: seq<Entry>)
    requires pairs == CorePairs(ev, 0)
    ensures r == CorePairs(ev, 6)
  {
    r := pairs;
    hide Sized, TextsValid, HasUndefined, AsU8;
    r := r + [Entry(UInt(0), UInt(ev.v))];
    assert r == CorePairs(ev, 1);
    r := r + [Entry(UInt(1), UInt(AsU8(ev.t)))];
    assert r == CorePairs(ev, 2);
    if ev.sid.Some? { r := r + [Entry(UInt(2), Bytes(ev.sid.value))]; }
    assert r == CorePairs(ev, 3);
    if ev.cid.Some? { r := r + [Entry(UInt(3), Bytes(ev.cid.value))]; }
    assert r == CorePairs(ev, 4);
    if ev.did.Some? { r := r + [Entry(UInt(4), Bytes(ev.did.value))]; }
    assert r == CorePairs(ev, 5);
    if ev.pid.Some? { r := r + [Entry(UInt(5), Bytes(ev.pid.value))]; }
  }

  /** Pushes keys 6 to 11. */
  method PushContent(ev: ParsedKommsEvent, pairs: seq<Entry>) returns (r: seq<Entry>)
    requires pairs == CorePairs(ev, 6)
    ensures r == CorePairs(ev, 12)
  {
    r := pairs;
    hide Sized, TextsValid, HasUndefined, AsU8;
    if ev.mid.Some? { r := r + [Entry(UInt(6), Bytes(ev.mid.value))]; }
    assert r == CorePairs(ev, 7);
    if ev.refBytes.Some? { r := r + [Entry(UInt(7), Bytes(ev.refBytes.value))]; }
    assert r == CorePairs(ev, 8);
    r := r + [Entry(UInt(8), Bool(ev.enc))];
    assert r == CorePairs(ev, 9);
    if ev.ts.Some? { r := r + [Entry(UInt(9), UInt(ev.ts.value))]; }
    assert r == CorePairs(ev, 10);
    if ev.n.Some? { r := r + [Entry(UInt(10), UInt(ev.n.value))]; }
    assert r == CorePairs(ev, 11);
    if ev.sig.Some? { r := r + [Entry(UInt(11), Bytes(ev.sig.value))]; }
  }

  /** Pushes keys 12 to 16; version 0 never carries key 13. */
  method PushThreading(ev: ParsedKommsEvent, pairs: seq<Entry>) returns (r: seq<Entry>)
    requires pairs == CorePairs(ev, 12)
    ensures r == CorePairs(ev, 17)
  {
    r := pairs;
    hide Sized, TextsValid, HasUndefined, AsU8;
    if ev.parentMid.Some? { r := r + [Entry(UInt(12), Bytes(ev.parentMid.value))]; }
    assert r == CorePairs(ev, 13);
    if ev.v != 0 {
      if ev.encScheme.Some? { r := r + [Entry(UInt(13), UInt(ev.encScheme.value))]; }
    }
    assert r == CorePairs(ev, 14);
    if ev.kind.Some? { r := r + [Entry(UInt(14), UInt(ev.kind.value))]; }
    assert r == CorePairs(ev, 15);
    if ev.mime.Some? { r := r + [Entry(UInt(15), Text(ev.mime.value))]; }
    assert r == CorePairs(ev, 16);
    if ev.refType.Some? { r := r + [Entry(UInt(16), UInt(ev.refType.value))]; }
  }

  /** Pushes keys 17 to 20. */
  method PushDevice(ev: ParsedKommsEvent, pairs: seq<Entry>) returns (r: seq<Entry>)
    requires pairs == CorePairs(ev, 17)
    ensures r == CorePairs(ev, 21)
  {
    r := pairs;
    hide Sized, TextsValid, HasUndefined, AsU8;
    if ev.devicePk.Some? { r := r + [Entry(UInt(17), Bytes(ev.devicePk.value))]; }
    assert r == CorePairs(ev, 18);
    if ev.sigScheme.Some? { r := r + [Entry(UInt(18), UInt(ev.sigScheme.value))]; }
    assert r == CorePairs(ev, 19);
    if ev.reactionKey.Some? { r := r + [Entry(UInt(19), Bytes(ev.reactionKey.value))]; }
    assert r == CorePairs(ev, 20);
    if ev.paymentHint.Some? { r := r + [Entry(UInt(20), Bytes(ev.paymentHint.value))]; }
  }

  /** Pushes keys 21 to 25. */
  method PushSealed(ev: ParsedKommsEvent, pairs: seq<Entry>) returns (r: seq<Entry>)
    requires pairs == CorePairs(ev, 21)
    ensures r == CorePairs(ev, 26)
  {
    r := pairs;
    hide Sized, TextsValid, HasUndefined, AsU8;
    if ev.memberTag.Some? { r := r + [Entry(UInt(21), Bytes(ev.memberTag.value))]; }
    assert r == CorePairs(ev, 22);
    if ev.memberSealed.Some? { r := r + [Entry(UInt(22), Bytes(ev.memberSealed.value))]; }
    assert r == CorePairs(ev, 23);
    if ev.encSid.Some? { r := r + [Entry(UInt(23), Bytes(ev.encSid.value))]; }
    assert r == CorePairs(ev, 24);
    if ev.encCid.Some? { r := r + [Entry(UInt(24), Bytes(ev.encCid.value))]; }
    assert r == CorePairs(ev, 25);
    if ev.encBodyRef.Some? { r := r + [Entry(UInt(25), Bytes(ev.encBodyRef.value))]; }
  }

  /** Pushes keys 26 to 30. */
  method PushGroup(ev: ParsedKommsEvent, pairs: seq<Entry>) returns (r: seq<Entry>)
    requires pairs == CorePairs(ev, 26)
    ensures r == CorePairs(ev, 31)
  {
    r := pairs;
    hide Sized, TextsValid, HasUndefined, AsU8;
    if ev.encParentMid.Some? { r := r + [Entry(UInt(26), Bytes(ev.encParentMid.value))]; }
    assert r == CorePairs(ev, 27);
    if ev.matchTag.Some? { r := r + [Entry(UInt(27), Bytes(ev.matchTag.value))]; }
    assert r == CorePairs(ev, 28);
    if ev.encT.Some? { r := r + [Entry(UInt(28), Bytes(ev.encT.value))]; }
    assert r == CorePairs(ev, 29);
    if ev.keyEpoch.Some? { r := r + [Entry(UInt(29), UInt(ev.keyEpoch.value))]; }
    assert r == CorePairs(ev, 30);
    if ev.sealedSigner.Some? { r := r + [Entry(UInt(30), Bytes(ev.sealedSigner.value))]; }
  }

  /** Pushes the role-management keys 31 and 32. */
  method PushRoles(ev: ParsedKommsEvent, pairs: seq<Entry>) returns (r: seq<Entry>)
    requires pairs == CorePairs(ev, 31)
    ensures r == CorePairs(ev, 33)
  {
    r := pairs;
    hide Sized, TextsValid, HasUndefined, AsU8;
    if ev.role.Some? { r := r + [Entry(UInt(31), UInt(ev.role.value))]; }
    assert r == CorePairs(ev, 32);
    if ev.target.Some? { r := r + [Entry(UInt(32), Bytes(ev.target.value))]; }
  }

  method EncodeKommsPayload(ev: ParsedKommsEvent) returns (r: Result<seq<byte>, ValidationError>)
    ensures r == EncodedPayload(ev)
  {
    var cbor := EncodeCborMap(ev);
    if cbor.Err? { return Err(cbor.error); }
    var out := KOMMS_PAYLOAD_PREFIX;
    out := out + cbor.value;
    return Ok(out);
  }

  // ----- the pairs are the listing of the wire map -----

  lemma WirePairsAreListing(ev: ParsedKommsEvent)
    requires ExtensionKeysApart(ev)
    ensures WirePairs(ev) == Listing(WireMap(ev), 0)
  {
    hide CoreField, WireMap, Listing, Sized, TextsValid, HasUndefined;
    CorePairsShift(ev, 0);
    forall k: byte | EXTENSION_KEY_MIN <= k ensures Lookup(ev.extensionFields, k) == Lookup(WireMap(ev), k) {
      WireLookup(ev, k);
    }
    ListingSkips(ev.extensionFields, 0, EXTENSION_KEY_MIN);
    ListingLocal(ev.extensionFields, WireMap(ev), EXTENSION_KEY_MIN);
    assert CorePairs(ev, 0) + Listing(WireMap(ev), 0) == Listing(WireMap(ev), 0);
  }

  lemma {:induction false} CorePairsShift(ev: ParsedKommsEvent, lo: nat)
    requires lo <= EXTENSION_KEY_MIN
    ensures CorePairs(ev, lo) + Listing(WireMap(ev), lo)
         == CorePairs(ev, EXTENSION_KEY_MIN) + Listing(WireMap(ev), EXTENSION_KEY_MIN)
    decreases EXTENSION_KEY_MIN - lo
  {
    hide CoreField, WireMap, CorePairs, Listing, Lookup, IsValue, Pair;
    if lo < EXTENSION_KEY_MIN {
      CorePairsShift(ev, lo + 1);
      WireLookup(ev, lo);
      CorePairsStep(ev, lo);
      ListingStep(WireMap(ev), lo);
      ConcatAssociative(CorePairs(ev, lo), Pair(lo, CoreField(ev, lo)), Listing(WireMap(ev), lo + 1));
    }
  }

  lemma CorePairsStep(ev: ParsedKommsEvent, hi: nat)
    requires hi < EXTENSION_KEY_MIN
    ensures CorePairs(ev, hi + 1) == CorePairs(ev, hi) + Pair(hi, CoreField(ev, hi))
  {
    hide CoreField;
  }
}
