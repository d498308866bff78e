/** Parse and encode undo each other, and exactly where they do not. */
module RoundTrip {
  import opened Base
  import opened Cbor
  import opened Canonical
  import opened CanonicalLanguage
  import opened Values
  import opened Event
  import opened Fields
  import opened Pairs
  import opened Encode
  import opened Payload
  import opened Emitted
  import P = Parse

  // ----- the wire map of an accepted payload -----

  /** The entries of an accepted payload's map, before `undefined` is read as null. */
  function WireOf(raw: seq<byte>): Fields
  {
    match StripKommsEnvelope(raw)
    case None => map[]
    case Some(cbor) =>
      if Validate(cbor).Ok? && ItemOf(cbor).Map? && ByteKeys(ItemOf(cbor).entries)
      then MapOf(ItemOf(cbor).entries) else map[]
  }

  lemma ParsedForm(raw: seq<byte>) returns (entries: seq<Entry>)
    requires ParseKommsPayload(raw).Ok?
    ensures WireForm(raw, entries) && TextsValid(Map(entries)) && ByteKeys(entries)
    ensures WireOf(raw) == MapOf(entries)
    ensures WellTyped(DecodedMap(entries))
    ensures ParseKommsPayload(raw) == Ok(Build(DecodedMap(entries)))
    ensures ValidateEvent(Build(DecodedMap(entries))).Pass?
  {
    hide Build, FirstComplaint, DecodeItem, TextsValid, Sized, HasUndefined, CheckCommon, CheckType;
    var cbor := raw[|KOMMS_PAYLOAD_PREFIX|..];
    assert raw == KOMMS_PAYLOAD_PREFIX + cbor;
    AcceptedIsEncoding(cbor);
    assert Leading(Collapse(ItemOf(cbor))) == Leading(ItemOf(cbor));
    entries := ItemOf(cbor).entries;
    ParseOfWireForm(raw, entries);
    FirstComplaintNone(DecodedMap(entries));
  }

  lemma AcceptedForm(raw: seq<byte>, entries: seq<Entry>)
    requires WireForm(raw, entries) && TextsValid(Map(entries)) && ByteKeys(entries)
    requires WellTyped(DecodedMap(entries))
    requires Build(DecodedMap(entries)).v <= MAX_KNOWN_VERSION && ValidateEvent(Build(DecodedMap(entries))).Pass?
    ensures WireOf(raw) == MapOf(entries)
    ensures ParseKommsPayload(raw) == Ok(Build(DecodedMap(entries)))
  {
    hide Build, FirstComplaint, ItemOf, Enc, TextsValid, ValidateEvent, DecodedMap, ParseStructure, WellTyped;
    ParseOfWireForm(raw, entries);
    FirstComplaintNone(DecodedMap(entries));
  }

  /** Decoding changes a wire value only by reading `undefined` as null. */
  lemma DecodedLookup(entries: seq<Entry>, k: byte)
    requires CanonicalAt(Map(entries), 0) && TextsValid(Map(entries)) && ByteKeys(entries)
    ensures Lookup(DecodedMap(entries), k)
         == if Lookup(MapOf(entries), k).None? then None else Some(Collapse(MapOf(entries)[k]))
  {
    hide TextsValid;
    CanonicalSized(Map(entries), 0);
    DecodedEntries(entries, 0);
    DecodedPointwise(entries, Decoded(entries), 0, k);
  }

  lemma {:induction false} DecodedPointwise(entries: seq<Entry>, d: seq<Entry>, least: nat, k: byte)
    requires |d| == |entries| && AscendingFrom(entries, least) && ByteKeys(entries) && ByteKeys(d)
    requires forall j | 0 <= j < |d| ::
               d[j].key == Collapse(entries[j].key) && d[j].value == Collapse(entries[j].value)
    ensures Lookup(MapOf(d), k)
         == if Lookup(MapOf(entries), k).None? then None else Some(Collapse(MapOf(entries)[k]))
  {
    if entries != [] {
      DecodedPointwise(entries[1..], d[1..], entries[0].key.n + 1, k);
    }
  }

  // ----- encode, then parse -----

  /** Extension keys clear of the core, extension values canonical one level down. */
  ghost predicate InDomain(ev: ParsedKommsEvent)
  {
    ExtensionKeysApart(ev) && ExtensionsCanonical(ev)
  }

  /** Parsing what was encoded gives the event back with its version 0 scheme resynthesised, if
      that event still validates, and its validation error otherwise. */
  lemma EncodeThenParse(ev: ParsedKommsEvent)
    requires InDomain(ev) && EncodedPayload(ev).Ok?
    ensures ParseKommsPayload(EncodedPayload(ev).value)
         == match ValidateEvent(Resynthesised(ev))
            case Pass => Ok(Resynthesised(ev))
            case Fail(e) => Err(Validation(e))
  {
    EmittedOutcome(ev);
    NothingAbsorbed(ev);
    hide ParseKommsPayload, CheckCommon, CheckType, Absorbed, WirePairs, Enc, FirstComplaint, EmittedMap;
    hide ExtensionKeysFollow, ReservedKeysTyped, ExtensionsCanonical;
  }

  /** Main theorem: the event comes back unchanged exactly when its extensions are in the domain
      and, in version 0, its scheme is the one `enc` implies. */
  lemma EncodeParseIdentityIff(ev: ParsedKommsEvent)
    requires EncodedPayload(ev).Ok?
    ensures ParseKommsPayload(EncodedPayload(ev).value) == Ok(ev)
       <==> InDomain(ev) && (ev.v == 0 ==> ev.encScheme == Some(if ev.enc then 1 else 0))
  {
    hide CheckCommon, CheckType, ParseStructure, Enc, WirePairs;
    if ParseKommsPayload(EncodedPayload(ev).value) == Ok(ev) {
      ParsedInDomain(EncodedPayload(ev).value);
    }
    if InDomain(ev) {
      EncodeThenParse(ev);
    }
  }

  /** With extension keys clear of the core, an emitted payload is accepted exactly when its
      extension values are in the profile and it is not a version 0 event that leaned on the group
      scheme its wire form cannot carry. */
  lemma EncodedIsAcceptedIff(ev: ParsedKommsEvent)
    requires ExtensionKeysApart(ev) && EncodedPayload(ev).Ok?
    ensures ParseKommsPayload(EncodedPayload(ev).value).Ok?
       <==> && ExtensionsCanonical(ev)
            && (ev.v == 0 && GroupEncrypted(ev) ==> ValidUngrouped(ev))
  {
    EmittedIsAcceptedIff(ev);
    NothingAbsorbed(ev);
    ResynthesisedValidIff(ev);
    hide ParseKommsPayload, CheckCommon, CheckType, Absorbed, ExtensionsCanonical, ValidUngrouped;
  }

  /** Whatever parses is in the domain. */
  lemma ParsedInDomain(raw: seq<byte>)
    requires ParseKommsPayload(raw).Ok?
    ensures InDomain(ParseKommsPayload(raw).value)
  {
    hide Build, Collapse, IsValue, TextsValid, ParseKommsPayload, WellTyped, DecodedMap, WireOf, ValidateEvent, Enc;
    var entries := ParsedForm(raw);
    var m := DecodedMap(entries);
    BuiltExtensions(m);
    forall k | k in Extensions(m) ensures CanonicalAt(Extensions(m)[k], 1) {
      DecodedLookup(entries, k);
      WireValueCanonical(entries, 0, k);
      CollapseCanonical(MapOf(entries)[k], 1);
    }
  }

  lemma {:induction false} WireValueCanonical(entries: seq<Entry>, least: nat, k: byte)
    requires ByteKeys(entries) && k in MapOf(entries)
    requires forall j | 0 <= j < |entries| :: CanonicalAt(entries[j].value, 1)
    ensures CanonicalAt(MapOf(entries)[k], 1)
  {
    hide CanonicalAt;
    if entries[0].key.n != k {
      WireValueCanonical(entries[1..], least, k);
    }
  }

  // ----- parse, then encode -----

  /** What a payload must not carry for re-encoding to reproduce it. */
  ghost predicate Faithful(wire: Fields)
  {
    && !(0 in wire && wire[0] == UInt(0) && 13 in wire)
    && (31 in wire && wire[31].UInt? ==> wire[31].n <= 255)
    && forall k | k in wire && k >= EXTENSION_KEY_MIN :: !HasUndefined(wire[k])
  }

  /** Main theorem: every accepted payload re-encodes, and to the very same bytes exactly when it
      is not a version 0 map with key 13, its role fits a byte and no extension holds `undefined`. */
  lemma ParseThenEncode(raw: seq<byte>)
    requires ParseKommsPayload(raw).Ok?
    ensures EncodedPayload(ParseKommsPayload(raw).value).Ok?
    ensures EncodedPayload(ParseKommsPayload(raw).value) == Ok(raw) <==> Faithful(WireOf(raw))
  {
    hide Build, Enc, WirePairs, WireMap, ParseKommsPayload, ValidateEvent, EncodedPayload, Faithful, Listing;
    hide TextsValid, Sized, WireOf, DecodedMap, MapOf, InDomain, WellTyped, CanonicalAt;
    var entries := ParsedForm(raw);
    var ev := ParseKommsPayload(raw).value;
    EncodingOfValid(ev);
    SameBytesSamePairs(ev, entries);
    PairsMatchIff(raw, entries);
    ReencodedMapIff(entries);
  }

  lemma EncodingOfValid(ev: ParsedKommsEvent)
    requires ValidateEvent(ev).Pass?
    ensures EncodedPayload(ev) == Ok(KOMMS_PAYLOAD_PREFIX + Enc(Map(WirePairs(ev))))
  {
    hide ValidateEvent, Enc, WirePairs;
  }

  /** The pairs written match the pairs read exactly when the two wire maps are the same. */
  lemma PairsMatchIff(raw: seq<byte>, entries: seq<Entry>)
    requires ParseKommsPayload(raw).Ok? && CanonicalAt(Map(entries), 0) && ByteKeys(entries)
    ensures var ev := ParseKommsPayload(raw).value;
            WirePairs(ev) == entries <==> WireMap(ev) == MapOf(entries)
  {
    hide ParseKommsPayload, WireMap, Listing, MapOf, WirePairs, Enc, TextsValid, Sized, HasUndefined;
    var ev := ParseKommsPayload(raw).value;
    ParsedInDomain(raw);
    WirePairsAreListing(ev);
    ListingOfMap(entries, 0);
    SameListingSameMap(WireMap(ev), MapOf(entries));
  }

  lemma SameBytesSamePairs(ev: ParsedKommsEvent, entries: seq<Entry>)
    requires CanonicalAt(Map(entries), 0)
    ensures KOMMS_PAYLOAD_PREFIX + Enc(Map(WirePairs(ev))) == KOMMS_PAYLOAD_PREFIX + Enc(Map(entries))
       <==> WirePairs(ev) == entries
  {
    hide Enc, WirePairs, CanonicalAt, Sized, TextsValid, HasUndefined;
    WirePairsSized(ev);
    CanonicalSized(Map(entries), 0);
    var a, b := Enc(Map(WirePairs(ev))), Enc(Map(entries));
    if KOMMS_PAYLOAD_PREFIX + a == KOMMS_PAYLOAD_PREFIX + b {
      SameLengthPrefix(KOMMS_PAYLOAD_PREFIX, a, KOMMS_PAYLOAD_PREFIX, b);
      EncInjective(Map(WirePairs(ev)), Map(entries));
    }
  }

  lemma SameListingSameMap(a: Fields, b: Fields)
    ensures Listing(a, 0) == Listing(b, 0) <==> a == b
  {
    if Listing(a, 0) == Listing(b, 0) {
      ListingInjective(a, b);
    }
  }

  lemma ReencodedMapIff(entries: seq<Entry>)
    requires CanonicalAt(Map(entries), 0) && TextsValid(Map(entries)) && ByteKeys(entries)
    requires WellTyped(DecodedMap(entries))
    ensures WireMap(Build(DecodedMap(entries))) == MapOf(entries) <==> Faithful(MapOf(entries))
  {
    var m, wire := DecodedMap(entries), MapOf(entries);
    var ev := Build(m);
    hide Build, DecodedMap, WireMap, Collapse, HasUndefined, TextsValid, Sized, WellTyped, CanonicalAt;
    forall k: byte
      ensures Lookup(WireMap(ev), k) == Lookup(wire, k) <==> FaithfulAt(wire, k)
    {
      ReencodedKeyIff(entries, k);
    }
    if forall k: byte :: FaithfulAt(wire, k) {
      SameLookups(WireMap(ev), wire);
    }
    FaithfulPointwise(wire);
  }

  /** `Faithful`, key by key. */
  ghost predicate FaithfulAt(wire: Fields, k: byte)
  {
    if k == 13 then !(0 in wire && wire[0] == UInt(0) && 13 in wire)
    else if k == 31 then 31 in wire && wire[31].UInt? ==> wire[31].n <= 255
    else k in wire && k >= EXTENSION_KEY_MIN ==> !HasUndefined(wire[k])
  }

  lemma FaithfulPointwise(wire: Fields)
    ensures Faithful(wire) <==> forall k: byte :: FaithfulAt(wire, k)
  {
    hide HasUndefined;
    if forall k: byte :: FaithfulAt(wire, k) {
      assert FaithfulAt(wire, 13) && FaithfulAt(wire, 31);
      forall k | k in wire && k >= EXTENSION_KEY_MIN ensures !HasUndefined(wire[k]) {
        assert FaithfulAt(wire, k);
      }
    }
  }

  lemma ReencodedKeyIff(entries: seq<Entry>, k: byte)
    requires CanonicalAt(Map(entries), 0) && TextsValid(Map(entries)) && ByteKeys(entries)
    requires WellTyped(DecodedMap(entries))
    ensures Lookup(WireMap(Build(DecodedMap(entries))), k) == Lookup(MapOf(entries), k)
       <==> FaithfulAt(MapOf(entries), k)
  {
    var m, wire := DecodedMap(entries), MapOf(entries);
    assert Complaint(m, 0).None? && (k < EXTENSION_KEY_MIN ==> Complaint(m, k).None?);
    hide Build, DecodedMap, WireMap, WireField, HasUndefined, TextsValid, Sized, WellTyped, CanonicalAt, Complaint;
    hide Collapse, Leading;
    Conservation(m, k);
    BuiltVersion(m);
    WireLookup(Build(m), k);
    WireLeafKept(entries, 0);
    if k < EXTENSION_KEY_MIN {
      WireLeafKept(entries, k);
    } else {
      DecodedLookup(entries, k);
      if k in wire {
        CollapseIdentity(wire[k]);
      }
    }
  }

  lemma BuiltVersion(m: map<byte, Value>)
    requires Complaint(m, 0).None?
    ensures 0 in m && m[0] == UInt(Build(m).v)
  {
    ConserveIds(m, 0);
    hide Build;
  }

  /** Under a core key a well-typed value is a leaf, so decoding did not change it. */
  lemma WireLeafKept(entries: seq<Entry>, k: byte)
    requires CanonicalAt(Map(entries), 0) && TextsValid(Map(entries)) && ByteKeys(entries)
    requires k < EXTENSION_KEY_MIN && Complaint(DecodedMap(entries), k).None?
    ensures Lookup(DecodedMap(entries), k) == Lookup(MapOf(entries), k)
  {
    DecodedLookup(entries, k);
    if k in DecodedMap(entries) {
      TypedIsLeaf(DecodedMap(entries), k);
    }
    hide DecodedMap, Complaint, TextsValid, Sized, HasUndefined, CanonicalAt;
  }

  lemma TypedIsLeaf(m: Fields, k: byte)
    requires k < EXTENSION_KEY_MIN && Complaint(m, k).None? && k in m
    ensures Leading(m[k]) < 4 || m[k].Bool?
  {
  }

  // ----- relaying: parse, encode, parse again -----

  /** Resynthesising the scheme does not change what is written. */
  lemma SchemeNotWritten(ev: ParsedKommsEvent)
    ensures WireMap(Resynthesised(ev)) == WireMap(ev)
    ensures WirePairs(Resynthesised(ev)) == WirePairs(ev)
  {
    hide CoreField, IsValue, WireMap, CorePairs;
    var ev' := Resynthesised(ev);
    forall k: byte ensures CoreField(ev', k) == CoreField(ev, k) {
      SchemeWrittenUnderItsKey(ev, ev'.encScheme, k);
    }
    forall k: byte ensures Lookup(WireMap(ev'), k) == Lookup(WireMap(ev), k) {
      WireLookup(ev', k);
      WireLookup(ev, k);
    }
    SameLookups(WireMap(ev'), WireMap(ev));
    SameCorePairs(ev', ev, EXTENSION_KEY_MIN);
  }

  lemma {:induction false} SameCorePairs(a: ParsedKommsEvent, b: ParsedKommsEvent, hi: nat)
    requires hi <= EXTENSION_KEY_MIN
    requires forall k: byte | k < hi :: CoreField(a, k) == CoreField(b, k)
    ensures CorePairs(a, hi) == CorePairs(b, hi)
  {
    hide CoreField;
    if hi > 0 {
      SameCorePairs(a, b, hi - 1);
    }
  }

  /** A relay that parses and re-encodes reaches a fixed point after one trip. */
  lemma ReencodeStabilises(raw: seq<byte>)
    requires ParseKommsPayload(raw).Ok?
    ensures var again := EncodedPayload(ParseKommsPayload(raw).value);
            && again.Ok?
            && (ParseKommsPayload(again.value).Ok? ==>
                  EncodedPayload(ParseKommsPayload(again.value).value) == again)
  {
    ParseThenEncode(raw);
    ParsedInDomain(raw);
    var ev := ParseKommsPayload(raw).value;
    EncodeThenParse(ev);
    SchemeNotWritten(ev);
    hide ParseStructure, WirePairs, Enc, CheckCommon, CheckType;
  }

  /** What the relay emits is accepted again exactly unless it dropped the group scheme that a
      version 0 event's validity rested on. */
  lemma RelayedIsAcceptedIff(raw: seq<byte>)
    requires ParseKommsPayload(raw).Ok?
    ensures var ev := ParseKommsPayload(raw).value;
            && EncodedPayload(ev).Ok?
            && (ParseKommsPayload(EncodedPayload(ev).value).Ok?
                <==> (ev.v == 0 && GroupEncrypted(ev) ==> ValidUngrouped(ev)))
  {
    ParseThenEncode(raw);
    ParsedInDomain(raw);
    hide ParseKommsPayload, EncodedPayload;
    EncodedIsAcceptedIff(ParseKommsPayload(raw).value);
  }

  /** One byte string per event: two faithful payloads that parse alike are the same bytes. */
  lemma OnePayloadPerEvent(a: seq<byte>, b: seq<byte>)
    requires ParseKommsPayload(a).Ok? && ParseKommsPayload(a) == ParseKommsPayload(b)
    requires Faithful(WireOf(a)) && Faithful(WireOf(b))
    ensures a == b
  {
    hide ParseKommsPayload, EncodedPayload, Faithful, WireOf;
    ParseThenEncode(a);
    ParseThenEncode(b);
  }
}
