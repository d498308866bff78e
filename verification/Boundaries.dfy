/** Where the round trips stop: concrete events and payloads outside the proved domains. */
module Boundaries {
  import opened Base
  import opened Cbor
  import opened Canonical
  import opened CanonicalLanguage
  import opened Refusals
  import opened Values
  import opened Event
  import opened Fields
  import opened Pairs
  import opened Encode
  import opened Payload
  import opened Emitted
  import opened RoundTrip
  import opened Signing
  import opened Payloads
  import P = Parse

  function ZeroTag(): Bytes16 { [0, 0, 0, 0, 0, 0, 0, 0, 0, 0, 0, 0, 0, 0, 0, 0] }
  function ZeroId(): Bytes32 { ZeroTag() + ZeroTag() }

  /** A version 0 `ServerCreate`, the smallest valid event. */
  function PlainServer(): ParsedKommsEvent { P.DEFAULT_EVENT.(sid := Some(ZeroId())) }

  // ----- emitted, yet refused -----

  /** An extension value outside the canonical profile is emitted without complaint, and the
      payload is then refused by a rule of the profile. */
  lemma ExtensionOutsideProfileRefused(ev: ParsedKommsEvent, k: byte)
    requires EncodedPayload(ev).Ok?
    requires k in ev.extensionFields && !CanonicalAt(ev.extensionFields[k], 1)
    ensures ParseKommsPayload(EncodedPayload(ev).value).Err?
    ensures ParseKommsPayload(EncodedPayload(ev).value).error.Canonical?
    ensures NamesProfileRule(ParseKommsPayload(EncodedPayload(ev).value).error.canonical)
  {
    EmittedOutcome(ev);
    hide ParseKommsPayload, EncodedPayload, CanonicalAt, Absorbed, ReservedKeysTyped;
  }

  /** A float among the extensions. */
  lemma EmittedFloatIsRefused() returns (ev: ParsedKommsEvent)
    ensures EncodedPayload(ev).Ok? && ParseKommsPayload(EncodedPayload(ev).value).Err?
  {
    ev := PlainServer().(extensionFields := map[33 := Float([0, 0])]);
    PlainServerValid(ev.extensionFields);
    assert !CanonicalAt(ev.extensionFields[33], 1);
    hide ValidateEvent, WirePairs, Enc, ParseStructure, CanonicalAt, PlainServer;
    ExtensionOutsideProfileRefused(ev, 33);
  }

  lemma PlainServerValid(extensionFields: map<byte, Value>)
    ensures ValidateEvent(PlainServer().(extensionFields := extensionFields)).Pass?
  {
    hide IsValue;
  }

  /** A version 0 message whose ids are only present in encrypted form: its scheme is not written,
      so the parser no longer sees it as group-encrypted. */
  lemma EmittedGroupV0IsRefused() returns (ev: ParsedKommsEvent)
    ensures InDomain(ev) && ev.v == 0 && ev.enc && ev.encScheme == Some(4)
    ensures ev.role.None? && ev.extensionFields == map[]
    ensures EncodedPayload(ev).Ok? && ParseKommsPayload(EncodedPayload(ev).value).Err?
  {
    ev := P.DEFAULT_EVENT.(
      t := MessagePost, enc := true, encScheme := Some(4), encSid := Some([1]), encCid := Some([1]),
      encBodyRef := Some([1]), matchTag := Some(ZeroTag()), keyEpoch := Some(0));
    assert ValidateEvent(ev).Pass?;
    EncodedIsAcceptedIff(ev);
  }

  /** An extension under one of the keys 0 to 8 never follows the core keys, so it is refused. */
  lemma LowCoreKeyRefused(ev: ParsedKommsEvent, k: byte)
    requires EncodedPayload(ev).Ok? && k in ev.extensionFields && k <= 8
    ensures ParseKommsPayload(EncodedPayload(ev).value).Err?
    ensures ParseKommsPayload(EncodedPayload(ev).value).error.Canonical?
  {
    EmittedOutcome(ev);
    hide ParseKommsPayload, EncodedPayload, CoreField, Absorbed, ReservedKeysTyped, FirstFree;
    assert CoreField(ev, 8) == Some(Bool(ev.enc)) by { FlagWritten(ev); }
    WrittenBelowFirstFree(ev, EXTENSION_KEY_MIN, 8);
  }

  lemma FlagWritten(ev: ParsedKommsEvent)
    ensures CoreField(ev, 8) == Some(Bool(ev.enc))
  {
  }

  /** A core key in the extension map, out of order. */
  lemma EmittedCoreKeyIsRefused() returns (ev: ParsedKommsEvent)
    ensures EncodedPayload(ev).Ok? && ParseKommsPayload(EncodedPayload(ev).value).Err?
  {
    ev := PlainServer().(extensionFields := map[3 := Null]);
    PlainServerValid(ev.extensionFields);
    hide ValidateEvent, WirePairs, Enc, ParseStructure, PlainServer;
    LowCoreKeyRefused(ev, 3);
  }

  /** A core key in the extension map, in order but of the wrong type. */
  lemma EmittedMistypedKeyIsRefused() returns (ev: ParsedKommsEvent)
    ensures EncodedPayload(ev).Ok? && ParseKommsPayload(EncodedPayload(ev).value).Err?
  {
    ev := PlainServer().(extensionFields := map[32 := Null]);
    PlainServerValid(ev.extensionFields);
    assert 32 in ev.extensionFields && Mistyped(32, ev.extensionFields[32]).Some?;
    hide ValidateEvent, WirePairs, Enc, ParseKommsPayload, PlainServer, Mistyped, Absorbed, ExtensionKeysFollow;
    EmittedIsAcceptedIff(ev);
  }

  // ----- emitted, and accepted as another event -----

  /** `a` holds under extension key `k` what `b` holds in the core field of that key. */
  ghost predicate InPlaceOfField(a: ParsedKommsEvent, b: ParsedKommsEvent, k: byte)
  {
    && 8 < k < EXTENSION_KEY_MIN
    && CoreField(b, k).Some? && a.extensionFields == map[k := CoreField(b, k).value] && b.extensionFields == map[]
    && (forall j: byte | k <= j < EXTENSION_KEY_MIN :: CoreField(a, j).None?)
    && (forall j: byte | k < j < EXTENSION_KEY_MIN :: CoreField(b, j).None?)
    && (forall j: byte | j < k :: CoreField(a, j) == CoreField(b, j))
  }

  lemma {:induction false} NoMorePairs(ev: ParsedKommsEvent, lo: nat, hi: nat)
    requires lo <= hi <= EXTENSION_KEY_MIN
    requires forall j: byte | lo <= j < hi :: CoreField(ev, j).None?
    ensures CorePairs(ev, hi) == CorePairs(ev, lo)
  {
    hide CoreField;
    if lo < hi {
      NoMorePairs(ev, lo, hi - 1);
    }
  }

  lemma SingleListing(m: Fields, k: byte)
    requires forall j | j in m :: j == k
    ensures Listing(m, 0) == Pair(k, Lookup(m, k))
  {
    hide Listing;
    if k in m {
      ListingSkips(m, 0, k);
      ListingStep(m, k);
      ListingLocal(m, map[], k + 1);
      ListingSkips(map[], k + 1, KEY_LIMIT);
      assert Pair(k, Lookup(m, k)) + [] == Pair(k, Lookup(m, k));
    } else {
      ListingSkips(m, 0, KEY_LIMIT);
    }
    NothingListed(m, KEY_LIMIT);
    NothingListed(map[], KEY_LIMIT);
  }

  /** The two write the same pairs. */
  lemma ExtensionWritesAlike(a: ParsedKommsEvent, b: ParsedKommsEvent, k: byte)
    requires InPlaceOfField(a, b, k)
    ensures WirePairs(a) == WirePairs(b)
  {
    hide CoreField, CorePairs, Listing, IsValue;
    SameCorePairs(a, b, k);
    NoMorePairs(a, k, EXTENSION_KEY_MIN);
    NoMorePairs(b, k + 1, EXTENSION_KEY_MIN);
    CorePairsStep(b, k);
    SingleListing(a.extensionFields, k);
    SingleListing(b.extensionFields, k);
  }

  /** So the payload of the first is accepted as the second. */
  lemma ExtensionAbsorbed(a: ParsedKommsEvent, b: ParsedKommsEvent, k: byte)
    requires InPlaceOfField(a, b, k) && ValidateEvent(a).Pass? && ValidateEvent(b).Pass?
    requires b.v == 0 && b.encScheme == Some(if b.enc then 1 else 0)
    ensures EncodedPayload(a).Ok? && ParseKommsPayload(EncodedPayload(a).value) == Ok(b)
  {
    hide ValidateEvent, WirePairs, Enc, ParseKommsPayload, IsValue, CanonicalAt;
    ExtensionWritesAlike(a, b, k);
    EncodeParseIdentityIff(b);
  }

  /** The plain server as it is read back. */
  function ReadServer(): ParsedKommsEvent { PlainServer().(encScheme := Some(0)) }

  function OneBytes(k: byte, b: Vec): map<byte, Value> { map[k := Bytes(b)] }

  ghost predicate ServerTwins(a: ParsedKommsEvent, b: ParsedKommsEvent, k: byte, x: Vec)
  {
    && a == ReadServer().(extensionFields := OneBytes(k, x))
    && (|| (k == 11 && |x| == 64 && b == ReadServer().(sig := Some(x)))
        || (k == 17 && |x| == 32 && b == ReadServer().(devicePk := Some(x)))
        || (k == 32 && b == ReadServer().(target := Some(x))))
  }

  lemma TwinsValid(a: ParsedKommsEvent, b: ParsedKommsEvent, k: byte, x: Vec)
    requires ServerTwins(a, b, k, x)
    ensures ValidateEvent(a).Pass? && ValidateEvent(b).Pass?
  {
    hide IsValue, ZeroId, OneBytes;
  }

  lemma TwinsInPlace(a: ParsedKommsEvent, b: ParsedKommsEvent, k: byte, x: Vec)
    requires ServerTwins(a, b, k, x)
    ensures InPlaceOfField(a, b, k)
  {
    hide IsValue, ZeroId, CoreField, AsU8;
    TwinField(a, b, k, x);
    forall j: byte | j < EXTENSION_KEY_MIN
      ensures j < k ==> CoreField(a, j) == CoreField(b, j)
      ensures j >= k ==> CoreField(a, j).None?
      ensures j > k ==> CoreField(b, j).None?
    {
      TwinFields(a, b, k, x, j);
    }
  }

  lemma TwinField(a: ParsedKommsEvent, b: ParsedKommsEvent, k: byte, x: Vec)
    requires ServerTwins(a, b, k, x)
    ensures CoreField(b, k) == Some(Bytes(x))
  {
    hide IsValue, ZeroId, AsU8;
  }

  lemma TwinFields(a: ParsedKommsEvent, b: ParsedKommsEvent, k: byte, x: Vec, j: byte)
    requires ServerTwins(a, b, k, x)
    ensures j < k ==> CoreField(a, j) == CoreField(b, j)
    ensures j >= k ==> CoreField(a, j).None?
    ensures j > k ==> CoreField(b, j).None?
  {
    hide IsValue, ZeroId, AsU8, OneBytes;
  }

  lemma TwinAbsorbed(a: ParsedKommsEvent, b: ParsedKommsEvent, k: byte, x: Vec)
    requires ServerTwins(a, b, k, x)
    ensures EncodedPayload(a).Ok? && ParseKommsPayload(EncodedPayload(a).value) == Ok(b)
    ensures WirePairs(a) == WirePairs(b) && ValidateEvent(a).Pass? && ValidateEvent(b).Pass?
  {
    hide ValidateEvent, WirePairs, Enc, ParseKommsPayload, EncodedPayload, IsValue, ZeroId, InPlaceOfField, OneBytes;
    TwinsValid(a, b, k, x);
    TwinsInPlace(a, b, k, x);
    ExtensionAbsorbed(a, b, k);
    ExtensionWritesAlike(a, b, k);
  }

  /** A byte string under extension key 32 becomes the target. Both events have the same signing
      payload, though they differ in a signed field. */
  lemma EmittedKeyIsAbsorbed(target: Vec) returns (a: ParsedKommsEvent, b: ParsedKommsEvent)
    ensures a.target.None? && b.target == Some(target)
    ensures EncodedPayload(a).Ok? && ParseKommsPayload(EncodedPayload(a).value) == Ok(b)
    ensures SigningPayload(a).Ok? && SigningPayload(a) == SigningPayload(b) && Signed(a) != Signed(b)
  {
    hide ValidateEvent, WirePairs, Enc, ParseKommsPayload, IsValue, ZeroId, CoreField, InPlaceOfField;
    a, b := ReadServer().(extensionFields := OneBytes(32, target)), ReadServer().(target := Some(target));
    TwinAbsorbed(a, b, 32, target);
    assert a.(sig := None) == a && b.(sig := None) == b;
  }

  /** Any 32 bytes under extension key 17 become the device key, and with it the in-band signer. */
  lemma EmittedSignerIsAbsorbed(pk: Bytes32) returns (a: ParsedKommsEvent, b: ParsedKommsEvent)
    ensures EncodedPayload(a).Ok? && ParseKommsPayload(EncodedPayload(a).value) == Ok(b)
    ensures SignerPubkeyFromEvent(a) == OutOfBand && SignerPubkeyFromEvent(b) == InBand(pk)
  {
    hide ValidateEvent, WirePairs, Enc, ParseKommsPayload, EncodedPayload, IsValue, ZeroId, CoreField, InPlaceOfField;
    a, b := ReadServer().(extensionFields := OneBytes(17, pk)), ReadServer().(devicePk := Some(pk));
    TwinAbsorbed(a, b, 17, pk);
  }

  /** Any 64 bytes under extension key 11 become the signature: the event is unsigned before the
      trip, and after it verifies whenever those bytes sign it. */
  lemma EmittedSigIsAbsorbed(sig: Bytes64) returns (a: ParsedKommsEvent, b: ParsedKommsEvent)
    ensures EncodedPayload(a).Ok? && ParseKommsPayload(EncodedPayload(a).value) == Ok(b)
    ensures SigningPayload(b).Ok?
    ensures forall scheme, pubkey :: VerifyEvent(scheme, a, pubkey) == Err(SignatureMissing)
    ensures forall scheme, pubkey ::
              VerifyEvent(scheme, b, pubkey).Ok?
              <==> scheme.isKey(pubkey) && scheme.verifyStrict(pubkey, SigningPayload(b).value, sig)
  {
    hide ValidateEvent, WirePairs, Enc, ParseKommsPayload, EncodedPayload, IsValue, ZeroId, CoreField, InPlaceOfField;
    hide SigningPayload;
    a, b := ReadServer().(extensionFields := OneBytes(11, sig)), ReadServer().(sig := Some(sig));
    TwinAbsorbed(a, b, 11, sig);
    SigningPayloadExistsIff(b);
  }

  // ----- accepted, then refused after a relay; valid, yet never verified -----

  /** A received version 0 payload with key 13, accepted as a group-encrypted message, which a relay
      re-encodes without that key and nobody accepts any more. */
  lemma RelayedGroupV0IsRefused() returns (raw: seq<byte>)
    ensures ParseKommsPayload(raw).Ok?
    ensures EncodedPayload(ParseKommsPayload(raw).value).Ok?
    ensures ParseKommsPayload(EncodedPayload(ParseKommsPayload(raw).value).value).Err?
  {
    var ev := EmittedGroupV0IsRefused();
    assert ValidateEvent(ev).Pass?;
    hide ParseKommsPayload, ValidateEvent, WirePairs, Enc;
    raw := PayloadFor(ev);
  }

  // ----- two payloads, or one that is not reproduced -----

  /** A plain event with two accepted payloads: its scheme may be written or left out. */
  lemma PlainServerHasTwoPayloads() returns (a: seq<byte>, b: seq<byte>)
    ensures a != b && ParseKommsPayload(a).Ok? && ParseKommsPayload(a) == ParseKommsPayload(b)
  {
    var ev := ReadServer();
    ReadServerValid();
    hide ValidateEvent, ParseKommsPayload, PlainServer;
    a, b := TwoPayloads(ev);
  }

  lemma ReadServerValid()
    ensures ValidateEvent(ReadServer()).Pass? && ReadServer().extensionFields == map[] && ReadServer().v == 0
    ensures ReadServer().encScheme == Some(0) && !ReadServer().enc
  {
    hide ZeroId;
  }

  /** An accepted payload that is the only one of its event, and that re-encoding does not
      reproduce. */
  lemma OnlyPayloadNotReproduced() returns (raw: seq<byte>)
    ensures ParseKommsPayload(raw).Ok? && !Faithful(WireOf(raw))
    ensures forall other | ParseKommsPayload(other) == ParseKommsPayload(raw) :: other == raw
  {
    var ev := EmittedGroupV0IsRefused();
    assert ValidateEvent(ev).Pass?;
    hide ParseKommsPayload, ValidateEvent, WirePairs, Enc, Faithful, WireOf;
    raw := PayloadFor(ev);
    ParseThenEncode(raw);
    assert WrittenOneWay(ev);
    OnePayloadIff(raw);
  }

  /** A valid device revocation that fails verification under every scheme and key. */
  lemma DeviceRevokeNeverVerifies(pk: Bytes32, sig: Bytes64) returns (ev: ParsedKommsEvent)
    ensures ValidateEvent(ev).Pass? && ev.t == DeviceRevoke && ev.devicePk == Some(pk) && ev.sig == Some(sig)
    ensures forall scheme, pubkey ::
              VerifyEvent(scheme, ev, pubkey) == Err(EncodeFailed(MissingForType(DeviceRevoke, "sig")))
  {
    ev := P.DEFAULT_EVENT.(t := DeviceRevoke, devicePk := Some(pk), sig := Some(sig));
    forall scheme, pubkey
      ensures VerifyEvent(scheme, ev, pubkey) == Err(EncodeFailed(MissingForType(DeviceRevoke, "sig")))
    {
      SigDemandingTypesNeverVerify(scheme, ev, pubkey);
    }
  }

  // ----- accepted, yet re-encoded differently -----

  /** The plain server's map with one more entry. */
  function ServerWith(k: byte, value: Item): seq<Entry>
  {
    [Entry(UInt(0), UInt(0))] + ([Entry(UInt(1), UInt(0))] + ([Entry(UInt(2), Bytes(ZeroId()))] +
      ([Entry(UInt(8), Bool(false))] + ([Entry(UInt(k), value)] + []))))
  }

  lemma Cons(k: byte, value: Item, rest: seq<Entry>, least: nat)
    requires least <= k && AscendingFrom(rest, k + 1) && ByteKeys(rest)
    requires forall e | e in rest :: CanonicalAt(e.value, 1) && TextsValid(e.key) && TextsValid(e.value)
    requires CanonicalAt(value, 1) && TextsValid(value)
    ensures var s := [Entry(UInt(k), value)] + rest;
            && AscendingFrom(s, least) && ByteKeys(s) && MapOf(s) == MapOf(rest)[k := value]
            && forall e | e in s :: CanonicalAt(e.value, 1) && TextsValid(e.key) && TextsValid(e.value)
  {
    hide CanonicalAt;
    assert ([Entry(UInt(k), value)] + rest)[1..] == rest;
  }

  lemma ServerWithForm(k: byte, value: Item)
    requires k > 8 && CanonicalAt(value, 1) && TextsValid(value)
    ensures CanonicalAt(Map(ServerWith(k, value)), 0) && TextsValid(Map(ServerWith(k, value)))
    ensures ByteKeys(ServerWith(k, value))
    ensures MapOf(ServerWith(k, value))
         == map[0 := UInt(0), 1 := UInt(0), 2 := Bytes(ZeroId()), 8 := Bool(false), k := value]
  {
    hide MapOf, ByteKeys, AscendingFrom, CanonicalAt, TextsValid, ZeroId;
    LeavesCanonical();
    ServerEmpty(k);
    var last := [Entry(UInt(k), value)] + [];
    Cons(k, value, [], 9);
    var flag := [Entry(UInt(8), Bool(false))] + last;
    Cons(8, Bool(false), last, 3);
    var id := [Entry(UInt(2), Bytes(ZeroId()))] + flag;
    Cons(2, Bytes(ZeroId()), flag, 2);
    var code := [Entry(UInt(1), UInt(0))] + id;
    Cons(1, UInt(0), id, 1);
    Cons(0, UInt(0), code, 0);
    ServerCanonical(k, value);
  }

  lemma LeavesCanonical()
    ensures CanonicalAt(UInt(0), 1) && CanonicalAt(Bool(false), 1) && forall b: Vec :: CanonicalAt(Bytes(b), 1)
    ensures TextsValid(UInt(0)) && TextsValid(Bool(false)) && forall b: Vec :: TextsValid(Bytes(b))
  {
  }

  lemma ServerCanonical(k: byte, value: Item)
    requires var s := ServerWith(k, value);
             && AscendingFrom(s, 0)
             && forall e | e in s :: CanonicalAt(e.value, 1) && TextsValid(e.key) && TextsValid(e.value)
    ensures CanonicalAt(Map(ServerWith(k, value)), 0) && TextsValid(Map(ServerWith(k, value)))
  {
    forall j | 0 <= j < |ServerWith(k, value)|
      ensures CanonicalAt(ServerWith(k, value)[j].value, 1)
      ensures TextsValid(ServerWith(k, value)[j].key) && TextsValid(ServerWith(k, value)[j].value)
    {
      assert ServerWith(k, value)[j] in ServerWith(k, value);
    }
  }

  lemma ServerEmpty(k: byte)
    ensures AscendingFrom([], k + 1) && ByteKeys([]) && MapOf([]) == map[]
  {
  }

  /** What may be added to the plain server so that it is still accepted, yet not reproduced. */
  ghost predicate Unfaithful(k: byte, value: Item)
  {
    || (k == 13 && value == UInt(0))
    || (k == 31 && value.UInt? && value.n > 255)
    || (k >= EXTENSION_KEY_MIN && CanonicalAt(value, 1) && TextsValid(value) && HasUndefined(value))
  }

  /** Each of the three conditions of `RoundTrip.ParseThenEncode` is needed: violating any one of
      them gives a payload that is accepted and re-encodes to other bytes. */
  lemma ReencodedDifferently(k: byte, value: Item) returns (raw: seq<byte>)
    requires Unfaithful(k, value)
    ensures WireOf(raw) == map[0 := UInt(0), 1 := UInt(0), 2 := Bytes(ZeroId()), 8 := Bool(false), k := value]
    ensures ParseKommsPayload(raw).Ok?
    ensures EncodedPayload(ParseKommsPayload(raw).value).Ok?
    ensures EncodedPayload(ParseKommsPayload(raw).value).value != raw
  {
    hide ParseKommsPayload, WireOf, CanonicalAt, TextsValid, HasUndefined, ZeroId;
    raw := AcceptedServer(k, value);
    ParseThenEncode(raw);
    NotFaithful(k, value);
  }

  lemma NotFaithful(k: byte, value: Item)
    requires Unfaithful(k, value)
    ensures !Faithful(map[0 := UInt(0), 1 := UInt(0), 2 := Bytes(ZeroId()), 8 := Bool(false), k := value])
  {
    hide CanonicalAt, TextsValid, HasUndefined, ZeroId;
    var wire: Fields := map[0 := UInt(0), 1 := UInt(0), 2 := Bytes(ZeroId()), 8 := Bool(false), k := value];
    assert k in wire && wire[k] == value;
  }

  lemma AcceptedServer(k: byte, value: Item) returns (raw: seq<byte>)
    requires Unfaithful(k, value)
    ensures WireOf(raw) == map[0 := UInt(0), 1 := UInt(0), 2 := Bytes(ZeroId()), 8 := Bool(false), k := value]
    ensures ParseKommsPayload(raw).Ok?
  {
    assert CanonicalAt(value, 1) && TextsValid(value);
    ServerWithForm(k, value);
    hide MapOf, ByteKeys, AscendingFrom, ServerWith, Build, WellTyped, ZeroId, ValidateEvent, Enc, WireOf;
    hide Unfaithful, Collapse, CanonicalAt, TextsValid, DecodedMap, ParseKommsPayload;
    var entries := ServerWith(k, value);
    raw := KOMMS_PAYLOAD_PREFIX + Enc(Map(entries));
    forall j: byte
      ensures Lookup(DecodedMap(entries), j)
           == if Lookup(MapOf(entries), j).None? then None else Some(Collapse(MapOf(entries)[j]))
    {
      DecodedLookup(entries, j);
    }
    ServerFields(DecodedMap(entries), k, value);
    AcceptedForm(raw, entries);
  }

  lemma ServerFields(m: map<byte, Value>, k: byte, value: Item)
    requires Unfaithful(k, value)
    requires var wire: Fields := map[0 := UInt(0), 1 := UInt(0), 2 := Bytes(ZeroId()), 8 := Bool(false), k := value];
             forall j: byte ::
               Lookup(m, j) == if Lookup(wire, j).None? then None else Some(Collapse(wire[j]))
    ensures WellTyped(m) && Build(m).v == 0 && ValidateEvent(Build(m)).Pass?
  {
    hide NameOf, CanonicalAt, TextsValid, HasUndefined, IsValue, Extensions, ZeroId, Build, ValidateEvent, Mistyped;
    assert Lookup(m, 0) == Some(UInt(0)) && Lookup(m, 1) == Some(UInt(0)) && Lookup(m, 8) == Some(Bool(false));
    assert Lookup(m, 2) == Some(Bytes(ZeroId()));
    ServerTypes();
    if k < EXTENSION_KEY_MIN {
      AddedType(k, value);
    }
    forall j: byte | j < EXTENSION_KEY_MIN ensures Complaint(m, j).None? {
      assert Lookup(m, j).Some? ==> j == 0 || j == 1 || j == 2 || j == 8 || j == k;
    }
    ServerBuilt(m);
  }

  lemma ServerTypes()
    ensures Mistyped(0, UInt(0)).None? && Mistyped(1, UInt(0)).None? && Mistyped(8, Bool(false)).None?
    ensures Mistyped(2, Bytes(ZeroId())).None?
  {
    hide NameOf, ZeroId;
  }

  lemma AddedType(k: byte, value: Item)
    requires Unfaithful(k, value) && k < EXTENSION_KEY_MIN
    ensures Mistyped(k, Collapse(value)).None?
  {
    hide NameOf, CanonicalAt, TextsValid, HasUndefined, Collapse;
    assert value.UInt? && Collapse(value) == value;
  }

  lemma ServerBuilt(m: map<byte, Value>)
    requires Lookup(m, 0) == Some(UInt(0)) && Lookup(m, 1) == Some(UInt(0)) && Lookup(m, 8) == Some(Bool(false))
    requires Lookup(m, 2).Some? && m[2].Bytes? && |m[2].b| == 32
    requires forall j: byte | 3 <= j < EXTENSION_KEY_MIN && j !in {8, 13, 31} :: Lookup(m, j).None?
    requires Lookup(m, 13).None? || Lookup(m, 13) == Some(UInt(0))
    ensures Build(m).v == 0 && ValidateEvent(Build(m)).Pass?
  {
    hide NameOf, IsValue, Extensions, CheckCommon, CheckType;
    assert forall j: byte | 3 <= j < EXTENSION_KEY_MIN && j !in {8, 13, 31} :: Lookup(m, j).None? ==> j !in m;
    var ev := Build(m);
    assert ev.t == ServerCreate && ev.sid.Some? && ev.encScheme == Some(0) && !ev.enc;
    assert ev.refBytes.None? && ev.mime.None? && ev.reactionKey.None? && ev.sigScheme.None? && ev.sealedSigner.None?;
    assert ev.cid.None? && ev.encCid.None? && ev.did.None?;
    hide Build;
    ServerShapeValid(ev);
  }

  lemma ServerShapeValid(ev: ParsedKommsEvent)
    requires ev.v == 0 && ev.t == ServerCreate && ev.sid.Some? && ev.encScheme == Some(0) && !ev.enc
    requires ev.refBytes.None? && ev.mime.None? && ev.reactionKey.None? && ev.sigScheme.None? && ev.sealedSigner.None?
    requires ev.cid.None? && ev.encCid.None? && ev.did.None?
    ensures ValidateEvent(ev).Pass?
  {
  }
}
