/** Which events the parser returns, and how many payloads each of them has. */
module Payloads {
  import opened Base
  import opened Cbor
  import opened CanonicalLanguage
  import opened Values
  import opened Event
  import opened Fields
  import opened Pairs
  import opened Encode
  import opened Payload
  import opened Emitted
  import opened RoundTrip
  import C = Conservation

  // ----- a payload for a wire map -----

  /** What decoding makes of a value, if there is one. */
  function Read(o: Option<Item>): Option<Item>
  {
    if o.None? then None else Some(Collapse(o.value))
  }

  ghost predicate Reads(wire: Fields, m: map<byte, Value>)
  {
    forall k: byte :: Lookup(m, k) == Read(Lookup(wire, k))
  }

  ghost predicate FitsWire(i: Item)
  {
    CanonicalAt(i, 1) && TextsValid(i)
  }

  lemma ListingForm(wire: Fields)
    requires forall k | k in wire :: FitsWire(wire[k])
    ensures ByteKeys(Listing(wire, 0)) && MapOf(Listing(wire, 0)) == wire
    ensures CanonicalAt(Map(Listing(wire, 0)), 0) && TextsValid(Map(Listing(wire, 0)))
  {
    hide FitsWire, CanonicalAt, TextsValid, Listing, AscendingFrom;
    var entries := Listing(wire, 0);
    ListingAscends(wire, 0);
    forall k | 0 <= k < |entries| ensures entries[k].key.UInt? && FitsWire(entries[k].value) {
      ListingValues(wire, 0, k);
    }
    EntriesForm(entries);
    MapOfListing(wire, 0);
    SameLookups(MapOf(entries), wire);
  }

  lemma EntriesForm(entries: seq<Entry>)
    requires AscendingFrom(entries, 0) && |entries| < TWO_64
    requires forall k | 0 <= k < |entries| :: entries[k].key.UInt? && FitsWire(entries[k].value)
    ensures CanonicalAt(Map(entries), 0) && TextsValid(Map(entries))
  {
  }

  /** The payload with this wire map parses to the event its decoded map builds. */
  lemma WirePayload(wire: Fields, m: map<byte, Value>, ev: ParsedKommsEvent) returns (raw: seq<byte>)
    requires forall k | k in wire :: FitsWire(wire[k])
    requires Reads(wire, m) && WellTyped(m) && Build(m) == ev && ValidateEvent(ev).Pass?
    ensures ParseKommsPayload(raw) == Ok(ev) && WireOf(raw) == wire
  {
    hide ValidateEvent, WellTyped, Build, Listing, CanonicalAt, TextsValid, Enc, FitsWire, Collapse;
    hide ParseKommsPayload, DecodedMap, ByteKeys, MapOf, WireOf;
    ListingForm(wire);
    var entries := Listing(wire, 0);
    forall k: byte ensures Lookup(DecodedMap(entries), k) == Lookup(m, k) {
      DecodedLookup(entries, k);
    }
    SameLookups(DecodedMap(entries), m);
    ValidVersion(ev);
    raw := KOMMS_PAYLOAD_PREFIX + Enc(Map(entries));
    AcceptedForm(raw, entries);
  }

  lemma ValidVersion(ev: ParsedKommsEvent)
    requires ValidateEvent(ev).Pass?
    ensures ev.v <= MAX_KNOWN_VERSION
  {
    ValidShape(ev);
  }

  lemma ReadsItself(m: map<byte, Value>)
    ensures Reads(m, m)
  {
    hide Collapse;
    forall k: byte ensures Lookup(m, k) == Read(Lookup(m, k)) {
      if k in m {
        CollapseKeeps(m[k]);
      }
    }
  }

  // ----- which events are read -----

  /** The map of the event, with its scheme written in version 0 too. */
  function FullMap(ev: ParsedKommsEvent): map<byte, Value>
  {
    if ev.encScheme.Some? then WireMap(ev)[13 := UInt(ev.encScheme.value)] else WireMap(ev)
  }

  lemma FullLookup(ev: ParsedKommsEvent, k: byte)
    requires ev.encScheme.Some?
    ensures Lookup(FullMap(ev), k) == if k == 13 then Some(UInt(ev.encScheme.value)) else WireField(ev, k)
  {
    hide WireMap, WireField, IsValue;
    WireLookup(ev, k);
  }

  lemma FullMapTyped(ev: ParsedKommsEvent)
    requires ev.encScheme.Some?
    ensures WellTyped(FullMap(ev))
  {
    hide FullMap, CoreField, NameOf, IsValue;
    forall k: byte | k < EXTENSION_KEY_MIN ensures Complaint(FullMap(ev), k).None? {
      FullLookup(ev, k);
      CoreFieldTyped(ev, k);
    }
  }

  lemma FullMapBuilds(ev: ParsedKommsEvent)
    requires ExtensionKeysApart(ev) && FromU8(AsU8(ev.t)) == ev.t && ev.encScheme.Some?
    ensures WellTyped(FullMap(ev)) && Build(FullMap(ev)) == ev
  {
    hide FullMap, Build, CoreField, Complaint, FromU8, AsU8, IsValue, WellTyped;
    var m := FullMap(ev);
    FullMapTyped(ev);
    FullEnvelope(ev);
    FullLookup(ev, 13);
    Conservation(m, 13);
    forall k: byte | k < EXTENSION_KEY_MIN ensures CoreField(Build(m), k) == CoreField(ev, k) {
      FullField(ev, k);
    }
    FieldsDetermine(Build(m), ev);
  }

  lemma FullField(ev: ParsedKommsEvent, k: byte)
    requires k < EXTENSION_KEY_MIN && ev.encScheme.Some?
    requires WellTyped(FullMap(ev)) && Build(FullMap(ev)).v == ev.v
    ensures CoreField(Build(FullMap(ev)), k) == CoreField(ev, k)
  {
    hide FullMap, Build, Complaint, WellTyped, IsValue;
    FullLookup(ev, k);
    FullLookup(ev, 31);
    Conservation(FullMap(ev), k);
  }

  lemma FullEnvelope(ev: ParsedKommsEvent)
    requires ExtensionKeysApart(ev) && FromU8(AsU8(ev.t)) == ev.t && ev.encScheme.Some?
    requires WellTyped(FullMap(ev))
    ensures var a := Build(FullMap(ev));
            a.v == ev.v && a.t == ev.t && a.extensionFields == ev.extensionFields
  {
    hide FullMap, Build, FromU8, AsU8, Mistyped, NameOf, IsValue;
    assert Complaint(FullMap(ev), 0).None?;
    hide WellTyped;
    FullLookup(ev, 0);
    FullLookup(ev, 1);
    BuiltVersion(FullMap(ev));
    BuiltType(FullMap(ev));
    BuiltExtensions(FullMap(ev));
    forall k: byte ensures Lookup(Extensions(FullMap(ev)), k) == Lookup(ev.extensionFields, k) {
      FullLookup(ev, k);
    }
    SameLookups(Extensions(FullMap(ev)), ev.extensionFields);
  }

  lemma FullValuesCanonical(ev: ParsedKommsEvent)
    requires ExtensionsCanonical(ev) && ev.encScheme.Some?
    ensures forall k | k in FullMap(ev) :: CanonicalAt(FullMap(ev)[k], 1)
  {
    hide FullMap, CoreField, IsValue;
    forall k | k in FullMap(ev) ensures CanonicalAt(FullMap(ev)[k], 1) {
      FullLookup(ev, k);
      CoreFieldsAreLeaves(ev, k);
    }
  }

  lemma ValuesFit(m: map<byte, Value>)
    requires forall k | k in m :: CanonicalAt(m[k], 1)
    ensures forall k | k in m :: FitsWire(m[k])
  {
    hide CanonicalAt;
  }

  /** A valid event with a scheme, and with its extensions in the domain. */
  ghost predicate Readable(ev: ParsedKommsEvent)
  {
    ValidateEvent(ev).Pass? && InDomain(ev) && ev.encScheme.Some?
  }

  /** The payload that writes every field, the scheme included, parses to the event. */
  lemma PayloadFor(ev: ParsedKommsEvent) returns (raw: seq<byte>)
    requires Readable(ev)
    ensures ParseKommsPayload(raw) == Ok(ev) && WireOf(raw) == FullMap(ev)
  {
    hide ValidateEvent, FullMap, WellTyped, Build, CanonicalAt, FitsWire, ExtensionsCanonical;
    hide ParseKommsPayload, FromU8, AsU8, WireOf, Reads;
    ValidShape(ev);
    FullMapBuilds(ev);
    FullValuesCanonical(ev);
    ValuesFit(FullMap(ev));
    ReadsItself(FullMap(ev));
    raw := WirePayload(FullMap(ev), FullMap(ev), ev);
  }

  /** Main theorem: the events the parser returns are exactly the valid ones whose extensions are in
      the domain and which have a scheme. */
  lemma ParserImage(ev: ParsedKommsEvent)
    ensures (exists raw :: ParseKommsPayload(raw) == Ok(ev))
       <==> Readable(ev)
  {
    hide CheckCommon, CheckType, ParseStructure, ExtensionsCanonical;
    if raw :| ParseKommsPayload(raw) == Ok(ev) {
      ParsedInDomain(raw);
      ParsedScheme(raw);
    }
    if Readable(ev) {
      var raw := PayloadFor(ev);
    }
  }

  lemma ParsedScheme(raw: seq<byte>)
    requires ParseKommsPayload(raw).Ok?
    ensures ParseKommsPayload(raw).value.encScheme.Some?
  {
    hide ParseKommsPayload, CheckCommon, CheckType, Build, DecodedMap, TextsValid, WellTyped, Enc, WireOf;
    var entries := ParsedForm(raw);
    ValidShape(Build(DecodedMap(entries)));
    BuiltScheme(DecodedMap(entries));
  }

  lemma BuiltScheme(m: map<byte, Value>)
    ensures Build(m).v == 0 ==> Build(m).encScheme.Some?
  {
    hide FromU8, TypeByte, Extensions, IsValue;
  }

  // ----- how many payloads an event has -----

  /** `i` holds a null, itself or as an element or map value at any depth. */
  predicate HasNull(i: Item)
  {
    match i
    case Null => true
    case Arr(items) => exists k | 0 <= k < |items| :: HasNull(items[k])
    case Map(entries) => exists k | 0 <= k < |entries| :: HasNull(entries[k].value)
    case Tag(_, item) => HasNull(item)
    case _ => false
  }

  /** Where the wire had `undefined`, the decoded value has a null. */
  lemma {:induction false} UndefinedShows(i: Item, depth: nat)
    requires CanonicalAt(i, depth) && HasUndefined(i)
    ensures HasNull(Collapse(i))
  {
    match i
    case Arr(items) =>
      var k :| 0 <= k < |items| && HasUndefined(items[k]);
      UndefinedShows(items[k], depth + 1);
      assert Collapse(i).items[k] == Collapse(items[k]);
    case Map(entries) =>
      var k :| 0 <= k < |entries| && (HasUndefined(entries[k].key) || HasUndefined(entries[k].value));
      AscendingAt(entries, 0, k);
      UndefinedShows(entries[k].value, depth + 1);
      assert Collapse(i).entries[k].value == Collapse(entries[k].value);
    case _ =>
  }

  /** `i` with `undefined` in place of every null. */
  function Undefine(i: Item): Item
  {
    match i
    case Null => Undefined
    case Arr(items) => Arr(seq(|items|, k requires 0 <= k < |items| => Undefine(items[k])))
    case Map(entries) =>
      Map(seq(|entries|, k requires 0 <= k < |entries| => Entry(entries[k].key, Undefine(entries[k].value))))
    case Tag(tag, item) => Tag(tag, Undefine(item))
    case _ => i
  }

  lemma {:induction false} UndefineCollapses(i: Item)
    requires !HasUndefined(i)
    ensures Collapse(Undefine(i)) == i
  {
    match i
    case Arr(items) =>
      forall k | 0 <= k < |items| ensures Collapse(Undefine(items[k])) == items[k] { UndefineCollapses(items[k]); }
      assert Collapse(Undefine(i)).items == items;
    case Map(entries) =>
      forall k | 0 <= k < |entries|
        ensures Entry(Collapse(entries[k].key), Collapse(Undefine(entries[k].value))) == entries[k]
      {
        CollapseKeeps(entries[k].key);
        UndefineCollapses(entries[k].value);
      }
      assert Collapse(Undefine(i)).entries == entries;
    case Tag(_, item) => UndefineCollapses(item);
    case _ =>
  }

  lemma {:induction false} UndefineFits(i: Item, depth: nat)
    requires CanonicalAt(i, depth) && TextsValid(i)
    ensures CanonicalAt(Undefine(i), depth) && TextsValid(Undefine(i))
  {
    match i
    case Arr(items) =>
      forall k | 0 <= k < |items|
        ensures CanonicalAt(Undefine(items[k]), depth + 1) && TextsValid(Undefine(items[k]))
      {
        UndefineFits(items[k], depth + 1);
      }
    case Map(entries) =>
      forall k | 0 <= k < |entries|
        ensures CanonicalAt(Undefine(entries[k].value), depth + 1) && TextsValid(Undefine(entries[k].value))
      {
        UndefineFits(entries[k].value, depth + 1);
      }
      SameKeysAscend(entries, Undefine(i).entries, 0);
    case _ =>
  }

  lemma {:induction false} SameKeysAscend(entries: seq<Entry>, other: seq<Entry>, least: nat)
    requires |other| == |entries| && forall k | 0 <= k < |entries| :: other[k].key == entries[k].key
    requires AscendingFrom(entries, least)
    ensures AscendingFrom(other, least)
  {
    if entries != [] {
      SameKeysAscend(entries[1..], other[1..], entries[0].key.n + 1);
    }
  }

  lemma {:induction false} UndefineDiffers(i: Item)
    requires HasNull(i)
    ensures HasUndefined(Undefine(i))
  {
    match i
    case Arr(items) =>
      var k :| 0 <= k < |items| && HasNull(items[k]);
      UndefineDiffers(items[k]);
      assert Undefine(i).items[k] == Undefine(items[k]);
    case Map(entries) =>
      var k :| 0 <= k < |entries| && HasNull(entries[k].value);
      UndefineDiffers(entries[k].value);
      assert Undefine(i).entries[k].value == Undefine(entries[k].value);
    case Tag(_, item) => UndefineDiffers(item);
    case _ =>
  }

  /** The event leaves no choice in writing it: its version 0 scheme could not be left out, its role
      is not one that several wire values saturate to, and no extension holds a null that the wire
      could have as `undefined`. */
  predicate WrittenOneWay(ev: ParsedKommsEvent)
  {
    && !(ev.v == 0 && ev.encScheme == Some(if ev.enc then 1 else 0))
    && ev.role != Some(255)
    && forall k | k in ev.extensionFields :: !HasNull(ev.extensionFields[k])
  }

  lemma SchemeLeftOut(ev: ParsedKommsEvent) returns (raw: seq<byte>)
    requires Readable(ev) && ev.v == 0 && ev.encScheme == Some(if ev.enc then 1 else 0)
    ensures ParseKommsPayload(raw) == Ok(ev) && 13 !in WireOf(raw)
  {
    hide ValidateEvent, WireMap, FullMap, WellTyped, Build, CanonicalAt, FitsWire, ParseKommsPayload, WireOf;
    hide FromU8, AsU8, Reads, IsValue;
    ValidShape(ev);
    Rebuild(ev);
    FullValuesCanonical(ev);
    WireLookup(ev, 13);
    SchemeUnwritten(ev);
    forall k | k in WireMap(ev) ensures CanonicalAt(WireMap(ev)[k], 1) {
      WireLookup(ev, k);
      FullLookup(ev, k);
      assert Lookup(FullMap(ev), k) == Lookup(WireMap(ev), k);
    }
    ValuesFit(WireMap(ev));
    ReadsItself(WireMap(ev));
    raw := WirePayload(WireMap(ev), WireMap(ev), ev);
  }

  lemma SchemeUnwritten(ev: ParsedKommsEvent)
    requires ev.v == 0
    ensures WireField(ev, 13) == None
  {
  }

  lemma RoleEnlarged(ev: ParsedKommsEvent) returns (raw: seq<byte>)
    requires Readable(ev) && ev.role == Some(255)
    ensures ParseKommsPayload(raw) == Ok(ev) && Lookup(WireOf(raw), 31) == Some(UInt(256))
  {
    hide ValidateEvent, FullMap, WellTyped, Build, CanonicalAt, FitsWire, ParseKommsPayload, WireOf;
    hide FromU8, AsU8, Reads;
    var m := FullMap(ev);
    var larger: map<byte, Value> := m[31 := UInt(256)];
    ValidShape(ev);
    FullMapBuilds(ev);
    FullValuesCanonical(ev);
    FullLookup(ev, 31);
    RoleUnderItsKey(ev);
    LargerRoleBuilds(m, larger);
    assert CanonicalAt(UInt(256), 1) by { LeafCanonical(256); }
    ValuesFit(larger);
    ReadsItself(larger);
    raw := WirePayload(larger, larger, ev);
  }

  lemma LeafCanonical(n: u64)
    ensures CanonicalAt(UInt(n), 1)
  {
  }

  lemma RoleUnderItsKey(ev: ParsedKommsEvent)
    requires ev.role == Some(255)
    ensures WireField(ev, 31) == Some(UInt(255))
  {
  }

  lemma LargerRoleBuilds(m: map<byte, Value>, larger: map<byte, Value>)
    requires WellTyped(m) && Lookup(m, 31) == Some(UInt(255)) && larger == m[31 := UInt(256)]
    ensures WellTyped(larger) && Build(larger) == Build(m)
  {
    hide GetUint, GetBlob, Get16, Get32, Get64, GetText, NameOf, FromU8, IsValue, Extensions, TypeByte, Build;
    forall k: byte | k < EXTENSION_KEY_MIN ensures Complaint(larger, k).None? {
      assert Complaint(m, k).None?;
    }
    OthersUnchanged(m, larger);
    SameBuild(m, larger);
  }

  /** The two maps agree on every key but 31. */
  ghost predicate AgreeOffRole(m: map<byte, Value>, larger: map<byte, Value>)
  {
    && (forall k: byte | k != 31 :: GetUint(larger, k) == GetUint(m, k))
    && (forall k: byte | k != 31 :: GetBlob(larger, k) == GetBlob(m, k))
    && (forall k: byte | k != 31 :: Get16(larger, k) == Get16(m, k))
    && (forall k: byte | k != 31 :: Get32(larger, k) == Get32(m, k))
    && (forall k: byte | k != 31 :: Get64(larger, k) == Get64(m, k))
    && (forall k: byte | k != 31 :: GetText(larger, k) == GetText(m, k))
    && TypeByte(larger) == TypeByte(m) && Extensions(larger) == Extensions(m)
    && (8 in larger && larger[8] == Bool(true)) == (8 in m && m[8] == Bool(true))
  }

  lemma OthersUnchanged(m: map<byte, Value>, larger: map<byte, Value>)
    requires larger == m[31 := UInt(256)]
    ensures AgreeOffRole(m, larger)
  {
    hide IsValue;
  }

  lemma SameBuild(m: map<byte, Value>, larger: map<byte, Value>)
    requires AgreeOffRole(m, larger)
    requires Lookup(m, 31) == Some(UInt(255)) && Lookup(larger, 31) == Some(UInt(256))
    ensures Build(larger) == Build(m)
  {
    assert GetUint(m, 31) == Some(255) && GetUint(larger, 31) == Some(256);
    hide GetUint, GetBlob, Get16, Get32, Get64, GetText, FromU8, IsValue, Extensions, TypeByte;
  }

  lemma NullAsUndefined(ev: ParsedKommsEvent, key: byte) returns (raw: seq<byte>)
    requires Readable(ev) && key in ev.extensionFields && HasNull(ev.extensionFields[key])
    ensures ParseKommsPayload(raw) == Ok(ev)
    ensures key in WireOf(raw) && HasUndefined(WireOf(raw)[key])
  {
    hide ValidateEvent, FullMap, WellTyped, Build, CanonicalAt, FitsWire, ParseKommsPayload, FromU8, AsU8, WireOf;
    hide ExtensionsCanonical, Undefine, Collapse, HasNull;
    var m, i := FullMap(ev), ev.extensionFields[key];
    ValidShape(ev);
    FullMapBuilds(ev);
    FullValuesCanonical(ev);
    FullLookup(ev, key);
    assert m[key] == i;
    ValuesFit(m);
    ReadsItself(m);
    UndefineDiffers(i);
    UndefineCollapses(i);
    assert FitsWire(Undefine(i)) by {
      UndefineStillFits(i);
    }
    var wire: Fields := m[key := Undefine(i)];
    forall k: byte ensures Lookup(m, k) == Read(Lookup(wire, k)) {
      assert Lookup(m, k) == Read(Lookup(m, k));
    }
    raw := WirePayload(wire, m, ev);
  }

  lemma UndefineStillFits(i: Item)
    requires FitsWire(i)
    ensures FitsWire(Undefine(i))
  {
    UndefineFits(i, 1);
  }

  /** An event that is not written one way only has two payloads. */
  lemma TwoPayloads(ev: ParsedKommsEvent) returns (a: seq<byte>, b: seq<byte>)
    requires Readable(ev) && !WrittenOneWay(ev)
    ensures a != b && ParseKommsPayload(a) == Ok(ev) && ParseKommsPayload(b) == Ok(ev)
  {
    hide Readable, ParseKommsPayload, WireOf, FullMap, HasNull, HasUndefined;
    a := PayloadFor(ev);
    FullMapKeys(ev);
    if ev.v == 0 && ev.encScheme == Some(if ev.enc then 1 else 0) {
      b := SchemeLeftOut(ev);
    } else if ev.role == Some(255) {
      b := RoleEnlarged(ev);
    } else {
      var key :| key in ev.extensionFields && HasNull(ev.extensionFields[key]);
      b := NullAsUndefined(ev, key);
    }
  }

  lemma FullMapKeys(ev: ParsedKommsEvent)
    requires Readable(ev)
    ensures 13 in FullMap(ev)
    ensures ev.role == Some(255) ==> Lookup(FullMap(ev), 31) == Some(UInt(255))
    ensures forall k | k in ev.extensionFields :: k in FullMap(ev) && !HasUndefined(FullMap(ev)[k])
  {
    hide ValidateEvent, FullMap, HasUndefined, CoreField;
    FullLookup(ev, 13);
    FullLookup(ev, 31);
    if ev.role == Some(255) {
      RoleUnderItsKey(ev);
    }
    forall k | k in ev.extensionFields ensures k in FullMap(ev) && !HasUndefined(FullMap(ev)[k]) {
      FullLookup(ev, k);
    }
  }

  /** The wire map of an accepted payload whose event is written one way only. */
  lemma WireIsFull(raw: seq<byte>)
    requires ParseKommsPayload(raw).Ok? && WrittenOneWay(ParseKommsPayload(raw).value)
    ensures WireOf(raw) == FullMap(ParseKommsPayload(raw).value)
  {
    hide ParseKommsPayload, WireOf, FullMap, WrittenOneWay;
    var ev := ParseKommsPayload(raw).value;
    forall k: byte ensures Lookup(WireOf(raw), k) == Lookup(FullMap(ev), k) {
      WireKeyIsFull(raw, k);
    }
    SameLookups(WireOf(raw), FullMap(ev));
  }

  lemma WireKeyIsFull(raw: seq<byte>, k: byte)
    requires ParseKommsPayload(raw).Ok? && WrittenOneWay(ParseKommsPayload(raw).value)
    ensures Lookup(WireOf(raw), k) == Lookup(FullMap(ParseKommsPayload(raw).value), k)
  {
    hide ParseKommsPayload, WireOf, FullMap, CoreField, HasNull, Collapse;
    var ev := ParseKommsPayload(raw).value;
    ParsedScheme(raw);
    C.FieldsConserved(raw, k);
    C.FieldsConserved(raw, 13);
    FullLookup(ev, k);
    RoleField(ev);
    if k < EXTENSION_KEY_MIN {
      CoreKeyKept(raw, k);
    } else {
      ExtensionKeyKept(raw, k);
    }
    SchemeWritten(ev);
  }

  lemma RoleField(ev: ParsedKommsEvent)
    ensures WireField(ev, 31) == if ev.role.Some? then Some(UInt(ev.role.value)) else None
  {
  }

  lemma SchemeWritten(ev: ParsedKommsEvent)
    ensures WireField(ev, 13) == if ev.v == 0 then None else OfUint(ev.encScheme)
  {
  }

  lemma CoreKeyKept(raw: seq<byte>, k: byte)
    requires ParseKommsPayload(raw).Ok? && k < EXTENSION_KEY_MIN
    ensures k in WireOf(raw) ==> Collapse(WireOf(raw)[k]) == WireOf(raw)[k]
  {
    hide ParseKommsPayload, WireOf, DecodedMap, MapOf, Build, WellTyped, TextsValid, CanonicalAt, Collapse, Enc;
    hide ValidateEvent;
    var entries := ParsedForm(raw);
    C.WireLeafKeptIfTyped(entries, k);
    DecodedLookup(entries, k);
  }

  lemma ExtensionKeyKept(raw: seq<byte>, k: byte)
    requires ParseKommsPayload(raw).Ok? && k >= EXTENSION_KEY_MIN
    requires WrittenOneWay(ParseKommsPayload(raw).value)
    ensures k in WireOf(raw) ==> Collapse(WireOf(raw)[k]) == WireOf(raw)[k]
  {
    hide ParseKommsPayload, WireOf, DecodedMap, MapOf, Build, WellTyped, TextsValid, CanonicalAt, Collapse, Enc;
    hide ValidateEvent, HasNull, HasUndefined;
    C.FieldsConserved(raw, k);
    var entries := ParsedForm(raw);
    if k in WireOf(raw) {
      var i := WireOf(raw)[k];
      MapEntryCanonical(entries);
      WireValueCanonical(entries, 0, k);
      if HasUndefined(i) {
        UndefinedShows(i, 1);
      } else {
        CollapseKeeps(i);
      }
    }
  }

  lemma MapEntryCanonical(entries: seq<Entry>)
    requires CanonicalAt(Map(entries), 0)
    ensures forall j | 0 <= j < |entries| :: CanonicalAt(entries[j].value, 1)
  {
  }

  /** An accepted payload is determined by its wire map. */
  lemma SameWireSamePayload(a: seq<byte>, b: seq<byte>)
    requires ParseKommsPayload(a).Ok? && ParseKommsPayload(b).Ok? && WireOf(a) == WireOf(b)
    ensures a == b
  {
    hide ParseKommsPayload, WireOf, DecodedMap, MapOf, Build, WellTyped, TextsValid, Enc, ValidateEvent, Listing;
    var x := ParsedForm(a);
    var y := ParsedForm(b);
    ListingOfMap(x, 0);
    ListingOfMap(y, 0);
  }

  /** Main theorem: an event has one accepted payload, and no second, exactly when it is written one
      way only. */
  lemma OnePayloadIff(raw: seq<byte>)
    requires ParseKommsPayload(raw).Ok?
    ensures (forall other | ParseKommsPayload(other) == ParseKommsPayload(raw) :: other == raw)
       <==> WrittenOneWay(ParseKommsPayload(raw).value)
  {
    hide ParseKommsPayload, WrittenOneWay, WireOf, FullMap, Readable;
    var ev := ParseKommsPayload(raw).value;
    if WrittenOneWay(ev) {
      forall other | ParseKommsPayload(other) == ParseKommsPayload(raw) ensures other == raw {
        WireIsFull(raw);
        WireIsFull(other);
        SameWireSamePayload(raw, other);
      }
    } else {
      ParserImage(ev);
      var a, b := TwoPayloads(ev);
      assert ParseKommsPayload(a) == ParseKommsPayload(raw) == ParseKommsPayload(b);
    }
  }
}
