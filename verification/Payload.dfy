/** The wire entries of protocol/src/lib.rs: prefix, canonical check, decode, parse, validate. */
module Payload {
  import opened Base
  import opened Cbor
  import opened Canonical
  import opened CanonicalLanguage
  import opened Values
  import opened Event
  import opened Fields
  import opened Pairs
  import opened Encode
  import P = Parse

  datatype KommsPayloadError =
    | MissingPrefix
    | Canonical(canonical: CanonicalError)
    | Parse(parse: ParseError)
    | Validation(validation: ValidationError)
    | UnsupportedVersion(v: u64)

  datatype ParsedPayload =
    | Known(event: ParsedKommsEvent)
    | Opaque(event: ParsedKommsEvent, rawCbor: seq<byte>)
    | Future(v: u64, rawCbor: seq<byte>)

  function StripKommsEnvelope(raw: seq<byte>): Option<seq<byte>>
  {
    if KOMMS_PAYLOAD_PREFIX <= raw then Some(raw[|KOMMS_PAYLOAD_PREFIX|..]) else None
  }

  /** CBOR decoding of canonical bytes: text must be UTF-8, and `undefined` reads as null. */
  function FromReader(cbor: seq<byte>): Result<Value, ParseError>
    requires Validate(cbor).Ok?
  {
    AcceptedIsEncoding(cbor);
    CanonicalSized(ItemOf(cbor), 0);
    if TextsValid(ItemOf(cbor)) then Ok(Collapse(ItemOf(cbor))) else Err(CborError)
  }

  /** The part both wire entries share: everything up to version and structural validation. */
  function ParseStructure(cbor: seq<byte>): (r: Result<ParsedKommsEvent, KommsPayloadError>)
    ensures r.Err? ==> r.error.Canonical? || r.error.Parse?
  {
    match Validate(cbor)
    case Err(e) => Err(Canonical(e))
    case Ok(_) =>
      match FromReader(cbor)
      case Err(e) => Err(Parse(e))
      case Ok(value) =>
        match P.ParsedMap(value)
        case Err(e) => Err(Parse(e))
        case Ok(ev) => Ok(ev)
  }

  function ParseKommsPayload(raw: seq<byte>): Result<ParsedKommsEvent, KommsPayloadError>
  {
    match StripKommsEnvelope(raw)
    case None => Err(MissingPrefix)
    case Some(cbor) =>
      var ev :- ParseStructure(cbor);
      if ev.v > MAX_KNOWN_VERSION then Err(UnsupportedVersion(ev.v))
      else
        match ValidateEvent(ev)
        case Fail(e) => Err(Validation(e))
        case Pass => Ok(ev)
  }

  function ParseKommsPayloadWithFuture(raw: seq<byte>): Result<ParsedPayload, KommsPayloadError>
  {
    match StripKommsEnvelope(raw)
    case None => Err(MissingPrefix)
    case Some(cbor) =>
      var ev :- ParseStructure(cbor);
      if ev.v > MAX_KNOWN_VERSION then Ok(Future(ev.v, cbor))
      else
        match ValidateEvent(ev)
        case Pass => Ok(Known(ev))
        case Fail(OpaqueEventType(_)) => Ok(Opaque(ev, cbor))
        case Fail(e) => Err(Validation(e))
  }

  /** The strict entry as it runs: the cursor walk, then the destructive parse. */
  method RunParseKommsPayload(raw: Vec) returns (r: Result<ParsedKommsEvent, KommsPayloadError>)
    ensures r == ParseKommsPayload(raw)
  {
    hide CheckCommon, CheckType, FirstComplaint, Build, DecodeItem, Collapse, Sized, TextsValid, HasUndefined;
    var cbor := StripKommsEnvelope(raw);
    if cbor.None? { return Err(MissingPrefix); }
    var canonical, _, _ := ValidateCanonical(cbor.value);
    if canonical.Err? { return Err(Canonical(canonical.error)); }
    var value := FromReader(cbor.value);
    if value.Err? { return Err(Parse(value.error)); }
    var ev := P.ParseCborMap(value.value);
    if ev.Err? { return Err(Parse(ev.error)); }
    if ev.value.v > MAX_KNOWN_VERSION { return Err(UnsupportedVersion(ev.value.v)); }
    var verdict := ValidateEvent(ev.value);
    if verdict.Fail? { return Err(Validation(verdict.error)); }
    return Ok(ev.value);
  }

  // ----- the two entries -----

  /** The lenient entry differs from the strict one only in what it does with future versions and
      opaque types, and the bytes it hands back reproduce the input. */
  lemma EntriesAgree(raw: seq<byte>)
    ensures match ParseKommsPayload(raw)
            case Ok(ev) => ParseKommsPayloadWithFuture(raw) == Ok(Known(ev))
            case Err(UnsupportedVersion(v)) =>
              && ParseKommsPayloadWithFuture(raw).Ok?
              && ParseKommsPayloadWithFuture(raw).value == Future(v, raw[|KOMMS_PAYLOAD_PREFIX|..])
              && KOMMS_PAYLOAD_PREFIX + ParseKommsPayloadWithFuture(raw).value.rawCbor == raw
            case Err(Validation(OpaqueEventType(t))) =>
              && ParseKommsPayloadWithFuture(raw).Ok?
              && ParseKommsPayloadWithFuture(raw).value.Opaque?
              && ParseKommsPayloadWithFuture(raw).value.event.t == t
              && ParseStructure(raw[|KOMMS_PAYLOAD_PREFIX|..]) == Ok(ParseKommsPayloadWithFuture(raw).value.event)
              && KOMMS_PAYLOAD_PREFIX + ParseKommsPayloadWithFuture(raw).value.rawCbor == raw
            case Err(e) => ParseKommsPayloadWithFuture(raw) == Err(e)
  {
    hide ParseStructure, CheckType;
    if KOMMS_PAYLOAD_PREFIX <= raw {
      assert KOMMS_PAYLOAD_PREFIX + raw[|KOMMS_PAYLOAD_PREFIX|..] == raw;
      match ParseStructure(raw[|KOMMS_PAYLOAD_PREFIX|..])
      case Ok(ev) => OpaqueNamesTheType(ev);
      case Err(_) =>
    }
  }

  lemma OpaqueNamesTheType(ev: ParsedKommsEvent)
    ensures match ValidateEvent(ev) case Fail(OpaqueEventType(t)) => t == ev.t case _ => true
  {
  }

  // ----- parsing a canonical map -----

  /** `raw` is the wire form of the canonical map with these entries. */
  ghost predicate WireForm(raw: seq<byte>, entries: seq<Entry>)
  {
    raw == KOMMS_PAYLOAD_PREFIX + Enc(Map(entries)) && CanonicalAt(Map(entries), 0)
  }

  /** The entries as decoding leaves them. */
  function Decoded(entries: seq<Entry>): seq<Entry>
  {
    Collapse(Map(entries)).entries
  }

  function DecodedMap(entries: seq<Entry>): map<byte, Value>
    requires CanonicalAt(Map(entries), 0) && TextsValid(Map(entries)) && ByteKeys(entries)
  {
    CanonicalSized(Map(entries), 0);
    DecodedEntries(entries, 0);
    MapOfValues(Decoded(entries));
    MapOf(Decoded(entries))
  }

  lemma {:induction false} MapOfValues(entries: seq<Entry>)
    requires P.ValueEntries(entries) && ByteKeys(entries)
    ensures forall k | k in MapOf(entries) :: IsValue(MapOf(entries)[k])
  {
    hide IsValue;
    if entries != [] {
      MapOfValues(entries[1..]);
    }
  }

  lemma DecodedEntries(entries: seq<Entry>, least: nat)
    requires Sized(Map(entries)) && TextsValid(Map(entries)) && AscendingFrom(entries, least)
    ensures P.ValueEntries(Decoded(entries)) && AscendingFrom(Decoded(entries), least)
    ensures ByteKeys(Decoded(entries)) <==> ByteKeys(entries)
  {
    var d := Decoded(entries);
    P.EntriesAreValues(Collapse(Map(entries)));
    CollapseAscending(entries, d, least);
    SameKeysSameWidth(entries, d, least);
  }

  lemma {:induction false} SameKeysSameWidth(entries: seq<Entry>, d: seq<Entry>, least: nat)
    requires |d| == |entries| && AscendingFrom(entries, least)
    requires forall k | 0 <= k < |d| :: d[k].key == Collapse(entries[k].key)
    ensures ByteKeys(d) <==> ByteKeys(entries)
  {
    if entries != [] {
      SameKeysSameWidth(entries[1..], d[1..], entries[0].key.n + 1);
    }
  }

  lemma {:induction false} CollectAscending(entries: seq<Entry>, least: nat, acc: map<byte, Value>)
    requires P.ValueEntries(entries) && AscendingFrom(entries, least)
    requires forall k | k in acc :: k < least
    ensures P.Collect(entries, acc) == if ByteKeys(entries) then Ok(acc + MapOf(entries)) else Err(InvalidKey)
  {
    hide IsValue;
    if entries == [] {
      assert acc + MapOf(entries) == acc;
    } else if entries[0].key.n < KEY_LIMIT {
      var key := entries[0].key.n;
      var acc' := acc[key := entries[0].value];
      CollectAscending(entries[1..], key + 1, acc');
      if ByteKeys(entries) {
        MapOfKeys(entries[1..], key + 1);
        assert acc' + MapOf(entries[1..]) == acc + MapOf(entries);
      }
    }
  }

  /** What parsing does with any canonical map. In particular no key is ever a duplicate, and only
      text that is not UTF-8 makes the decoding itself fail. */
  lemma ParseOfWireForm(raw: seq<byte>, entries: seq<Entry>)
    requires WireForm(raw, entries)
    ensures Validate(raw[|KOMMS_PAYLOAD_PREFIX|..]).Ok?
    ensures ItemOf(raw[|KOMMS_PAYLOAD_PREFIX|..]) == Map(entries)
    ensures var r := ParseStructure(raw[|KOMMS_PAYLOAD_PREFIX|..]);
            if !TextsValid(Map(entries)) then r == Err(Parse(CborError))
            else if !ByteKeys(entries) then r == Err(Parse(InvalidKey))
            else if FirstComplaint(DecodedMap(entries), 0).Some? then
              r == Err(Parse(FirstComplaint(DecodedMap(entries), 0).value))
            else r == Ok(Build(DecodedMap(entries)))
  {
    hide FirstComplaint, Build, Collapse, DecodeItem, TextsValid;
    var cbor := Enc(Map(entries));
    assert raw[|KOMMS_PAYLOAD_PREFIX|..] == cbor;
    AcceptsEncoding(Map(entries));
    if TextsValid(Map(entries)) {
      CanonicalSized(Map(entries), 0);
      DecodedEntries(entries, 0);
      CollectAscending(Decoded(entries), 0, map[]);
      if ByteKeys(entries) {
        assert map[] + MapOf(Decoded(entries)) == MapOf(Decoded(entries));
      }
    }
  }
}
