/** What becomes of the encoder's output when it is read back, for every event it encodes. */
module Emitted {
  import opened Base
  import opened Cbor
  import opened Canonical
  import opened CanonicalLanguage
  import opened Refusals
  import opened Values
  import opened Event
  import opened Fields
  import opened Pairs
  import opened Encode
  import opened Payload

  // ----- the pairs written -----

  lemma {:induction false} ListingValues(m: Fields, lo: nat, k: nat)
    requires k < |Listing(m, lo)|
    ensures var e := Listing(m, lo)[k];
            e.key.UInt? && e.key.n < KEY_LIMIT && Lookup(m, e.key.n) == Some(e.value)
    decreases KEY_LIMIT - lo
  {
    hide Listing;
    if lo >= KEY_LIMIT {
      NothingListed(m, lo);
    } else {
      ListingStep(m, lo);
      if lo in m {
        if k > 0 {
          ListingValues(m, lo + 1, k - 1);
        }
      } else {
        ListingValues(m, lo + 1, k);
      }
    }
  }

  lemma {:induction false} CorePairsLeaves(ev: ParsedKommsEvent, hi: nat, k: nat)
    requires hi <= EXTENSION_KEY_MIN && k < |CorePairs(ev, hi)|
    ensures var e := CorePairs(ev, hi)[k];
            e.key.UInt? && e.key.n < hi && CoreField(ev, e.key.n) == Some(e.value)
  {
    hide CoreField;
    if k < |CorePairs(ev, hi - 1)| {
      CorePairsLeaves(ev, hi - 1, k);
    }
  }

  lemma CoreFieldsAreLeaves(ev: ParsedKommsEvent, k: nat)
    ensures CoreField(ev, k).Some? ==>
              Leading(CoreField(ev, k).value) < 4 || CoreField(ev, k).value.Bool?
  {
    hide IsValue, AsU8;
  }

  /** Every pair the encoder emits has an unsigned key and a value of 64-bit sizes. */
  lemma WirePairsSized(ev: ParsedKommsEvent)
    ensures Sized(Map(WirePairs(ev)))
    ensures TextsValid(Map(WirePairs(ev))) && !HasUndefined(Map(WirePairs(ev)))
  {
    hide CoreField, CorePairs, Listing;
    var pairs, core := WirePairs(ev), CorePairs(ev, EXTENSION_KEY_MIN);
    forall k | 0 <= k < |pairs| ensures pairs[k].key.UInt? && IsValue(pairs[k].value) {
      if k < |core| {
        CorePairsLeaves(ev, EXTENSION_KEY_MIN, k);
      } else {
        ListingValues(ev.extensionFields, 0, k - |core|);
      }
    }
  }

  lemma ExtensionListed(m: map<byte, Value>, lo: nat, key: byte) returns (k: nat)
    requires key in m && lo <= key
    ensures k < |Listing(m, lo)| && Listing(m, lo)[k] == Entry(UInt(key), m[key])
    decreases key - lo
  {
    hide IsValue;
    if lo == key {
      k := 0;
    } else {
      k := ExtensionListed(m, lo + 1, key);
      k := k + |Pair(lo, Lookup(m, lo))|;
    }
  }

  // ----- in which order -----

  /** One past the highest core key below `hi` that the event writes. */
  function FirstFree(ev: ParsedKommsEvent, hi: nat): (k: nat)
    requires hi <= EXTENSION_KEY_MIN
    ensures k <= hi
  {
    if hi == 0 then 0 else if CoreField(ev, hi - 1).Some? then hi else FirstFree(ev, hi - 1)
  }

  /** Every key of the extension map lies past every core key the event writes. */
  predicate ExtensionKeysFollow(ev: ParsedKommsEvent)
  {
    forall k | k in ev.extensionFields :: FirstFree(ev, EXTENSION_KEY_MIN) <= k
  }

  lemma PairThen(k: byte, o: Option<Item>, rest: seq<Entry>, least: nat)
    requires least <= k
    ensures AscendingFrom(Pair(k, o) + rest, least) <==> AscendingFrom(rest, if o.Some? then k + 1 else least)
    ensures ByteKeys(Pair(k, o) + rest) <==> ByteKeys(rest)
    ensures ByteKeys(rest) ==> forall j: byte ::
              Lookup(MapOf(Pair(k, o) + rest), j) == if j == k && o.Some? then o else Lookup(MapOf(rest), j)
  {
    var s := Pair(k, o) + rest;
    if o.Some? {
      assert s[0] == Entry(UInt(k), o.value) && s[1..] == rest;
    } else {
      assert s == rest;
    }
  }

  lemma {:induction false} CorePairsThen(ev: ParsedKommsEvent, hi: nat, rest: seq<Entry>)
    requires hi <= EXTENSION_KEY_MIN
    ensures AscendingFrom(CorePairs(ev, hi) + rest, 0) <==> AscendingFrom(rest, FirstFree(ev, hi))
    ensures ByteKeys(CorePairs(ev, hi) + rest) <==> ByteKeys(rest)
    ensures ByteKeys(rest) ==> forall k: byte ::
              Lookup(MapOf(CorePairs(ev, hi) + rest), k)
              == if k < hi && CoreField(ev, k).Some? then CoreField(ev, k) else Lookup(MapOf(rest), k)
  {
    hide CoreField, IsValue, Pair, AscendingFrom, ByteKeys, MapOf;
    if hi == 0 {
      assert CorePairs(ev, hi) + rest == rest;
    } else {
      var o := CoreField(ev, hi - 1);
      var p := Pair(hi - 1, o);
      ConcatAssociative(CorePairs(ev, hi - 1), p, rest);
      PairThen(hi - 1, o, rest, FirstFree(ev, hi - 1));
      CorePairsThen(ev, hi - 1, p + rest);
    }
  }

  lemma ListingFrom(m: map<byte, Value>, least: nat)
    ensures AscendingFrom(Listing(m, 0), least) <==> forall k | k in m :: least <= k
  {
    hide IsValue, Listing;
    if AscendingFrom(Listing(m, 0), least) {
      forall key | key in m ensures least <= key {
        var k := ExtensionListed(m, 0, key);
        AscendingAt(Listing(m, 0), least, k);
      }
    }
    if forall k | k in m :: least <= k {
      ListingSkips(m, 0, least);
      ListingAscends(m, least);
    }
  }

  /** The encoder's keys ascend exactly when the extension keys follow the core keys written. */
  lemma WirePairsAscendIff(ev: ParsedKommsEvent)
    ensures AscendingFrom(WirePairs(ev), 0) <==> ExtensionKeysFollow(ev)
  {
    hide CorePairs, Listing, FirstFree, AscendingFrom, IsValue;
    CorePairsThen(ev, EXTENSION_KEY_MIN, Listing(ev.extensionFields, 0));
    ListingFrom(ev.extensionFields, FirstFree(ev, EXTENSION_KEY_MIN));
  }

  // ----- what the walker says -----

  /** Every extension value is in the canonical profile, one level down. */
  ghost predicate ExtensionsCanonical(ev: ParsedKommsEvent)
  {
    forall k | k in ev.extensionFields :: CanonicalAt(ev.extensionFields[k], 1)
  }

  /** The walker accepts what the encoder emits exactly when the extension keys follow the core
      keys written and every extension value is in the canonical profile one level down. */
  lemma EncoderOutputAcceptedIff(ev: ParsedKommsEvent)
    ensures Validate(Enc(Map(WirePairs(ev)))).Ok? <==> ExtensionKeysFollow(ev) && ExtensionsCanonical(ev)
    ensures CanonicalAt(Map(WirePairs(ev)), 0) <==> ExtensionKeysFollow(ev) && ExtensionsCanonical(ev)
  {
    hide Enc, TextsValid, HasUndefined, WirePairs, ExtensionKeysFollow, ExtensionsCanonical;
    WirePairsSized(ev);
    WirePairsAscendIff(ev);
    EncodingAcceptedIff(Map(WirePairs(ev)));
    if CanonicalAt(Map(WirePairs(ev)), 0) {
      ExtensionsOfCanonical(ev);
    }
    if ExtensionsCanonical(ev) {
      WirePairValuesCanonical(ev);
    }
  }

  lemma ExtensionsOfCanonical(ev: ParsedKommsEvent)
    requires CanonicalAt(Map(WirePairs(ev)), 0)
    ensures ExtensionsCanonical(ev)
  {
    hide CorePairs, Listing, IsValue;
    var pairs, core := WirePairs(ev), CorePairs(ev, EXTENSION_KEY_MIN);
    forall key | key in ev.extensionFields ensures CanonicalAt(ev.extensionFields[key], 1) {
      var k := ExtensionListed(ev.extensionFields, 0, key);
      assert pairs[|core| + k] == Listing(ev.extensionFields, 0)[k];
    }
  }

  lemma WirePairValuesCanonical(ev: ParsedKommsEvent)
    requires ExtensionsCanonical(ev)
    ensures forall k | 0 <= k < |WirePairs(ev)| :: CanonicalAt(WirePairs(ev)[k].value, 1)
  {
    hide CorePairs, Listing, IsValue, CoreField;
    var pairs, core := WirePairs(ev), CorePairs(ev, EXTENSION_KEY_MIN);
    forall k | 0 <= k < |pairs| ensures CanonicalAt(pairs[k].value, 1) {
      if k < |core| {
        CorePairsLeaves(ev, EXTENSION_KEY_MIN, k);
        CoreFieldsAreLeaves(ev, pairs[k].key.n);
      } else {
        ListingValues(ev.extensionFields, 0, k - |core|);
      }
    }
  }

  // ----- what the parser says -----

  /** The value found under key `k`: the core field if it is written, else the extension. */
  function EmittedField(ev: ParsedKommsEvent, k: byte): Option<Value>
  {
    if k < EXTENSION_KEY_MIN && CoreField(ev, k).Some? then CoreField(ev, k)
    else if k in ev.extensionFields then Some(ev.extensionFields[k]) else None
  }

  function EmittedMap(ev: ParsedKommsEvent): map<byte, Value>
  {
    map k: byte | EmittedField(ev, k).Some? :: EmittedField(ev, k).value
  }

  lemma EmittedLookup(ev: ParsedKommsEvent, k: byte)
    ensures Lookup(EmittedMap(ev), k) == EmittedField(ev, k)
  {
    hide EmittedField, IsValue;
  }

  /** Extensions under core keys hold what the parser expects of those keys. */
  predicate ReservedKeysTyped(ev: ParsedKommsEvent)
  {
    forall k | k in ev.extensionFields && k < EXTENSION_KEY_MIN :: Mistyped(k, ev.extensionFields[k]).None?
  }

  /** The event as the parser sees it: extensions under core keys have become core fields, and the
      version 0 scheme is read off `enc`. */
  function Absorbed(ev: ParsedKommsEvent): ParsedKommsEvent
  {
    Build(EmittedMap(ev))
  }

  lemma WirePairsMap(ev: ParsedKommsEvent)
    ensures ByteKeys(WirePairs(ev)) && MapOf(WirePairs(ev)) == EmittedMap(ev)
  {
    var m := ev.extensionFields;
    hide CoreField, CorePairs, Listing, EmittedMap, MapOf, ByteKeys, IsValue;
    MapOfListing(m, 0);
    CorePairsThen(ev, EXTENSION_KEY_MIN, Listing(m, 0));
    forall k: byte ensures Lookup(MapOf(WirePairs(ev)), k) == Lookup(EmittedMap(ev), k) {
      EmittedLookup(ev, k);
      assert Lookup(MapOf(Listing(m, 0)), k) == Lookup(m, k);
    }
    SameLookups(MapOf(WirePairs(ev)), EmittedMap(ev));
  }

  /** Pairs in ascending order are determined by the map they stand for, and conversely. */
  lemma SamePairsIff(a: ParsedKommsEvent, b: ParsedKommsEvent)
    requires ExtensionKeysFollow(a) && ExtensionKeysFollow(b)
    ensures WirePairs(a) == WirePairs(b) <==> EmittedMap(a) == EmittedMap(b)
  {
    hide WirePairs, EmittedMap, ExtensionKeysFollow, AscendingFrom, ByteKeys, MapOf, Listing;
    WirePairsMap(a);
    WirePairsMap(b);
    WirePairsAscendIff(a);
    WirePairsAscendIff(b);
    ListingOfMap(WirePairs(a), 0);
    ListingOfMap(WirePairs(b), 0);
  }

  /** The emitted bytes are the wire form of the emitted map. */
  lemma WireFormOfEmitted(ev: ParsedKommsEvent)
    requires ExtensionKeysFollow(ev) && ExtensionsCanonical(ev)
    ensures WireForm(KOMMS_PAYLOAD_PREFIX + Enc(Map(WirePairs(ev))), WirePairs(ev))
    ensures ByteKeys(WirePairs(ev)) && TextsValid(Map(WirePairs(ev)))
    ensures DecodedMap(WirePairs(ev)) == EmittedMap(ev)
  {
    EncoderOutputAcceptedIff(ev);
    WirePairsMap(ev);
    WirePairsSized(ev);
    CollapseKeeps(Map(WirePairs(ev)));
    hide Enc, Sized, TextsValid, HasUndefined, CanonicalAt, EmittedMap, WirePairs, Collapse;
  }

  lemma EmittedWellTypedIff(ev: ParsedKommsEvent)
    requires ExtensionKeysFollow(ev)
    ensures WellTyped(EmittedMap(ev)) <==> ReservedKeysTyped(ev)
  {
    hide EmittedMap, CoreField, Mistyped, NameOf, IsValue, FirstFree;
    forall k: byte | k < EXTENSION_KEY_MIN
      ensures Complaint(EmittedMap(ev), k)
           == if k in ev.extensionFields then Mistyped(k, ev.extensionFields[k]) else None
    {
      EmittedComplaint(ev, k);
    }
  }

  lemma EmittedComplaint(ev: ParsedKommsEvent, k: byte)
    requires ExtensionKeysFollow(ev) && k < EXTENSION_KEY_MIN
    ensures Complaint(EmittedMap(ev), k)
         == if k in ev.extensionFields then Mistyped(k, ev.extensionFields[k]) else None
  {
    hide EmittedMap, CoreField, Mistyped, NameOf, IsValue, FirstFree;
    EmittedLookup(ev, k);
    CoreFieldTyped(ev, k);
    if CoreField(ev, k).Some? {
      WrittenBelowFirstFree(ev, EXTENSION_KEY_MIN, k);
    }
  }

  lemma {:induction false} WrittenBelowFirstFree(ev: ParsedKommsEvent, hi: nat, k: nat)
    requires k < hi <= EXTENSION_KEY_MIN && CoreField(ev, k).Some?
    ensures k < FirstFree(ev, hi)
  {
    hide CoreField;
    if k < hi - 1 {
      WrittenBelowFirstFree(ev, hi - 1, k);
    }
  }

  /** Main theorem: what parsing makes of any payload the encoder emits. It is refused as not
      canonical unless the extension keys follow the core keys written and the extension values
      are in the profile; otherwise the parser reads the event `Absorbed` off it, or reports the
      first extension that is mistyped for the core key it took. */
  lemma EmittedOutcome(ev: ParsedKommsEvent)
    requires EncodedPayload(ev).Ok?
    ensures var r := ParseKommsPayload(EncodedPayload(ev).value);
            if !ExtensionKeysFollow(ev) || !ExtensionsCanonical(ev) then
              r.Err? && r.error.Canonical? && NamesProfileRule(r.error.canonical)
            else if !ReservedKeysTyped(ev) then
              && FirstComplaint(EmittedMap(ev), 0).Some?
              && r == Err(Parse(FirstComplaint(EmittedMap(ev), 0).value))
            else
              r == match ValidateEvent(Absorbed(ev))
                   case Pass => Ok(Absorbed(ev))
                   case Fail(e) => Err(Validation(e))
  {
    hide CheckCommon, CheckType, Enc, WirePairs, EmittedMap, ParseStructure, FirstComplaint, Build, IsValue;
    hide ExtensionsCanonical, ExtensionKeysFollow, ReservedKeysTyped, TextsValid;
    if ExtensionKeysFollow(ev) && ExtensionsCanonical(ev) {
      WireFormOfEmitted(ev);
      ParseOfWireForm(EncodedPayload(ev).value, WirePairs(ev));
      FirstComplaintNone(EmittedMap(ev));
      EmittedWellTypedIff(ev);
      AbsorbedVersion(ev);
    } else {
      RefusedByWalker(ev);
    }
  }

  lemma RefusedByWalker(ev: ParsedKommsEvent)
    requires EncodedPayload(ev).Ok? && !(ExtensionKeysFollow(ev) && ExtensionsCanonical(ev))
    ensures var r := ParseKommsPayload(EncodedPayload(ev).value);
            r.Err? && r.error.Canonical? && NamesProfileRule(r.error.canonical)
  {
    hide ValidateEvent, Enc, WirePairs, ExtensionsCanonical, ExtensionKeysFollow;
    EncoderOutputAcceptedIff(ev);
    WirePairsSized(ev);
    RejectionNamesProfileRule(Map(WirePairs(ev)));
    var cbor := Enc(Map(WirePairs(ev)));
    assert (KOMMS_PAYLOAD_PREFIX + cbor)[|KOMMS_PAYLOAD_PREFIX|..] == cbor;
  }

  lemma AbsorbedVersion(ev: ParsedKommsEvent)
    requires ValidateEvent(ev).Pass?
    ensures Absorbed(ev).v == ev.v <= MAX_KNOWN_VERSION
  {
    EmittedLookup(ev, 0);
    ValidShape(ev);
    hide ValidateEvent, EmittedMap, IsValue, Extensions, FromU8, TypeByte, Saturate, GetBlob, Get16, Get32, GetText;
  }

  /** Absorbing changes neither version nor type. */
  lemma AbsorbedType(ev: ParsedKommsEvent)
    requires ValidateEvent(ev).Pass?
    ensures Absorbed(ev).t == ev.t
  {
    hide ValidateEvent, EmittedMap, IsValue, Build, FromU8, AsU8;
    EmittedLookup(ev, 1);
    ValidShape(ev);
    BuiltType(EmittedMap(ev));
  }

  /** Every key the event emits is found in the event read back, but for a version 0 scheme and a
      saturated role. */
  lemma AbsorbedField(ev: ParsedKommsEvent, k: byte)
    requires ExtensionKeysFollow(ev) && ReservedKeysTyped(ev)
    ensures WireField(Absorbed(ev), k)
         == if k == 13 && Absorbed(ev).v == 0 then None
            else if k == 31 && 31 in ev.extensionFields && ev.extensionFields[31].UInt?
                 && ev.extensionFields[31].n > 255 then Some(UInt(255))
            else EmittedField(ev, k)
  {
    hide EmittedMap, Build, WireField, FirstFree, Mistyped, IsValue, CoreField;
    EmittedWellTypedIff(ev);
    hide ReservedKeysTyped, WellTyped;
    Conservation(EmittedMap(ev), k);
    EmittedLookup(ev, k);
    RoleWritten(ev);
    if CoreField(ev, 31).Some? {
      WrittenBelowFirstFree(ev, EXTENSION_KEY_MIN, 31);
    }
  }

  lemma RoleWritten(ev: ParsedKommsEvent)
    ensures CoreField(ev, 31).Some? ==> CoreField(ev, 31).value.UInt? && CoreField(ev, 31).value.n <= 255
  {
  }

  /** Main theorem: an emitted payload is accepted exactly when its extension keys follow the core
      keys written, its extension values are in the profile, those under core keys have the type of
      their key, and the event they turn into is valid. */
  lemma EmittedIsAcceptedIff(ev: ParsedKommsEvent)
    requires EncodedPayload(ev).Ok?
    ensures ParseKommsPayload(EncodedPayload(ev).value).Ok?
       <==> && ExtensionKeysFollow(ev) && ExtensionsCanonical(ev)
            && ReservedKeysTyped(ev) && ValidateEvent(Absorbed(ev)).Pass?
  {
    EmittedOutcome(ev);
    hide ParseKommsPayload, ValidateEvent, Absorbed, ReservedKeysTyped, ExtensionsCanonical, ExtensionKeysFollow;
  }

  /** With extension keys clear of the core nothing is absorbed. */
  lemma NothingAbsorbed(ev: ParsedKommsEvent)
    requires ExtensionKeysApart(ev) && ValidateEvent(ev).Pass?
    ensures ExtensionKeysFollow(ev) && ReservedKeysTyped(ev) && Absorbed(ev) == Resynthesised(ev)
  {
    hide CheckCommon, CheckType, CoreField, Build, FirstFree, EmittedMap, WireMap, IsValue, Mistyped, FromU8, AsU8;
    ValidShape(ev);
    forall k: byte ensures Lookup(EmittedMap(ev), k) == Lookup(WireMap(ev), k) {
      EmittedLookup(ev, k);
      WireLookup(ev, k);
    }
    SameLookups(EmittedMap(ev), WireMap(ev));
    Rebuild(ev);
  }
}
