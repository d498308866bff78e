/** What the destructive parse keeps, and which of its errors can occur. */
module Conservation {
  import opened Base
  import opened Cbor
  import opened Canonical
  import opened CanonicalLanguage
  import opened Values
  import opened Event
  import F = Fields
  import opened Pairs
  import opened Payload
  import opened RoundTrip
  import Encode
  import P = Parse

  /** Main theorem: after a successful parse every wire entry is found in the event under its own
      key and the event holds nothing else; the only changes are `undefined` read as null, a role
      above 255 saturated, and a version 0 scheme, which is kept if there is one and else read off
      `enc`, but is not part of what is written. */
  lemma FieldsConserved(raw: seq<byte>, k: byte)
    requires ParseKommsPayload(raw).Ok?
    ensures var ev, wire := ParseKommsPayload(raw).value, WireOf(raw);
            && F.WireField(ev, k)
               == (if k == 13 && ev.v == 0 then None
                   else if k !in wire then None
                   else if k == 31 && wire[31].UInt? && wire[31].n > 255 then Some(UInt(255))
                   else Some(Collapse(wire[k])))
            && (13 in wire ==> wire[13].UInt? && ev.encScheme == Some(wire[13].n))
            && (13 !in wire && ev.v == 0 ==> ev.encScheme == Some(if ev.enc then 1 else 0))
  {
    hide ParseKommsPayload, WireOf, TextsValid, F.Build, F.WellTyped, F.WireField;
    var entries := ParsedForm(raw);
    F.Conservation(DecodedMap(entries), k);
    DecodedLookup(entries, k);
    F.Conservation(DecodedMap(entries), 13);
    BuiltWithoutScheme(DecodedMap(entries));
    WireLeafKeptIfTyped(entries, 13);
    WireLeafKeptIfTyped(entries, 31);
  }

  lemma BuiltWithoutScheme(m: map<byte, Value>)
    ensures 13 !in m && F.Build(m).v == 0 ==> F.Build(m).encScheme == Some(if F.Build(m).enc then 1 else 0)
  {
    hide FromU8, F.TypeByte, F.Extensions, IsValue;
  }

  /** A role above 255 on the wire. The role-management types always refuse it, and name it as the
      unknown role 255 exactly when every check before that one passes; any other type does with the
      payload what it would do without a role, and the event keeps the role 255. */
  lemma SaturatedRole(raw: seq<byte>, entries: seq<Entry>)
    requires WireForm(raw, entries) && TextsValid(Map(entries)) && ByteKeys(entries)
    requires F.WellTyped(DecodedMap(entries)) && F.Build(DecodedMap(entries)).v <= MAX_KNOWN_VERSION
    requires var m := DecodedMap(entries); 31 in m && m[31].UInt? && m[31].n > 255
    ensures var ev, r := F.Build(DecodedMap(entries)), ParseKommsPayload(raw);
            && ev.role == Some(255)
            && (r == Err(Validation(UnknownRole(255)))
                <==> RoleManaged(ev.t) && CheckCommon(ev).Pass? && HasSid(ev) && ev.target.Some?)
            && (RoleManaged(ev.t) ==> r.Err?)
            && (!RoleManaged(ev.t) ==>
                  r == match ValidateEvent(ev.(role := None))
                       case Pass => Ok(ev)
                       case Fail(e) => Err(Validation(e)))
            && (ValidateEvent(ev.(role := Some(0))).Pass? ==>
                  r == if RoleManaged(ev.t) then Err(Validation(UnknownRole(255))) else Ok(ev))
  {
    hide F.Build, F.WellTyped, F.FirstComplaint, CheckCommon, CheckType, DecodedMap, ParseStructure, Enc;
    hide TextsValid, CanonicalAt, HasSid;
    var m := DecodedMap(entries);
    var ev := F.Build(m);
    ParseOfWireForm(raw, entries);
    F.FirstComplaintNone(m);
    BuiltRole(m);
    UnknownRoleIff(ev);
    RoleIgnored(ev, None);
    RoleIgnored(ev, Some(0));
    SmallRolePasses(ev);
  }

  lemma BuiltRole(m: map<byte, Value>)
    ensures F.Build(m).role == F.Saturate(F.GetUint(m, 31))
  {
    hide FromU8, F.TypeByte, F.Extensions, IsValue;
  }

  lemma SmallRolePasses(ev: ParsedKommsEvent)
    ensures RoleManaged(ev.t) && ValidateEvent(ev.(role := Some(0))).Pass? ==> HasSid(ev) && ev.target.Some?
  {
    hide CheckCommon;
  }

  lemma WireLeafKeptIfTyped(entries: seq<Entry>, k: byte)
    requires CanonicalAt(Map(entries), 0) && TextsValid(Map(entries)) && ByteKeys(entries)
    requires k < EXTENSION_KEY_MIN && F.WellTyped(DecodedMap(entries))
    ensures F.Lookup(DecodedMap(entries), k) == F.Lookup(MapOf(entries), k)
  {
    assert F.Complaint(DecodedMap(entries), k).None?;
    hide F.Complaint, F.WellTyped, DecodedMap, TextsValid, CanonicalAt;
    WireLeafKept(entries, k);
  }

  /** A complaint about a core key is about presence or type, nothing else. */
  ghost predicate AboutAField(e: F.ParseError)
  {
    !e.CborError? && !e.NotAMap? && !e.InvalidKey? && !e.DuplicateKey? && !e.ReservedCoreKey?
  }

  lemma {:induction false} ComplaintsAreAboutFields(m: F.Fields, position: nat)
    ensures F.FirstComplaint(m, position).Some? ==> AboutAField(F.FirstComplaint(m, position).value)
    decreases EXTENSION_KEY_MIN - position
  {
    hide F.NameOf;
    if position < EXTENSION_KEY_MIN {
      ComplaintsAreAboutFields(m, position + 1);
    }
  }

  lemma {:induction false} CollectErrors(entries: seq<Entry>, acc: map<byte, Value>)
    requires P.ValueEntries(entries)
    ensures P.Collect(entries, acc).Err? ==>
              P.Collect(entries, acc).error.InvalidKey? || P.Collect(entries, acc).error.DuplicateKey?
  {
    hide IsValue;
    if entries != [] && P.KeyToU8(entries[0].key).Ok? {
      var key := P.KeyToU8(entries[0].key).value;
      if key !in acc {
        CollectErrors(entries[1..], acc[key := entries[0].value]);
      }
    }
  }

  /** No decoded value whatever leaves a core key unconsumed. */
  lemma ReservedCoreKeyUnreachable(value: Value)
    ensures P.ParsedMap(value).Err? ==> !P.ParsedMap(value).error.ReservedCoreKey?
  {
    if value.Map? {
      P.EntriesAreValues(value);
      CollectErrors(value.entries, map[]);
      match P.Collect(value.entries, map[])
      case Ok(m) => ComplaintsAreAboutFields(m, 0);
      case Err(_) =>
    }
    hide F.FirstComplaint, IsValue;
  }

  /** Behind the canonical check a key is never a duplicate either, and decoding fails exactly on
      text that is not UTF-8. */
  lemma ParseErrorsOfCanonical(cbor: seq<byte>)
    requires Validate(cbor).Ok?
    ensures ParseStructure(cbor).Err? ==>
              && ParseStructure(cbor).error.Parse?
              && !ParseStructure(cbor).error.parse.DuplicateKey?
              && !ParseStructure(cbor).error.parse.ReservedCoreKey?
    ensures ParseStructure(cbor) == Err(Parse(F.CborError)) <==> !TextsValid(ItemOf(cbor))
  {
    hide F.FirstComplaint, F.Build, ItemOf, TextsValid, Validate;
    AcceptedIsEncoding(cbor);
    if ItemOf(cbor).Map? {
      var entries := ItemOf(cbor).entries;
      var raw := Encode.KOMMS_PAYLOAD_PREFIX + cbor;
      assert raw[|Encode.KOMMS_PAYLOAD_PREFIX|..] == cbor;
      ParseOfWireForm(raw, entries);
      if TextsValid(Map(entries)) && ByteKeys(entries) {
        ComplaintsAreAboutFields(DecodedMap(entries), 0);
      }
    } else {
      assert Leading(Collapse(ItemOf(cbor))) == Leading(ItemOf(cbor));
    }
  }
}
