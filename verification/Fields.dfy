/** The wire layout of an event: which key carries which field, and how a field reads back.

    The encoder and the destructive parser list the 33 core keys one by one. Here the same layout
    is one table in each direction (`CoreField` and `Build`), and the two are proved inverse. */
module Fields {
  import opened Base
  import opened Cbor
  import opened Values
  import opened Event

  type Fields = map<byte, Item>

  datatype ParseError =
    | CborError
    | NotAMap
    | InvalidKey
    | DuplicateKey(key: byte)
    | ExpectedUint(field: string)
    | EventTypeOverflow(t: u64)
    | ExpectedBool(field: string)
    | ExpectedBytes32(field: string)
    | ExpectedBytes16(field: string)
    | ExpectedBytes(field: string)
    | ExpectedText(field: string)
    | InvalidSigLength
    | MissingField(field: string)
    | ReservedCoreKey(key: byte)

  // ----- event to wire -----

  function OfUint(o: Option<u64>): Option<Value> { if o.Some? then Some(UInt(o.value)) else None }
  function OfBytes(o: Option<Vec>): Option<Value> { if o.Some? then Some(Bytes(o.value)) else None }
  function OfText(o: Option<Utf8String>): Option<Value> { if o.Some? then Some(Text(o.value)) else None }

  /** The value a valid event puts under core key `k`; version 0 never writes key 13. */
  function CoreField(ev: ParsedKommsEvent, k: nat): Option<Value>
  {
    match k
    case 0 => Some(UInt(ev.v))
    case 1 => Some(UInt(AsU8(ev.t)))
    case 2 => OfBytes(ev.sid)
    case 3 => OfBytes(ev.cid)
    case 4 => OfBytes(ev.did)
    case 5 => OfBytes(ev.pid)
    case 6 => OfBytes(ev.mid)
    case 7 => OfBytes(ev.refBytes)
    case 8 => Some(Bool(ev.enc))
    case 9 => OfUint(ev.ts)
    case 10 => OfUint(ev.n)
    case 11 => OfBytes(ev.sig)
    case 12 => OfBytes(ev.parentMid)
    case 13 => if ev.v == 0 then None else OfUint(ev.encScheme)
    case 14 => OfUint(ev.kind)
    case 15 => OfText(ev.mime)
    case 16 => OfUint(ev.refType)
    case 17 => OfBytes(ev.devicePk)
    case 18 => OfUint(ev.sigScheme)
    case 19 => OfBytes(ev.reactionKey)
    case 20 => OfBytes(ev.paymentHint)
    case 21 => OfBytes(ev.memberTag)
    case 22 => OfBytes(ev.memberSealed)
    case 23 => OfBytes(ev.encSid)
    case 24 => OfBytes(ev.encCid)
    case 25 => OfBytes(ev.encBodyRef)
    case 26 => OfBytes(ev.encParentMid)
    case 27 => OfBytes(ev.matchTag)
    case 28 => OfBytes(ev.encT)
    case 29 => OfUint(ev.keyEpoch)
    case 30 => OfBytes(ev.sealedSigner)
    case 31 => if ev.role.Some? then Some(UInt(ev.role.value)) else None
    case 32 => OfBytes(ev.target)
    case _ => None
  }

  /** Every key an event occupies: core keys below 33 and extension keys from 33. */
  function WireMap(ev: ParsedKommsEvent): map<byte, Value>
  {
    map k: byte | WireField(ev, k).Some? :: WireField(ev, k).value
  }

  function WireField(ev: ParsedKommsEvent, k: byte): Option<Value>
  {
    if k < EXTENSION_KEY_MIN then CoreField(ev, k)
    else if k in ev.extensionFields then Some(ev.extensionFields[k]) else None
  }

  function Lookup(m: Fields, k: byte): Option<Item>
  {
    if k in m then Some(m[k]) else None
  }

  lemma WireLookup(ev: ParsedKommsEvent, k: byte)
    ensures Lookup(WireMap(ev), k) == WireField(ev, k)
  {
    hide WireField;
  }

  // ----- wire to event -----

  datatype Kind = Uint | TypeCode | Flag | Fixed(len: nat) | Blob | Str

  function KindOf(k: nat): Kind
  {
    match k
    case 1 => TypeCode
    case 8 => Flag
    case 2 | 3 | 4 | 5 | 6 | 12 | 17 => Fixed(32)
    case 21 | 27 => Fixed(16)
    case 11 => Fixed(64)
    case 15 => Str
    case 0 | 9 | 10 | 13 | 14 | 16 | 18 | 29 | 31 => Uint
    case _ => Blob
  }

  function NameOf(k: nat): string
  {
    match k
    case 0 => "v"
    case 1 => "t"
    case 2 => "sid"
    case 3 => "cid"
    case 4 => "did"
    case 5 => "pid"
    case 6 => "mid"
    case 7 => "ref"
    case 8 => "enc"
    case 9 => "ts"
    case 10 => "n"
    case 11 => "sig"
    case 12 => "parent_mid"
    case 13 => "enc_scheme"
    case 14 => "kind"
    case 15 => "mime"
    case 16 => "ref_type"
    case 17 => "device_pk"
    case 18 => "sig_scheme"
    case 19 => "reaction_key"
    case 20 => "payment_hint"
    case 21 => "member_tag"
    case 22 => "member_sealed"
    case 23 => "enc_sid"
    case 24 => "enc_cid"
    case 25 => "enc_body_ref"
    case 26 => "enc_parent_mid"
    case 27 => "match_tag"
    case 28 => "enc_t"
    case 29 => "key_epoch"
    case 30 => "sealed_signer"
    case 31 => "role"
    case _ => "target"
  }

  /** What is wrong with value `i` under core key `k`, if anything. */
  function Mistyped(k: nat, i: Item): Option<ParseError>
  {
    match KindOf(k)
    case Uint => if i.UInt? then None else Some(ExpectedUint(NameOf(k)))
    case TypeCode =>
      if !i.UInt? then Some(ExpectedUint(NameOf(k)))
      else if i.n > 255 then Some(EventTypeOverflow(i.n)) else None
    case Flag => if i.Bool? then None else Some(ExpectedBool(NameOf(k)))
    case Fixed(len) =>
      if i.Bytes? && |i.b| == len then None
      else if len == 32 then Some(ExpectedBytes32(NameOf(k)))
      else if len == 16 then Some(ExpectedBytes16(NameOf(k)))
      else if i.Bytes? then Some(InvalidSigLength) else Some(ExpectedBytes(NameOf(k)))
    case Blob => if i.Bytes? then None else Some(ExpectedBytes(NameOf(k)))
    case Str => if i.Text? then None else Some(ExpectedText(NameOf(k)))
  }

  predicate Mandatory(k: nat) { k == 0 || k == 1 || k == 8 }

  function Complaint(m: Fields, k: byte): Option<ParseError>
  {
    if k in m then Mistyped(k, m[k])
    else if Mandatory(k) then Some(MissingField(NameOf(k))) else None
  }

  /** The parser takes `v`, `t` and `enc` first and the other core keys in ascending order. */
  function KeyAt(position: nat): nat
  {
    if position == 2 then 8 else if 3 <= position <= 8 then position - 1 else position
  }

  /** The complaint the parser meets first from `position` on. */
  function FirstComplaint(m: Fields, position: nat): Option<ParseError>
    decreases EXTENSION_KEY_MIN - position
  {
    if position >= EXTENSION_KEY_MIN then None
    else
      var c := Complaint(m, KeyAt(position));
      if c.Some? then c else FirstComplaint(m, position + 1)
  }

  predicate WellTyped(m: Fields)
  {
    forall k: byte | k < EXTENSION_KEY_MIN :: Complaint(m, k).None?
  }

  lemma FirstComplaintNone(m: Fields)
    ensures FirstComplaint(m, 0).None? <==> WellTyped(m)
  {
    if WellTyped(m) {
      NoComplaintFrom(m, 0);
    } else {
      var k: byte :| k < EXTENSION_KEY_MIN && Complaint(m, k).Some?;
      var position := if k == 8 then 2 else if 2 <= k <= 7 then k + 1 else k;
      SomeComplaintFrom(m, 0, position);
    }
  }

  lemma {:induction false} NoComplaintFrom(m: Fields, position: nat)
    requires WellTyped(m)
    ensures FirstComplaint(m, position).None?
    decreases EXTENSION_KEY_MIN - position
  {
    if position < EXTENSION_KEY_MIN {
      NoComplaintFrom(m, position + 1);
    }
  }

  lemma {:induction false} SomeComplaintFrom(m: Fields, position: nat, at: nat)
    requires position <= at < EXTENSION_KEY_MIN && Complaint(m, KeyAt(at)).Some?
    ensures FirstComplaint(m, position).Some?
    decreases at - position
  {
    if position < at {
      SomeComplaintFrom(m, position + 1, at);
    }
  }

  function GetUint(m: Fields, k: byte): Option<u64>
  {
    if k in m && m[k].UInt? then Some(m[k].n) else None
  }

  function GetBlob(m: Fields, k: byte): Option<Vec>
  {
    if k in m && m[k].Bytes? then Some(m[k].b) else None
  }

  function Get32(m: Fields, k: byte): Option<Bytes32>
  {
    if k in m && m[k].Bytes? && |m[k].b| == 32 then Some(m[k].b) else None
  }

  function Get16(m: Fields, k: byte): Option<Bytes16>
  {
    if k in m && m[k].Bytes? && |m[k].b| == 16 then Some(m[k].b) else None
  }

  function Get64(m: Fields, k: byte): Option<Bytes64>
  {
    if k in m && m[k].Bytes? && |m[k].b| == 64 then Some(m[k].b) else None
  }

  function GetText(m: map<byte, Value>, k: byte): Option<Utf8String>
  {
    if k in m && m[k].Text? then Some(m[k].t) else None
  }

  function Saturate(o: Option<u64>): Option<byte>
  {
    match o
    case None => None
    case Some(n) => Some(if n > 255 then 255 else n)
  }

  function OrZero(o: Option<u64>): u64
  {
    if o.Some? then o.value else 0
  }

  /** Key 13, or for version 0 without it the scheme that `enc` implies. */
  function Scheme(m: Fields, v: u64, enc: bool): Option<u64>
  {
    var scheme := GetUint(m, 13);
    if v == 0 && scheme.None? then Some(if enc then 1 else 0) else scheme
  }

  function TypeByte(m: Fields): byte
  {
    if 1 in m && m[1].UInt? && m[1].n < 256 then m[1].n else 0
  }

  /** The event a well-typed field map stands for. */
  function Build(m: map<byte, Value>): ParsedKommsEvent
  {
    var v := OrZero(GetUint(m, 0));
    var enc := 8 in m && m[8] == Bool(true);
    ParsedKommsEvent(
      v := v,
      t := FromU8(TypeByte(m)),
      sid := Get32(m, 2), cid := Get32(m, 3), did := Get32(m, 4), pid := Get32(m, 5), mid := Get32(m, 6),
      refBytes := GetBlob(m, 7),
      enc := enc,
      ts := GetUint(m, 9), n := GetUint(m, 10),
      sig := Get64(m, 11),
      parentMid := Get32(m, 12),
      encScheme := Scheme(m, v, enc),
      kind := GetUint(m, 14),
      mime := GetText(m, 15),
      refType := GetUint(m, 16),
      devicePk := Get32(m, 17),
      sigScheme := GetUint(m, 18),
      reactionKey := GetBlob(m, 19), paymentHint := GetBlob(m, 20),
      memberTag := Get16(m, 21),
      memberSealed := GetBlob(m, 22), encSid := GetBlob(m, 23), encCid := GetBlob(m, 24),
      encBodyRef := GetBlob(m, 25), encParentMid := GetBlob(m, 26),
      matchTag := Get16(m, 27),
      encT := GetBlob(m, 28),
      keyEpoch := GetUint(m, 29),
      sealedSigner := GetBlob(m, 30),
      role := Saturate(GetUint(m, 31)),
      target := GetBlob(m, 32),
      extensionFields := Extensions(m))
  }

  function Extensions(m: map<byte, Value>): map<byte, Value>
  {
    map k | k in m && k >= EXTENSION_KEY_MIN :: m[k]
  }

  // ----- the two directions are inverse -----

  /** Conservation: every wire entry of a well-typed map turns up under its own key and nowhere
      else, unchanged, but for a version 0 scheme (kept in the event, never rewritten) and for a
      role above 255 (saturated). */
  lemma Conservation(m: map<byte, Value>, k: byte)
    requires WellTyped(m)
    ensures WireField(Build(m), k)
         == if k == 13 && Build(m).v == 0 then None
            else if k == 31 && 31 in m && m[31].UInt? && m[31].n > 255 then Some(UInt(255))
            else Lookup(m, k)
    ensures 13 in m ==> m[13].UInt? && Build(m).encScheme == Some(m[13].n)
    ensures 31 in m ==> m[31].UInt?
  {
    assert Complaint(m, 13).None? && Complaint(m, 31).None?;
    if k < EXTENSION_KEY_MIN {
      assert Complaint(m, k).None?;
      hide WellTyped, NameOf;
      if k < 6 {
        ConserveIds(m, k);
      } else if k < 9 {
        ConserveBody(m, k);
      } else if k < 12 {
        ConserveCounters(m, k);
      } else if k < 17 {
        ConserveThreading(m, k);
      } else if k < 21 {
        ConserveDevice(m, k);
      } else if k < 24 {
        ConserveMember(m, k);
      } else if k < 27 {
        ConserveSealed(m, k);
      } else {
        ConserveGroup(m, k);
      }
    }
  }

  lemma ConserveIds(m: map<byte, Value>, k: byte)
    requires Complaint(m, k).None? && 0 <= k < 6
    ensures CoreField(Build(m), k) == Lookup(m, k)
  {
    hide NameOf, IsValue, Extensions;
  }

  lemma ConserveBody(m: map<byte, Value>, k: byte)
    requires Complaint(m, k).None? && 6 <= k < 9
    ensures CoreField(Build(m), k) == Lookup(m, k)
  {
    hide NameOf, IsValue, Extensions, FromU8;
  }

  lemma ConserveCounters(m: map<byte, Value>, k: byte)
    requires Complaint(m, k).None? && 9 <= k < 12
    ensures CoreField(Build(m), k) == Lookup(m, k)
  {
    hide NameOf, IsValue, Extensions, FromU8;
  }

  lemma ConserveThreading(m: map<byte, Value>, k: byte)
    requires Complaint(m, k).None? && 12 <= k < 17
    ensures k != 13 ==> CoreField(Build(m), k) == Lookup(m, k)
  {
    hide NameOf, IsValue, Extensions, FromU8;
  }

  lemma ConserveDevice(m: map<byte, Value>, k: byte)
    requires Complaint(m, k).None? && 17 <= k < 21
    ensures CoreField(Build(m), k) == Lookup(m, k)
  {
    hide NameOf, IsValue, Extensions, FromU8;
  }

  lemma ConserveMember(m: map<byte, Value>, k: byte)
    requires Complaint(m, k).None? && 21 <= k < 24
    ensures CoreField(Build(m), k) == Lookup(m, k)
  {
    hide NameOf, IsValue, Extensions, FromU8;
  }

  lemma ConserveSealed(m: map<byte, Value>, k: byte)
    requires Complaint(m, k).None? && 24 <= k < 27
    ensures CoreField(Build(m), k) == Lookup(m, k)
  {
    hide NameOf, IsValue, Extensions, FromU8;
  }

  lemma ConserveGroup(m: map<byte, Value>, k: byte)
    requires Complaint(m, k).None? && 27 <= k < 33
    ensures k != 31 ==> CoreField(Build(m), k) == Lookup(m, k)
  {
    hide NameOf, IsValue, Extensions, FromU8;
  }

  predicate ExtensionKeysApart(ev: ParsedKommsEvent)
  {
    forall k | k in ev.extensionFields :: k >= EXTENSION_KEY_MIN
  }

  lemma WireTyped(ev: ParsedKommsEvent, k: byte)
    requires k < EXTENSION_KEY_MIN
    ensures Complaint(WireMap(ev), k).None?
  {
    WireLookup(ev, k);
    CoreFieldTyped(ev, k);
    hide WireMap, CoreField, Mistyped, NameOf, IsValue;
  }

  /** What an event writes under a core key has the type the parser expects there. */
  lemma CoreFieldTyped(ev: ParsedKommsEvent, k: byte)
    requires k < EXTENSION_KEY_MIN
    ensures CoreField(ev, k).Some? ==> Mistyped(k, CoreField(ev, k).value).None?
    ensures Mandatory(k) ==> CoreField(ev, k).Some?
  {
    hide NameOf, FromU8, Sized, TextsValid, HasUndefined;
  }

  /** Both events write the same core fields. */
  predicate SameFields(a: ParsedKommsEvent, b: ParsedKommsEvent)
  {
    forall k: byte | k < EXTENSION_KEY_MIN :: CoreField(a, k) == CoreField(b, k)
  }

  lemma SameIds(a: ParsedKommsEvent, b: ParsedKommsEvent)
    requires SameFields(a, b)
    ensures a.v == b.v && a.sid == b.sid && a.cid == b.cid && a.did == b.did
    ensures a.pid == b.pid
  {
    hide IsValue, AsU8;
    assert CoreField(a, 0) == CoreField(b, 0) && CoreField(a, 2) == CoreField(b, 2);
    assert CoreField(a, 3) == CoreField(b, 3) && CoreField(a, 4) == CoreField(b, 4);
    assert CoreField(a, 5) == CoreField(b, 5);
  }

  lemma SameContent(a: ParsedKommsEvent, b: ParsedKommsEvent)
    requires SameFields(a, b)
    ensures a.mid == b.mid && a.refBytes == b.refBytes && a.enc == b.enc && a.ts == b.ts
    ensures a.n == b.n && a.sig == b.sig
  {
    hide IsValue, AsU8;
    assert CoreField(a, 6) == CoreField(b, 6) && CoreField(a, 7) == CoreField(b, 7);
    assert CoreField(a, 8) == CoreField(b, 8) && CoreField(a, 9) == CoreField(b, 9);
    assert CoreField(a, 10) == CoreField(b, 10) && CoreField(a, 11) == CoreField(b, 11);
  }

  lemma SameThreading(a: ParsedKommsEvent, b: ParsedKommsEvent)
    requires SameFields(a, b)
    ensures a.parentMid == b.parentMid && (a.v != 0 && b.v != 0 ==> a.encScheme == b.encScheme)
    ensures a.kind == b.kind && a.mime == b.mime
    ensures a.refType == b.refType
  {
    hide IsValue, AsU8;
    assert CoreField(a, 12) == CoreField(b, 12) && CoreField(a, 13) == CoreField(b, 13);
    assert CoreField(a, 14) == CoreField(b, 14) && CoreField(a, 15) == CoreField(b, 15);
    assert CoreField(a, 16) == CoreField(b, 16);
  }

  lemma SameDevice(a: ParsedKommsEvent, b: ParsedKommsEvent)
    requires SameFields(a, b)
    ensures a.devicePk == b.devicePk && a.sigScheme == b.sigScheme
    ensures a.reactionKey == b.reactionKey && a.paymentHint == b.paymentHint
  {
    hide IsValue, AsU8;
    assert CoreField(a, 17) == CoreField(b, 17) && CoreField(a, 18) == CoreField(b, 18);
    assert CoreField(a, 19) == CoreField(b, 19) && CoreField(a, 20) == CoreField(b, 20);
  }

  lemma SameSealed(a: ParsedKommsEvent, b: ParsedKommsEvent)
    requires SameFields(a, b)
    ensures a.memberTag == b.memberTag && a.memberSealed == b.memberSealed
    ensures a.encSid == b.encSid && a.encCid == b.encCid
    ensures a.encBodyRef == b.encBodyRef
  {
    hide IsValue, AsU8;
    assert CoreField(a, 21) == CoreField(b, 21) && CoreField(a, 22) == CoreField(b, 22);
    assert CoreField(a, 23) == CoreField(b, 23) && CoreField(a, 24) == CoreField(b, 24);
    assert CoreField(a, 25) == CoreField(b, 25);
  }

  lemma SameGroup(a: ParsedKommsEvent, b: ParsedKommsEvent)
    requires SameFields(a, b)
    ensures a.encParentMid == b.encParentMid && a.matchTag == b.matchTag
    ensures a.encT == b.encT && a.keyEpoch == b.keyEpoch
  {
    hide IsValue, AsU8;
    assert CoreField(a, 26) == CoreField(b, 26) && CoreField(a, 27) == CoreField(b, 27);
    assert CoreField(a, 28) == CoreField(b, 28) && CoreField(a, 29) == CoreField(b, 29);
  }

  lemma SameRoles(a: ParsedKommsEvent, b: ParsedKommsEvent)
    requires SameFields(a, b)
    ensures a.sealedSigner == b.sealedSigner && a.role == b.role && a.target == b.target
  {
    hide IsValue, AsU8;
    assert CoreField(a, 30) == CoreField(b, 30) && CoreField(a, 31) == CoreField(b, 31);
    assert CoreField(a, 32) == CoreField(b, 32);
  }

  /** An event is determined by what it writes, its type and, in version 0, its scheme. */
  lemma FieldsDetermine(a: ParsedKommsEvent, b: ParsedKommsEvent)
    requires SameFields(a, b) && a.extensionFields == b.extensionFields
    requires a.t == b.t && (a.v == 0 ==> a.encScheme == b.encScheme)
    ensures a == b
  {
    hide CoreField, Sized, TextsValid, HasUndefined;
    SameIds(a, b);
    SameContent(a, b);
    SameThreading(a, b);
    SameDevice(a, b);
    SameSealed(a, b);
    SameGroup(a, b);
    SameRoles(a, b);
  }

  /** The converse: the map of a valid event builds the event again, its version 0 scheme
      resynthesised. */
  lemma Rebuild(ev: ParsedKommsEvent)
    requires ExtensionKeysApart(ev) && FromU8(AsU8(ev.t)) == ev.t
    ensures WellTyped(WireMap(ev))
    ensures Build(WireMap(ev)) == Resynthesised(ev)
  {
    hide Build, CoreField, Complaint, Sized, TextsValid, HasUndefined;
    forall k: byte | k < EXTENSION_KEY_MIN ensures Complaint(WireMap(ev), k).None? { WireTyped(ev, k); }
    RebuildEnvelope(ev);
    forall k: byte | k < EXTENSION_KEY_MIN
      ensures CoreField(Build(WireMap(ev)), k) == CoreField(Resynthesised(ev), k)
    {
      RebuildField(ev, k);
    }
    FieldsDetermine(Build(WireMap(ev)), Resynthesised(ev));
  }

  lemma RebuildEnvelope(ev: ParsedKommsEvent)
    requires ExtensionKeysApart(ev) && FromU8(AsU8(ev.t)) == ev.t
    ensures var a := Build(WireMap(ev));
            && a.v == ev.v && a.t == ev.t && a.extensionFields == ev.extensionFields
            && (ev.v == 0 ==> a.encScheme == Resynthesised(ev).encScheme)
  {
    hide Build, FromU8, AsU8, CoreField, Sized, TextsValid, HasUndefined;
    RebuildScheme(ev);
    RebuildType(ev);
    BuiltExtensions(WireMap(ev));
    ExtensionsKept(ev);
  }

  lemma RebuildScheme(ev: ParsedKommsEvent)
    ensures Build(WireMap(ev)).v == ev.v
    ensures ev.v == 0 ==> Build(WireMap(ev)).encScheme == Resynthesised(ev).encScheme
  {
    WireLookup(ev, 0);
    WireLookup(ev, 8);
    WireLookup(ev, 13);
    hide WireMap, FromU8, AsU8, Sized, TextsValid, HasUndefined, Extensions;
  }

  lemma RebuildType(ev: ParsedKommsEvent)
    requires FromU8(AsU8(ev.t)) == ev.t
    ensures Build(WireMap(ev)).t == ev.t
  {
    hide Build, WireMap, FromU8, AsU8, Sized, TextsValid, HasUndefined;
    BuiltType(WireMap(ev));
    WireLookup(ev, 1);
  }

  lemma BuiltType(m: map<byte, Value>)
    ensures Build(m).t == FromU8(TypeByte(m))
  {
    hide TypeByte, FromU8, Sized, TextsValid, HasUndefined, Extensions;
  }

  lemma BuiltExtensions(m: map<byte, Value>)
    ensures Build(m).extensionFields == Extensions(m)
  {
    hide FromU8, Sized, TextsValid, HasUndefined, Extensions;
  }

  lemma ExtensionsKept(ev: ParsedKommsEvent)
    requires ExtensionKeysApart(ev)
    ensures Extensions(WireMap(ev)) == ev.extensionFields
  {
    hide CoreField, Sized, TextsValid, HasUndefined;
  }

  lemma RebuildField(ev: ParsedKommsEvent, k: byte)
    requires k < EXTENSION_KEY_MIN && WellTyped(WireMap(ev)) && Build(WireMap(ev)).v == ev.v
    ensures CoreField(Build(WireMap(ev)), k) == CoreField(Resynthesised(ev), k)
  {
    hide WireMap, Build, Complaint, Sized, TextsValid, HasUndefined;
    Conservation(WireMap(ev), k);
    WireLookup(ev, k);
    WireLookup(ev, 31);
    SchemeWrittenUnderItsKey(ev, Resynthesised(ev).encScheme, k);
  }

  lemma SchemeWrittenUnderItsKey(ev: ParsedKommsEvent, scheme: Option<u64>, k: byte)
    ensures k != 13 || ev.v == 0 ==> CoreField(ev.(encScheme := scheme), k) == CoreField(ev, k)
  {
  }
}
