/** KOMMS events, their error types and the structural validation of protocol/src/lib.rs. */
module Event {
  import opened Base
  import opened Cbor
  import opened Values

  const MAX_KNOWN_VERSION: nat := 1
  const EXTENSION_KEY_MIN: nat := 33
  const ROLE_MAX: nat := 4

  datatype EventType =
    | ServerCreate | ServerUpdate | ChannelCreate | ChannelUpdate
    | MessagePost | MessageEdit | MessageDelete | DmMessagePost
    | ReactionAdd | ReactionRemove | MemberJoin | MemberLeave
    | RoleAssign | RoleRevoke | ModerationAction
    | DeviceRegister | DeviceRevoke | PinMessage | UnpinMessage | BookmarkAdd | BookmarkRemove
    | SealedMemberJoin | SealedMemberLeave | KeyRotate | SealedEvent
    | Reserved(code: byte)

  function AsU8(t: EventType): byte
  {
    match t
    case ServerCreate => 0
    case ServerUpdate => 1
    case ChannelCreate => 2
    case ChannelUpdate => 3
    case MessagePost => 4
    case MessageEdit => 5
    case MessageDelete => 6
    case DmMessagePost => 7
    case ReactionAdd => 8
    case ReactionRemove => 9
    case MemberJoin => 10
    case MemberLeave => 11
    case RoleAssign => 12
    case RoleRevoke => 13
    case ModerationAction => 14
    case DeviceRegister => 15
    case DeviceRevoke => 16
    case PinMessage => 17
    case UnpinMessage => 18
    case BookmarkAdd => 19
    case BookmarkRemove => 20
    case SealedMemberJoin => 23
    case SealedMemberLeave => 24
    case KeyRotate => 25
    case SealedEvent => 26
    case Reserved(n) => n
  }

  function FromU8(value: byte): (t: EventType)
    ensures AsU8(t) == value
  {
    match value
    case 0 => ServerCreate
    case 1 => ServerUpdate
    case 2 => ChannelCreate
    case 3 => ChannelUpdate
    case 4 => MessagePost
    case 5 => MessageEdit
    case 6 => MessageDelete
    case 7 => DmMessagePost
    case 8 => ReactionAdd
    case 9 => ReactionRemove
    case 10 => MemberJoin
    case 11 => MemberLeave
    case 12 => RoleAssign
    case 13 => RoleRevoke
    case 14 => ModerationAction
    case 15 => DeviceRegister
    case 16 => DeviceRevoke
    case 17 => PinMessage
    case 18 => UnpinMessage
    case 19 => BookmarkAdd
    case 20 => BookmarkRemove
    case 23 => SealedMemberJoin
    case 24 => SealedMemberLeave
    case 25 => KeyRotate
    case 26 => SealedEvent
    case n => Reserved(n)
  }

  datatype ParsedKommsEvent = ParsedKommsEvent(
    v: u64,
    t: EventType,
    sid: Option<Bytes32>,
    cid: Option<Bytes32>,
    did: Option<Bytes32>,
    pid: Option<Bytes32>,
    mid: Option<Bytes32>,
    refBytes: Option<Vec>,
    enc: bool,
    ts: Option<u64>,
    n: Option<u64>,
    sig: Option<Bytes64>,
    parentMid: Option<Bytes32>,
    encScheme: Option<u64>,
    kind: Option<u64>,
    mime: Option<Utf8String>,
    refType: Option<u64>,
    devicePk: Option<Bytes32>,
    sigScheme: Option<u64>,
    reactionKey: Option<Vec>,
    paymentHint: Option<Vec>,
    memberTag: Option<Bytes16>,
    memberSealed: Option<Vec>,
    encSid: Option<Vec>,
    encCid: Option<Vec>,
    encBodyRef: Option<Vec>,
    encParentMid: Option<Vec>,
    matchTag: Option<Bytes16>,
    encT: Option<Vec>,
    keyEpoch: Option<u64>,
    sealedSigner: Option<Vec>,
    role: Option<byte>,
    target: Option<Vec>,
    extensionFields: map<byte, Value>)

  datatype ValidationError =
    | BadVersion(v: u64)
    | InvalidRef
    | ForbiddenField(t: EventType, field: string)
    | MissingForType(t: EventType, field: string)
    | InvalidEnc
    | EncSchemeMismatch(scheme: u64, enc: bool)
    | V1MissingField(field: string)
    | InvalidReactionKey
    | InvalidMime
    | EphemeralOnChain(t: EventType)
    | OpaqueEventType(t: EventType)
    | DeprecatedEncSchemeMls
    | V1_1MissingField(field: string)
    | SealedSenderNotImplemented
    | UnknownEncScheme(scheme: u64)
    | UnknownRole(role: byte)
    | InvalidTargetLength(len: nat)

  type Verdict = Outcome<ValidationError>

  function ValidateRef(r: Vec): Verdict
  {
    if r == [] then Fail(InvalidRef)
    else if r[0] == 0x01 then
      if r[1..] == [] || !ValidUtf8(r[1..]) then Fail(InvalidRef) else Pass
    else if r[0] == 0x02 then
      if |r| != 1 + 32 then Fail(InvalidRef) else Pass
    else Fail(InvalidRef)
  }

  predicate IsAscii(s: seq<byte>)
  {
    forall k | 0 <= k < |s| :: s[k] < 0x80
  }

  /** `ref`, `ref_type`, `mime` and `reaction_key`, in that order. */
  function CheckContent(ev: ParsedKommsEvent): Verdict
  {
    if CheckRef(ev).Fail? then CheckRef(ev)
    else if ev.mime.Some? && (|ev.mime.value| == 0 || |ev.mime.value| > 64 || !IsAscii(ev.mime.value)) then
      Fail(InvalidMime)
    else if ev.reactionKey.Some? && (|ev.reactionKey.value| == 0 || |ev.reactionKey.value| > 32) then
      Fail(InvalidReactionKey)
    else Pass
  }

  function CheckRef(ev: ParsedKommsEvent): Verdict
  {
    match ev.refBytes
    case None => Pass
    case Some(r) =>
      :- ValidateRef(r);
      if ev.refType.Some? && (ev.refType.value > 0xFF || ev.refType.value != r[0]) then Fail(InvalidRef)
      else Pass
  }

  /** The rules of version 1 for `enc_scheme`, `ts` and `n`. */
  function CheckScheme(ev: ParsedKommsEvent): Verdict
  {
    if ev.v < 1 then Pass
    else if ev.encScheme.None? then Fail(V1MissingField("enc_scheme"))
    else
      var scheme := ev.encScheme.value;
      if (scheme != 0) != ev.enc then Fail(EncSchemeMismatch(scheme, ev.enc))
      else if scheme == 2 then Fail(DeprecatedEncSchemeMls)
      else if scheme > 4 then Fail(UnknownEncScheme(scheme))
      else if ev.ts.None? then Fail(V1MissingField("ts"))
      else if ev.n.None? then Fail(V1MissingField("n"))
      else Pass
  }

  predicate GroupEncrypted(ev: ParsedKommsEvent)
  {
    ev.encScheme == Some(4)
  }

  /** Group-encrypted events carry a match tag, an epoch and an encrypted counterpart. */
  function CheckGroup(ev: ParsedKommsEvent): Verdict
  {
    if !GroupEncrypted(ev) then Pass
    else if ev.matchTag.None? then Fail(V1_1MissingField("match_tag"))
    else if ev.keyEpoch.None? then Fail(V1_1MissingField("key_epoch"))
    else if && !(ev.encSid.Some? || ev.encCid.Some? || ev.encBodyRef.Some? || ev.encParentMid.Some? || ev.encT.Some?)
            && !(ev.t.SealedMemberJoin? || ev.t.SealedMemberLeave? || ev.t.KeyRotate?)
    then Fail(V1_1MissingField("enc_* counterpart"))
    else Pass
  }

  predicate HasSid(ev: ParsedKommsEvent) { ev.sid.Some? || (GroupEncrypted(ev) && ev.encSid.Some?) }
  predicate HasCid(ev: ParsedKommsEvent) { ev.cid.Some? || (GroupEncrypted(ev) && ev.encCid.Some?) }
  predicate HasRef(ev: ParsedKommsEvent) { ev.refBytes.Some? || (GroupEncrypted(ev) && ev.encBodyRef.Some?) }
  predicate PlaintextEncMisuse(ev: ParsedKommsEvent) { ev.enc && !GroupEncrypted(ev) }

  function Require(ev: ParsedKommsEvent, cond: bool, field: string): Verdict
  {
    if cond then Pass else Fail(MissingForType(ev.t, field))
  }

  function Forbid(ev: ParsedKommsEvent, present: bool, field: string): Verdict
  {
    if present then Fail(ForbiddenField(ev.t, field)) else Pass
  }

  function CheckPlain(ev: ParsedKommsEvent): Verdict
  {
    if PlaintextEncMisuse(ev) then Fail(InvalidEnc) else Pass
  }

  function ValidateRoleByte(role: Option<byte>): Verdict
  {
    if role.Some? && role.value > ROLE_MAX then Fail(UnknownRole(role.value)) else Pass
  }

  function ValidateTargetBytes(target: Option<Vec>): Verdict
  {
    if target.Some? && |target.value| < 2 then Fail(InvalidTargetLength(|target.value|)) else Pass
  }

  /** The arm of each event type. */
  function CheckType(ev: ParsedKommsEvent): Verdict
  {
    match ev.t
    case ServerCreate | ServerUpdate =>
      :- Require(ev, HasSid(ev), "sid|enc_sid");
      :- Forbid(ev, ev.cid.Some? || ev.encCid.Some?, "cid");
      :- Forbid(ev, ev.did.Some?, "did");
      CheckPlain(ev)
    case ChannelCreate | ChannelUpdate =>
      :- Require(ev, HasSid(ev), "sid|enc_sid");
      :- Require(ev, HasCid(ev), "cid|enc_cid");
      :- Forbid(ev, ev.did.Some?, "did");
      CheckPlain(ev)
    case MessagePost =>
      :- Require(ev, HasSid(ev), "sid|enc_sid");
      :- Require(ev, HasCid(ev), "cid|enc_cid");
      :- Require(ev, HasRef(ev), "ref|enc_body_ref");
      Forbid(ev, PlaintextEncMisuse(ev), "enc")
    case MessageEdit =>
      :- Require(ev, HasSid(ev), "sid|enc_sid");
      :- Require(ev, HasCid(ev), "cid|enc_cid");
      :- Require(ev, ev.mid.Some?, "mid");
      :- Require(ev, HasRef(ev), "ref|enc_body_ref");
      Forbid(ev, PlaintextEncMisuse(ev), "enc")
    case MessageDelete | PinMessage | UnpinMessage =>
      :- Require(ev, HasSid(ev), "sid|enc_sid");
      :- Require(ev, HasCid(ev), "cid|enc_cid");
      :- Require(ev, ev.mid.Some?, "mid");
      Forbid(ev, PlaintextEncMisuse(ev), "enc")
    case DmMessagePost =>
      :- Require(ev, ev.did.Some?, "did");
      :- Require(ev, ev.refBytes.Some?, "ref");
      :- Require(ev, ev.enc, "enc");
      :- Forbid(ev, ev.sid.Some? || ev.encSid.Some?, "sid");
      Forbid(ev, ev.cid.Some? || ev.encCid.Some?, "cid")
    case ReactionAdd | ReactionRemove =>
      :- Require(ev, HasSid(ev), "sid|enc_sid");
      :- Require(ev, HasCid(ev), "cid|enc_cid");
      :- Require(ev, ev.mid.Some?, "mid");
      :- Require(ev, ev.reactionKey.Some? || ev.refBytes.Some?, "reaction_key|ref");
      Forbid(ev, PlaintextEncMisuse(ev), "enc")
    case MemberJoin | MemberLeave =>
      :- Require(ev, ev.sid.Some?, "sid");
      :- Require(ev, ev.pid.Some?, "pid");
      :- Forbid(ev, ev.cid.Some?, "cid");
      :- Forbid(ev, ev.did.Some?, "did");
      CheckPlain(ev)
    case RoleAssign =>
      :- Require(ev, HasSid(ev), "sid|enc_sid");
      :- Require(ev, ev.target.Some?, "target");
      :- Require(ev, ev.role.Some?, "role");
      :- ValidateRoleByte(ev.role);
      :- ValidateTargetBytes(ev.target);
      CheckPlain(ev)
    case RoleRevoke =>
      :- Require(ev, HasSid(ev), "sid|enc_sid");
      :- Require(ev, ev.target.Some?, "target");
      :- ValidateRoleByte(ev.role);
      :- ValidateTargetBytes(ev.target);
      CheckPlain(ev)
    case ModerationAction =>
      :- Require(ev, HasSid(ev), "sid|enc_sid");
      Forbid(ev, PlaintextEncMisuse(ev), "enc")
    case DeviceRegister =>
      :- Require(ev, ev.devicePk.Some?, "device_pk");
      :- Require(ev, ev.sig.Some?, "sig");
      :- Require(ev, ev.sigScheme.Some?, "sig_scheme");
      Forbid(ev, PlaintextEncMisuse(ev), "enc")
    case DeviceRevoke =>
      :- Require(ev, ev.devicePk.Some?, "device_pk");
      :- Require(ev, ev.sig.Some?, "sig");
      Forbid(ev, PlaintextEncMisuse(ev), "enc")
    case BookmarkAdd | BookmarkRemove =>
      :- Require(ev, ev.mid.Some?, "mid");
      Forbid(ev, PlaintextEncMisuse(ev), "enc")
    case SealedMemberJoin =>
      :- Require(ev, GroupEncrypted(ev), "enc_scheme=4");
      :- Require(ev, ev.memberTag.Some?, "member_tag");
      :- Require(ev, ev.memberSealed.Some?, "member_sealed");
      :- Require(ev, ev.matchTag.Some?, "match_tag");
      :- Require(ev, ev.keyEpoch.Some?, "key_epoch");
      CheckUnlinked(ev)
    case SealedMemberLeave =>
      :- Require(ev, ev.memberTag.Some?, "member_tag");
      :- Require(ev, ev.sig.Some?, "sig");
      CheckUnlinked(ev)
    case KeyRotate =>
      :- Require(ev, GroupEncrypted(ev), "enc_scheme=4");
      :- Require(ev, ev.memberSealed.Some?, "member_sealed");
      :- Require(ev, ev.matchTag.Some?, "match_tag");
      :- Require(ev, ev.keyEpoch.Some?, "key_epoch");
      :- Forbid(ev, ev.sid.Some?, "sid");
      Forbid(ev, ev.cid.Some?, "cid")
    case SealedEvent =>
      :- Require(ev, GroupEncrypted(ev), "enc_scheme=4");
      :- Require(ev, ev.encT.Some?, "enc_t");
      CheckUnlinked(ev)
    case Reserved(_) => Fail(OpaqueEventType(ev.t))
  }

  /** Sealed events carry no plaintext server, channel, thread or member id. */
  function CheckUnlinked(ev: ParsedKommsEvent): Verdict
  {
    if ev.sid.Some? then Fail(ForbiddenField(ev.t, "sid"))
    else if ev.cid.Some? then Fail(ForbiddenField(ev.t, "cid"))
    else if ev.did.Some? then Fail(ForbiddenField(ev.t, "did"))
    else if ev.pid.Some? then Fail(ForbiddenField(ev.t, "pid"))
    else Pass
  }

  /** The checks that come before the type's own arm. */
  function CheckCommon(ev: ParsedKommsEvent): Verdict
  {
    if ev.v > MAX_KNOWN_VERSION then Fail(BadVersion(ev.v))
    else if AsU8(ev.t) == 21 || AsU8(ev.t) == 22 then Fail(EphemeralOnChain(ev.t))
    else
      :- CheckContent(ev);
      :- CheckScheme(ev);
      if ev.sigScheme == Some(1) || ev.sealedSigner.Some? then Fail(SealedSenderNotImplemented)
      else CheckGroup(ev)
  }

  function ValidateEvent(ev: ParsedKommsEvent): Verdict
  {
    if CheckCommon(ev).Fail? then CheckCommon(ev) else CheckType(ev)
  }

  // ----- what validation guarantees -----

  /** The types whose arm demands key 11. */
  predicate RequiresSig(t: EventType)
  {
    t.DeviceRegister? || t.DeviceRevoke? || t.SealedMemberLeave?
  }

  /** Clearing `sig` of a valid event breaks it exactly for the types that demand `sig`. */
  lemma ClearingSig(ev: ParsedKommsEvent)
    requires ValidateEvent(ev).Pass?
    ensures ValidateEvent(ev.(sig := None))
         == if RequiresSig(ev.t) then Fail(MissingForType(ev.t, "sig")) else Pass
  {
    CommonIgnoresSig(ev);
    hide CheckCommon, CheckType;
    if RequiresSig(ev.t) {
      TypeDemandsSig(ev);
    } else {
      TypeIgnoresSig(ev);
    }
  }

  lemma TypeDemandsSig(ev: ParsedKommsEvent)
    requires RequiresSig(ev.t) && CheckType(ev).Pass?
    ensures CheckType(ev.(sig := None)) == Fail(MissingForType(ev.t, "sig"))
  {
  }

  lemma TypeIgnoresSig(ev: ParsedKommsEvent)
    requires !RequiresSig(ev.t) && CheckType(ev).Pass?
    ensures CheckType(ev.(sig := None)).Pass?
  {
  }

  lemma CommonIgnoresSig(ev: ParsedKommsEvent)
    ensures CheckCommon(ev.(sig := None)) == CheckCommon(ev)
  {
  }

  /** The types whose arm looks at the role. */
  predicate RoleManaged(t: EventType)
  {
    t.RoleAssign? || t.RoleRevoke?
  }

  /** Exactly when a role is reported as unknown: only by the role-management types, and only once
      the checks before it have passed. */
  lemma UnknownRoleIff(ev: ParsedKommsEvent)
    ensures ValidateEvent(ev).Fail? && ValidateEvent(ev).error.UnknownRole?
       <==> && ev.role.Some? && ev.role.value > ROLE_MAX && RoleManaged(ev.t)
            && CheckCommon(ev).Pass? && HasSid(ev) && ev.target.Some?
    ensures ev.role.Some? && ev.role.value > ROLE_MAX && RoleManaged(ev.t) ==> ValidateEvent(ev).Fail?
    ensures ValidateEvent(ev).Fail? && ValidateEvent(ev).error.UnknownRole? ==>
              ValidateEvent(ev).error.role == ev.role.value
  {
    CommonKnowsNoRole(ev);
    hide CheckCommon;
  }

  lemma CommonKnowsNoRole(ev: ParsedKommsEvent)
    ensures CheckCommon(ev).Fail? ==> !CheckCommon(ev).error.UnknownRole?
  {
  }

  /** Every other type ignores the role altogether. */
  lemma RoleIgnored(ev: ParsedKommsEvent, role: Option<byte>)
    ensures CheckCommon(ev.(role := role)) == CheckCommon(ev)
    ensures !RoleManaged(ev.t) ==> ValidateEvent(ev.(role := role)) == ValidateEvent(ev)
  {
    hide CheckCommon, CheckType;
    CommonIgnoresRole(ev, role);
    if !RoleManaged(ev.t) {
      TypeIgnoresRole(ev, role);
    }
  }

  lemma CommonIgnoresRole(ev: ParsedKommsEvent, role: Option<byte>)
    ensures CheckCommon(ev.(role := role)) == CheckCommon(ev)
  {
    hide ValidateRef, IsAscii;
  }

  lemma TypeIgnoresRole(ev: ParsedKommsEvent, role: Option<byte>)
    requires !RoleManaged(ev.t)
    ensures CheckType(ev.(role := role)) == CheckType(ev)
  {
    hide Require, Forbid, GroupEncrypted, HasSid, HasCid, HasRef, PlaintextEncMisuse, CheckPlain, CheckUnlinked;
    ChecksIgnoreRole(ev, role);
    HelpersIgnoreRole(ev, role);
  }

  lemma HelpersIgnoreRole(ev: ParsedKommsEvent, role: Option<byte>)
    ensures var a := ev.(role := role);
            && GroupEncrypted(a) == GroupEncrypted(ev)
            && HasSid(a) == HasSid(ev) && HasCid(a) == HasCid(ev) && HasRef(a) == HasRef(ev)
            && PlaintextEncMisuse(a) == PlaintextEncMisuse(ev)
            && CheckPlain(a) == CheckPlain(ev) && CheckUnlinked(a) == CheckUnlinked(ev)
  {
  }

  lemma ChecksIgnoreRole(ev: ParsedKommsEvent, role: Option<byte>)
    ensures forall cond, field :: Require(ev.(role := role), cond, field) == Require(ev, cond, field)
    ensures forall present, field :: Forbid(ev.(role := role), present, field) == Forbid(ev, present, field)
  {
  }

  /** A version 0 event as the parser reports it: `enc_scheme` is synthesised from `enc`. */
  function Resynthesised(ev: ParsedKommsEvent): ParsedKommsEvent
  {
    if ev.v == 0 then ev.(encScheme := Some(if ev.enc then 1 else 0)) else ev
  }

  /** Without its group scheme, a version 0 event of this shape still satisfies its type's arm. */
  predicate ValidUngrouped(ev: ParsedKommsEvent)
  {
    match ev.t
    case ServerCreate | ServerUpdate | RoleAssign | RoleRevoke | ModerationAction => ev.sid.Some? && !ev.enc
    case ChannelCreate | ChannelUpdate | MessageDelete | PinMessage | UnpinMessage
      | ReactionAdd | ReactionRemove => ev.sid.Some? && ev.cid.Some? && !ev.enc
    case MessagePost | MessageEdit => ev.sid.Some? && ev.cid.Some? && ev.refBytes.Some? && !ev.enc
    case MemberJoin | MemberLeave | DeviceRegister | DeviceRevoke | BookmarkAdd | BookmarkRemove => !ev.enc
    case DmMessagePost | SealedMemberLeave => true
    case _ => false
  }

  /** Exactly when a valid event is still valid as the parser would report it. */
  lemma ResynthesisedValidIff(ev: ParsedKommsEvent)
    requires ValidateEvent(ev).Pass?
    ensures ValidateEvent(Resynthesised(ev)).Pass?
       <==> (ev.v == 0 && GroupEncrypted(ev) ==> ValidUngrouped(ev))
  {
    CommonResynthesised(ev);
    hide CheckCommon, CheckType, ValidUngrouped;
    if ev.v == 0 {
      if GroupEncrypted(ev) {
        TypeUngrouped(ev, Resynthesised(ev).encScheme);
      } else {
        TypeSameGrouping(ev, Resynthesised(ev).encScheme);
      }
    }
  }

  lemma TypeUngrouped(ev: ParsedKommsEvent, scheme: Option<u64>)
    requires CheckType(ev).Pass? && scheme != Some(4)
    ensures CheckType(ev.(encScheme := scheme)).Pass? <==> ValidUngrouped(ev)
  {
  }

  lemma TypeSameGrouping(ev: ParsedKommsEvent, scheme: Option<u64>)
    requires !GroupEncrypted(ev) && scheme != Some(4) && CheckType(ev).Pass?
    ensures CheckType(ev.(encScheme := scheme)).Pass?
  {
  }

  lemma CommonResynthesised(ev: ParsedKommsEvent)
    requires CheckCommon(ev).Pass?
    ensures CheckCommon(Resynthesised(ev)).Pass?
  {
    hide ValidateRef, IsAscii;
  }

  /** A valid event has a known version and type, and never key 30. */
  lemma ValidShape(ev: ParsedKommsEvent)
    requires ValidateEvent(ev).Pass?
    ensures ev.v <= 1 && !ev.t.Reserved? && FromU8(AsU8(ev.t)) == ev.t
    ensures ev.sealedSigner.None?
    ensures ev.v == 1 ==> ev.encScheme.Some?
  {
    ValidTypeKnown(ev);
    KnownTypeRoundTrip(ev.t);
    hide CheckType, CheckGroup, CheckContent, AsU8, FromU8;
  }

  lemma ValidTypeKnown(ev: ParsedKommsEvent)
    requires CheckType(ev).Pass?
    ensures !ev.t.Reserved?
  {
  }

  /** Decoding a type byte undoes encoding it, for the types with a byte of their own. */
  lemma KnownTypeRoundTrip(t: EventType)
    requires !t.Reserved?
    ensures FromU8(AsU8(t)) == t
  {
  }
}
