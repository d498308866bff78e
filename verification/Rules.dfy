/** The validation rules of protocol/src/lib.rs as data: for every type what it demands and what it
    forbids, and a list of conditions common to all. `ValidateEvent` is proved to report the first
    entry that fails. */
module Rules {
  import opened Base
  import opened Values
  import opened Event

  // ----- conditions common to all types -----

  datatype Check = Check(holds: bool, error: ValidationError)

  predicate RefWellFormed(r: Vec)
  {
    || (|r| >= 2 && r[0] == 0x01 && ValidUtf8(r[1..]))
    || (|r| == 33 && r[0] == 0x02)
  }

  function SchemeOf(ev: ParsedKommsEvent): u64
  {
    if ev.encScheme.Some? then ev.encScheme.value else 0
  }

  /** In the order in which they are reported. */
  function CommonChecks(ev: ParsedKommsEvent): (s: seq<Check>)
    ensures |s| == 16
  {
    var code, scheme, v1, group := AsU8(ev.t), SchemeOf(ev), ev.v >= 1, ev.encScheme == Some(4);
    [
      Check(ev.v <= 1, BadVersion(ev.v)),
      Check(code != 21 && code != 22, EphemeralOnChain(ev.t)),
      Check(ev.refBytes.Some? ==> RefWellFormed(ev.refBytes.value), InvalidRef),
      Check(ev.refBytes.Some? && ev.refType.Some? ==>
              |ev.refBytes.value| > 0 && ev.refType.value == ev.refBytes.value[0], InvalidRef),
      Check(ev.mime.Some? ==>
              1 <= |ev.mime.value| <= 64
              && forall k | 0 <= k < |ev.mime.value| :: ev.mime.value[k] < 128, InvalidMime),
      Check(ev.reactionKey.Some? ==> 1 <= |ev.reactionKey.value| <= 32, InvalidReactionKey),
      Check(v1 ==> ev.encScheme.Some?, V1MissingField("enc_scheme")),
      Check(v1 ==> (scheme != 0) == ev.enc, EncSchemeMismatch(scheme, ev.enc)),
      Check(v1 ==> scheme != 2, DeprecatedEncSchemeMls),
      Check(v1 ==> scheme <= 4, UnknownEncScheme(scheme)),
      Check(v1 ==> ev.ts.Some?, V1MissingField("ts")),
      Check(v1 ==> ev.n.Some?, V1MissingField("n")),
      Check(ev.sigScheme != Some(1) && ev.sealedSigner.None?, SealedSenderNotImplemented),
      Check(group ==> ev.matchTag.Some?, V1_1MissingField("match_tag")),
      Check(group ==> ev.keyEpoch.Some?, V1_1MissingField("key_epoch")),
      Check(group && ev.t !in {SealedMemberJoin, SealedMemberLeave, KeyRotate} ==>
              ev.encSid.Some? || ev.encCid.Some? || ev.encBodyRef.Some? || ev.encParentMid.Some? || ev.encT.Some?,
            V1_1MissingField("enc_* counterpart"))
    ]
  }

  /** `r` is the error of the first check that fails, or passes if none does. */
  ghost predicate FirstFailing(checks: seq<Check>, r: Verdict)
  {
    match r
    case Pass => forall j | 0 <= j < |checks| :: checks[j].holds
    case Fail(e) =>
      exists j :: FailsFirstAt(checks, j) && checks[j].error == e
  }

  ghost predicate FailsFirstAt(checks: seq<Check>, j: int)
  {
    0 <= j < |checks| && !checks[j].holds && forall i | 0 <= i < j :: checks[i].holds
  }

  lemma ContentChecks(ev: ParsedKommsEvent)
    ensures var cs := CommonChecks(ev);
            CheckContent(ev) == if !cs[2].holds || !cs[3].holds then Fail(InvalidRef)
                                else if !cs[4].holds then Fail(InvalidMime)
                                else if !cs[5].holds then Fail(InvalidReactionKey) else Pass
  {
    hide ValidUtf8, AsU8;
  }

  lemma SchemeChecks(ev: ParsedKommsEvent)
    ensures var cs := CommonChecks(ev);
            CheckScheme(ev) == if !cs[6].holds then Fail(cs[6].error) else if !cs[7].holds then Fail(cs[7].error)
                               else if !cs[8].holds then Fail(cs[8].error) else if !cs[9].holds then Fail(cs[9].error)
                               else if !cs[10].holds then Fail(cs[10].error)
                               else if !cs[11].holds then Fail(cs[11].error) else Pass
  {
    hide ValidUtf8, AsU8, RefWellFormed;
  }

  lemma GroupChecks(ev: ParsedKommsEvent)
    ensures var cs := CommonChecks(ev);
            CheckGroup(ev) == if !cs[13].holds then Fail(cs[13].error) else if !cs[14].holds then Fail(cs[14].error)
                              else if !cs[15].holds then Fail(cs[15].error) else Pass
  {
    hide ValidUtf8, AsU8, RefWellFormed;
  }

  lemma EnvelopeChecks(ev: ParsedKommsEvent)
    ensures var cs := CommonChecks(ev);
            CheckCommon(ev) == if !cs[0].holds then Fail(cs[0].error) else if !cs[1].holds then Fail(cs[1].error)
                               else if CheckContent(ev).Fail? then CheckContent(ev)
                               else if CheckScheme(ev).Fail? then CheckScheme(ev)
                               else if !cs[12].holds then Fail(cs[12].error) else CheckGroup(ev)
  {
    hide ValidUtf8, AsU8, RefWellFormed, CheckContent, CheckScheme, CheckGroup;
  }

  lemma FailsAt(checks: seq<Check>, j: int, r: Verdict)
    requires FailsFirstAt(checks, j) && r == Fail(checks[j].error)
    ensures FirstFailing(checks, r)
  {
  }

  lemma CommonErrors(ev: ParsedKommsEvent)
    ensures var cs := CommonChecks(ev);
            && cs[2].error == InvalidRef && cs[3].error == InvalidRef
            && cs[4].error == InvalidMime && cs[5].error == InvalidReactionKey
  {
  }

  /** The checks before the type's own report the first of the sixteen that fails. */
  lemma CommonIsTable(ev: ParsedKommsEvent)
    ensures FirstFailing(CommonChecks(ev), CheckCommon(ev))
  {
    hide CommonChecks, CheckCommon, CheckContent, CheckScheme, CheckGroup, FirstFailing;
    ContentChecks(ev);
    SchemeChecks(ev);
    GroupChecks(ev);
    EnvelopeChecks(ev);
    CommonErrors(ev);
    FirstFailingOfSixteen(CommonChecks(ev), CheckCommon(ev));
  }

  lemma FirstFailingOfSixteen(cs: seq<Check>, r: Verdict)
    requires |cs| == 16
    requires r == if !cs[0].holds then Fail(cs[0].error) else if !cs[1].holds then Fail(cs[1].error)
                  else if !cs[2].holds then Fail(cs[2].error) else if !cs[3].holds then Fail(cs[3].error)
                  else if !cs[4].holds then Fail(cs[4].error) else if !cs[5].holds then Fail(cs[5].error)
                  else if !cs[6].holds then Fail(cs[6].error) else if !cs[7].holds then Fail(cs[7].error)
                  else if !cs[8].holds then Fail(cs[8].error) else if !cs[9].holds then Fail(cs[9].error)
                  else if !cs[10].holds then Fail(cs[10].error) else if !cs[11].holds then Fail(cs[11].error)
                  else if !cs[12].holds then Fail(cs[12].error) else if !cs[13].holds then Fail(cs[13].error)
                  else if !cs[14].holds then Fail(cs[14].error) else if !cs[15].holds then Fail(cs[15].error)
                  else Pass
    ensures FirstFailing(cs, r)
  {
    if j :| 0 <= j < 16 && !cs[j].holds {
      var k := FirstFalse(cs, j);
      FailsAt(cs, k, r);
    }
  }

  /** The first check that fails, given one that does. */
  lemma {:induction false} FirstFalse(cs: seq<Check>, j: nat) returns (k: nat)
    requires j < |cs| && !cs[j].holds
    ensures FailsFirstAt(cs, k)
    decreases j
  {
    if i :| 0 <= i < j && !cs[i].holds {
      k := FirstFalse(cs, i);
    } else {
      k := j;
    }
  }

  // ----- what each type demands and forbids -----

  /** Is the field under wire key `k` there? */
  predicate Present(ev: ParsedKommsEvent, k: nat)
  {
    match k
    case 2 => ev.sid.Some?
    case 3 => ev.cid.Some?
    case 4 => ev.did.Some?
    case 5 => ev.pid.Some?
    case 6 => ev.mid.Some?
    case 7 => ev.refBytes.Some?
    case 9 => ev.ts.Some?
    case 10 => ev.n.Some?
    case 11 => ev.sig.Some?
    case 12 => ev.parentMid.Some?
    case 13 => ev.encScheme.Some?
    case 14 => ev.kind.Some?
    case 15 => ev.mime.Some?
    case 16 => ev.refType.Some?
    case 17 => ev.devicePk.Some?
    case 18 => ev.sigScheme.Some?
    case 19 => ev.reactionKey.Some?
    case 20 => ev.paymentHint.Some?
    case 21 => ev.memberTag.Some?
    case 22 => ev.memberSealed.Some?
    case 23 => ev.encSid.Some?
    case 24 => ev.encCid.Some?
    case 25 => ev.encBodyRef.Some?
    case 26 => ev.encParentMid.Some?
    case 27 => ev.matchTag.Some?
    case 28 => ev.encT.Some?
    case 29 => ev.keyEpoch.Some?
    case 30 => ev.sealedSigner.Some?
    case 31 => ev.role.Some?
    case 32 => ev.target.Some?
    case _ => true
  }

  /** What satisfies a demand: a field; a field or, in a group-encrypted event, its encrypted
      counterpart; one of two fields; the flag; the group scheme. */
  datatype Need = Field(k: nat) | Encryptable(k: nat, counterpart: nat) | Either(k: nat, l: nat) | Flag | Group

  datatype Demand = Demand(need: Need, name: string)

  predicate Met(ev: ParsedKommsEvent, need: Need)
  {
    match need
    case Field(k) => Present(ev, k)
    case Encryptable(k, c) => Present(ev, k) || (ev.encScheme == Some(4) && Present(ev, c))
    case Either(k, l) => Present(ev, k) || Present(ev, l)
    case Flag => ev.enc
    case Group => ev.encScheme == Some(4)
  }

  /** Neither key `k` nor key `also` (the same, if there is only one) may be there. */
  datatype Ban = Ban(k: nat, also: nat, name: string)

  predicate Broken(ev: ParsedKommsEvent, ban: Ban)
  {
    Present(ev, ban.k) || Present(ev, ban.also)
  }

  /** What becomes of the flag without the group scheme. */
  datatype PlainFlag = Allowed | Invalid | Forbidden

  /** `roles` says that role and target are looked at. */
  datatype Rule = Rule(demands: seq<Demand>, roles: bool, bans: seq<Ban>, plainFlag: PlainFlag)

  const SID := Demand(Encryptable(2, 23), "sid|enc_sid")
  const CID := Demand(Encryptable(3, 24), "cid|enc_cid")
  const REF := Demand(Encryptable(7, 25), "ref|enc_body_ref")
  const MID := Demand(Field(6), "mid")
  const SIG := Demand(Field(11), "sig")
  const DEVICE := Demand(Field(17), "device_pk")
  const GROUP := Demand(Group, "enc_scheme=4")
  const SEALED := Demand(Field(22), "member_sealed")
  const MATCH := Demand(Field(27), "match_tag")
  const EPOCH := Demand(Field(29), "key_epoch")
  const NO_SID := Ban(2, 2, "sid")
  const NO_CID := Ban(3, 3, "cid")
  const NO_DID := Ban(4, 4, "did")
  const NO_PID := Ban(5, 5, "pid")
  const UNLINKED := [NO_SID, NO_CID, NO_DID, NO_PID]

  /** The table; reserved types have no rule. */
  function RuleOf(t: EventType): (r: Option<Rule>)
    ensures r.Some? ==> |r.value.demands| <= 5 && |r.value.bans| <= 4
  {
    match t
    case ServerCreate | ServerUpdate => Some(Rule([SID], false, [Ban(3, 24, "cid"), NO_DID], Invalid))
    case ChannelCreate | ChannelUpdate => Some(Rule([SID, CID], false, [NO_DID], Invalid))
    case MessagePost => Some(Rule([SID, CID, REF], false, [], Forbidden))
    case MessageEdit => Some(Rule([SID, CID, MID, REF], false, [], Forbidden))
    case MessageDelete | PinMessage | UnpinMessage => Some(Rule([SID, CID, MID], false, [], Forbidden))
    case DmMessagePost =>
      Some(Rule([Demand(Field(4), "did"), Demand(Field(7), "ref"), Demand(Flag, "enc")], false,
                [Ban(2, 23, "sid"), Ban(3, 24, "cid")], Allowed))
    case ReactionAdd | ReactionRemove =>
      Some(Rule([SID, CID, MID, Demand(Either(19, 7), "reaction_key|ref")], false, [], Forbidden))
    case MemberJoin | MemberLeave =>
      Some(Rule([Demand(Field(2), "sid"), Demand(Field(5), "pid")], false, [NO_CID, NO_DID], Invalid))
    case RoleAssign =>
      Some(Rule([SID, Demand(Field(32), "target"), Demand(Field(31), "role")], true, [], Invalid))
    case RoleRevoke => Some(Rule([SID, Demand(Field(32), "target")], true, [], Invalid))
    case ModerationAction => Some(Rule([SID], false, [], Forbidden))
    case DeviceRegister => Some(Rule([DEVICE, SIG, Demand(Field(18), "sig_scheme")], false, [], Forbidden))
    case DeviceRevoke => Some(Rule([DEVICE, SIG], false, [], Forbidden))
    case BookmarkAdd | BookmarkRemove => Some(Rule([MID], false, [], Forbidden))
    case SealedMemberJoin =>
      Some(Rule([GROUP, Demand(Field(21), "member_tag"), SEALED, MATCH, EPOCH], false, UNLINKED, Allowed))
    case SealedMemberLeave => Some(Rule([Demand(Field(21), "member_tag"), SIG], false, UNLINKED, Allowed))
    case KeyRotate => Some(Rule([GROUP, SEALED, MATCH, EPOCH], false, [NO_SID, NO_CID], Allowed))
    case SealedEvent => Some(Rule([GROUP, Demand(Field(28), "enc_t")], false, UNLINKED, Allowed))
    case Reserved(_) => None
  }

  /** The first demand that is not met. */
  function FirstUnmet(ev: ParsedKommsEvent, ds: seq<Demand>): Option<Demand>
    requires |ds| <= 5
  {
    if |ds| > 0 && !Met(ev, ds[0].need) then Some(ds[0])
    else if |ds| > 1 && !Met(ev, ds[1].need) then Some(ds[1])
    else if |ds| > 2 && !Met(ev, ds[2].need) then Some(ds[2])
    else if |ds| > 3 && !Met(ev, ds[3].need) then Some(ds[3])
    else if |ds| > 4 && !Met(ev, ds[4].need) then Some(ds[4])
    else None
  }

  function FirstBroken(ev: ParsedKommsEvent, bs: seq<Ban>): Option<Ban>
    requires |bs| <= 4
  {
    if |bs| > 0 && Broken(ev, bs[0]) then Some(bs[0])
    else if |bs| > 1 && Broken(ev, bs[1]) then Some(bs[1])
    else if |bs| > 2 && Broken(ev, bs[2]) then Some(bs[2])
    else if |bs| > 3 && Broken(ev, bs[3]) then Some(bs[3])
    else None
  }

  function RoleVerdict(ev: ParsedKommsEvent): Verdict
  {
    if ev.role.Some? && ev.role.value > 4 then Fail(UnknownRole(ev.role.value))
    else if ev.target.Some? && |ev.target.value| < 2 then Fail(InvalidTargetLength(|ev.target.value|))
    else Pass
  }

  function FlagVerdict(ev: ParsedKommsEvent, plainFlag: PlainFlag): Verdict
  {
    if !ev.enc || ev.encScheme == Some(4) || plainFlag == Allowed then Pass
    else if plainFlag == Invalid then Fail(InvalidEnc) else Fail(ForbiddenField(ev.t, "enc"))
  }

  /** Demands first, then role and target, then bans, then the flag. */
  function RuleVerdict(ev: ParsedKommsEvent, rule: Rule): Verdict
    requires |rule.demands| <= 5 && |rule.bans| <= 4
  {
    var unmet, broken := FirstUnmet(ev, rule.demands), FirstBroken(ev, rule.bans);
    if unmet.Some? then Fail(MissingForType(ev.t, unmet.value.name))
    else if rule.roles && RoleVerdict(ev).Fail? then RoleVerdict(ev)
    else if broken.Some? then Fail(ForbiddenField(ev.t, broken.value.name))
    else FlagVerdict(ev, rule.plainFlag)
  }

  function TableVerdict(ev: ParsedKommsEvent): Verdict
  {
    match RuleOf(ev.t)
    case None => Fail(OpaqueEventType(ev.t))
    case Some(rule) => RuleVerdict(ev, rule)
  }

  lemma ServersAreTable(ev: ParsedKommsEvent)
    requires ev.t in {ServerCreate, ServerUpdate, ChannelCreate, ChannelUpdate}
    ensures CheckType(ev) == TableVerdict(ev)
  {
    hide CheckUnlinked, ValidateRoleByte, ValidateTargetBytes, RoleVerdict, ValidUtf8;
  }

  lemma MessagesAreTable(ev: ParsedKommsEvent)
    requires ev.t in {MessagePost, MessageEdit, MessageDelete, PinMessage, UnpinMessage}
    ensures CheckType(ev) == TableVerdict(ev)
  {
    hide CheckUnlinked, ValidateRoleByte, ValidateTargetBytes, RoleVerdict, ValidUtf8;
  }

  lemma DirectAndBookmarksAreTable(ev: ParsedKommsEvent)
    requires ev.t in {DmMessagePost, BookmarkAdd, BookmarkRemove}
    ensures CheckType(ev) == TableVerdict(ev)
  {
    hide CheckUnlinked, ValidateRoleByte, ValidateTargetBytes, RoleVerdict, ValidUtf8;
  }

  lemma ReactionsAreTable(ev: ParsedKommsEvent)
    requires ev.t in {ReactionAdd, ReactionRemove}
    ensures CheckType(ev) == TableVerdict(ev)
  {
    hide CheckUnlinked, ValidateRoleByte, ValidateTargetBytes, RoleVerdict, ValidUtf8;
  }

  lemma MembersAreTable(ev: ParsedKommsEvent)
    requires ev.t in {MemberJoin, MemberLeave, ModerationAction}
    ensures CheckType(ev) == TableVerdict(ev)
  {
    hide CheckUnlinked, ValidateRoleByte, ValidateTargetBytes, RoleVerdict, ValidUtf8, HasCid, HasRef;
  }

  lemma RolesAreTable(ev: ParsedKommsEvent)
    requires ev.t in {RoleAssign, RoleRevoke}
    ensures CheckType(ev) == TableVerdict(ev)
  {
    hide CheckUnlinked, ValidUtf8, HasCid, HasRef;
  }

  lemma DevicesAreTable(ev: ParsedKommsEvent)
    requires ev.t in {DeviceRegister, DeviceRevoke} || ev.t.Reserved?
    ensures CheckType(ev) == TableVerdict(ev)
  {
    hide CheckUnlinked, ValidateRoleByte, ValidateTargetBytes, RoleVerdict, ValidUtf8;
  }

  lemma SealedJoinIsTable(ev: ParsedKommsEvent)
    requires ev.t == SealedMemberJoin
    ensures CheckType(ev) == TableVerdict(ev)
  {
    hide HasSid, HasCid, HasRef, CheckPlain, ValidateRoleByte, ValidateTargetBytes, RoleVerdict, ValidUtf8;
  }

  lemma SealedEventIsTable(ev: ParsedKommsEvent)
    requires ev.t == SealedEvent
    ensures CheckType(ev) == TableVerdict(ev)
  {
    hide HasSid, HasCid, HasRef, CheckPlain, ValidateRoleByte, ValidateTargetBytes, RoleVerdict, ValidUtf8;
  }

  lemma SealedLeaveIsTable(ev: ParsedKommsEvent)
    requires ev.t == SealedMemberLeave
    ensures CheckType(ev) == TableVerdict(ev)
  {
    hide HasSid, HasCid, HasRef, CheckPlain, ValidateRoleByte, ValidateTargetBytes, RoleVerdict, ValidUtf8;
  }

  lemma KeyRotateIsTable(ev: ParsedKommsEvent)
    requires ev.t == KeyRotate
    ensures CheckType(ev) == TableVerdict(ev)
  {
    hide HasSid, HasCid, HasRef, CheckPlain, ValidateRoleByte, ValidateTargetBytes, RoleVerdict, ValidUtf8;
  }

  /** The arm of every type is its row of the table, error by error. */
  lemma TypeIsTable(ev: ParsedKommsEvent)
    ensures CheckType(ev) == TableVerdict(ev)
  {
    hide CheckType, TableVerdict;
    if ev.t in {ServerCreate, ServerUpdate, ChannelCreate, ChannelUpdate} {
      ServersAreTable(ev);
    } else if ev.t in {MessagePost, MessageEdit, MessageDelete, PinMessage, UnpinMessage} {
      MessagesAreTable(ev);
    } else if ev.t in {ReactionAdd, ReactionRemove} {
      ReactionsAreTable(ev);
    } else if ev.t in {DmMessagePost, BookmarkAdd, BookmarkRemove} {
      DirectAndBookmarksAreTable(ev);
    } else if ev.t in {MemberJoin, MemberLeave, ModerationAction} {
      MembersAreTable(ev);
    } else if ev.t in {RoleAssign, RoleRevoke} {
      RolesAreTable(ev);
    } else if ev.t == SealedMemberJoin {
      SealedJoinIsTable(ev);
    } else if ev.t == SealedEvent {
      SealedEventIsTable(ev);
    } else if ev.t == SealedMemberLeave {
      SealedLeaveIsTable(ev);
    } else if ev.t == KeyRotate {
      KeyRotateIsTable(ev);
    } else {
      DevicesAreTable(ev);
    }
  }

  /** Main theorem: validation reports the first common condition that fails, and else what the
      table says of the type. */
  lemma ValidationIsTable(ev: ParsedKommsEvent)
    ensures if forall j | 0 <= j < 16 :: CommonChecks(ev)[j].holds then ValidateEvent(ev) == TableVerdict(ev)
            else FirstFailing(CommonChecks(ev), ValidateEvent(ev))
  {
    hide CheckCommon, CheckType, TableVerdict, CommonChecks;
    CommonIsTable(ev);
    TypeIsTable(ev);
  }

  /** An event is valid exactly when the common conditions hold, its type has a rule, every demand is
      met, no ban is broken, and role, target and flag are in order. */
  lemma ValidIff(ev: ParsedKommsEvent)
    ensures ValidateEvent(ev).Pass?
       <==> && (forall j | 0 <= j < 16 :: CommonChecks(ev)[j].holds)
            && RuleOf(ev.t).Some?
            && var rule := RuleOf(ev.t).value;
               && (forall j | 0 <= j < |rule.demands| :: Met(ev, rule.demands[j].need))
               && (forall j | 0 <= j < |rule.bans| :: !Broken(ev, rule.bans[j]))
               && (rule.roles ==> (ev.role.Some? ==> ev.role.value <= 4)
                                  && (ev.target.Some? ==> |ev.target.value| >= 2))
               && (ev.enc && rule.plainFlag != Allowed ==> ev.encScheme == Some(4))
  {
    hide ValidateEvent, CommonChecks, RuleOf, Met, Broken;
    ValidationIsTable(ev);
  }

  // ----- taking a field away -----

  /** The event without the field under wire key `k`; version, type and flag are always there. */
  function Cleared(ev: ParsedKommsEvent, k: nat): ParsedKommsEvent
  {
    match k
    case 2 => ev.(sid := None)
    case 3 => ev.(cid := None)
    case 4 => ev.(did := None)
    case 5 => ev.(pid := None)
    case 6 => ev.(mid := None)
    case 7 => ev.(refBytes := None)
    case 9 => ev.(ts := None)
    case 10 => ev.(n := None)
    case 11 => ev.(sig := None)
    case 12 => ev.(parentMid := None)
    case 13 => ev.(encScheme := None)
    case 14 => ev.(kind := None)
    case 15 => ev.(mime := None)
    case 16 => ev.(refType := None)
    case 17 => ev.(devicePk := None)
    case 18 => ev.(sigScheme := None)
    case 19 => ev.(reactionKey := None)
    case 20 => ev.(paymentHint := None)
    case 21 => ev.(memberTag := None)
    case 22 => ev.(memberSealed := None)
    case 23 => ev.(encSid := None)
    case 24 => ev.(encCid := None)
    case 25 => ev.(encBodyRef := None)
    case 26 => ev.(encParentMid := None)
    case 27 => ev.(matchTag := None)
    case 28 => ev.(encT := None)
    case 29 => ev.(keyEpoch := None)
    case 30 => ev.(sealedSigner := None)
    case 31 => ev.(role := None)
    case 32 => ev.(target := None)
    case _ => ev
  }

  lemma ClearedEnvelope(ev: ParsedKommsEvent, k: nat)
    ensures var c := Cleared(ev, k);
            c.v == ev.v && c.t == ev.t && c.enc == ev.enc && (k != 13 ==> c.encScheme == ev.encScheme)
  {
    ClearedVersion(ev, k);
    ClearedOther(ev, k);
    hide Cleared;
  }

  lemma ClearedVersion(ev: ParsedKommsEvent, k: nat)
    ensures Cleared(ev, k).v == ev.v && Cleared(ev, k).t == ev.t
  {
    hide ValidUtf8;
  }

  lemma ClearedOther(ev: ParsedKommsEvent, k: nat)
    ensures Cleared(ev, k).enc == ev.enc && (k != 13 ==> Cleared(ev, k).encScheme == ev.encScheme)
  {
    hide ValidUtf8;
  }

  lemma ClearedPresence(ev: ParsedKommsEvent, k: nat, j: nat)
    requires k in {2, 3, 4, 5, 6, 7} || 9 <= k <= 32
    ensures Present(Cleared(ev, k), j) <==> j != k && Present(ev, j)
  {
    hide Cleared, Present;
    if k <= 5 {
      ClearedIds(ev, k, j);
    } else if k <= 10 {
      ClearedBody(ev, k, j);
    } else if k <= 14 {
      ClearedThreading(ev, k, j);
    } else if k <= 18 {
      ClearedDevice(ev, k, j);
    } else if k <= 22 {
      ClearedMember(ev, k, j);
    } else if k <= 27 {
      ClearedCounterparts(ev, k, j);
    } else {
      ClearedLast(ev, k, j);
    }
  }

  lemma ClearedIds(ev: ParsedKommsEvent, k: nat, j: nat)
    requires 2 <= k <= 5
    ensures Present(Cleared(ev, k), j) <==> j != k && Present(ev, j)
  {
    hide ValidUtf8;
  }

  lemma ClearedBody(ev: ParsedKommsEvent, k: nat, j: nat)
    requires 6 <= k <= 10 && k != 8
    ensures Present(Cleared(ev, k), j) <==> j != k && Present(ev, j)
  {
    hide ValidUtf8;
  }

  lemma ClearedThreading(ev: ParsedKommsEvent, k: nat, j: nat)
    requires 11 <= k <= 14
    ensures Present(Cleared(ev, k), j) <==> j != k && Present(ev, j)
  {
    hide ValidUtf8;
  }

  lemma ClearedDevice(ev: ParsedKommsEvent, k: nat, j: nat)
    requires 15 <= k <= 18
    ensures Present(Cleared(ev, k), j) <==> j != k && Present(ev, j)
  {
    hide ValidUtf8;
  }

  lemma ClearedMember(ev: ParsedKommsEvent, k: nat, j: nat)
    requires 19 <= k <= 22
    ensures Present(Cleared(ev, k), j) <==> j != k && Present(ev, j)
  {
    hide ValidUtf8;
  }

  lemma ClearedCounterparts(ev: ParsedKommsEvent, k: nat, j: nat)
    requires 23 <= k <= 27
    ensures Present(Cleared(ev, k), j) <==> j != k && Present(ev, j)
  {
    hide ValidUtf8;
  }

  lemma ClearedLast(ev: ParsedKommsEvent, k: nat, j: nat)
    requires 28 <= k <= 32
    ensures Present(Cleared(ev, k), j) <==> j != k && Present(ev, j)
  {
    hide ValidUtf8;
  }

  predicate Optional(k: nat)
  {
    2 <= k <= 7 || 9 <= k <= 32
  }

  /** The field under `k` is the only encrypted counterpart of a group-encrypted event that needs one. */
  predicate OnlyCounterpart(ev: ParsedKommsEvent, k: nat)
  {
    && ev.encScheme == Some(4) && ev.t !in {SealedMemberJoin, SealedMemberLeave, KeyRotate}
    && (ev.encSid.Some? ==> k == 23) && (ev.encCid.Some? ==> k == 24) && (ev.encBodyRef.Some? ==> k == 25)
    && (ev.encParentMid.Some? ==> k == 26) && (ev.encT.Some? ==> k == 28)
  }

  /** What the common conditions say once the field under `k` is gone. */
  function CommonWithout(ev: ParsedKommsEvent, k: nat): Verdict
  {
    if ev.v >= 1 && k == 13 then Fail(V1MissingField("enc_scheme"))
    else if ev.v >= 1 && k == 9 then Fail(V1MissingField("ts"))
    else if ev.v >= 1 && k == 10 then Fail(V1MissingField("n"))
    else if ev.encScheme == Some(4) && k == 27 then Fail(V1_1MissingField("match_tag"))
    else if ev.encScheme == Some(4) && k == 29 then Fail(V1_1MissingField("key_epoch"))
    else if OnlyCounterpart(ev, k) && k != 13 then Fail(V1_1MissingField("enc_* counterpart"))
    else Pass
  }

  lemma ClearedContent(ev: ParsedKommsEvent, k: nat)
    requires CheckContent(ev).Pass?
    ensures CheckContent(Cleared(ev, k)).Pass?
  {
    hide ValidateRef, IsAscii, Cleared;
    ClearedRef(ev, k);
    ClearedTexts(ev, k);
  }

  lemma ClearedRef(ev: ParsedKommsEvent, k: nat)
    ensures Cleared(ev, k).refBytes in {ev.refBytes, None} && Cleared(ev, k).refType in {ev.refType, None}
  {
    hide ValidUtf8;
  }

  lemma ClearedTexts(ev: ParsedKommsEvent, k: nat)
    ensures Cleared(ev, k).mime in {ev.mime, None} && Cleared(ev, k).reactionKey in {ev.reactionKey, None}
  {
    hide ValidUtf8;
  }

  lemma ClearedScheme(ev: ParsedKommsEvent, k: nat)
    requires CheckScheme(ev).Pass?
    ensures CheckScheme(Cleared(ev, k)) == if ev.v >= 1 && k == 13 then Fail(V1MissingField("enc_scheme"))
                                           else if ev.v >= 1 && k == 9 then Fail(V1MissingField("ts"))
                                           else if ev.v >= 1 && k == 10 then Fail(V1MissingField("n"))
                                           else Pass
  {
    ClearedEnvelope(ev, k);
    if Optional(k) {
      ClearedPresence(ev, k, 9);
      ClearedPresence(ev, k, 10);
      ClearedPresence(ev, k, 13);
    }
    hide Cleared;
  }

  lemma ClearedGroup(ev: ParsedKommsEvent, k: nat)
    requires CheckGroup(ev).Pass? && Optional(k)
    ensures CheckGroup(Cleared(ev, k))
         == if k == 13 || ev.encScheme != Some(4) then Pass
            else if k == 27 then Fail(V1_1MissingField("match_tag"))
            else if k == 29 then Fail(V1_1MissingField("key_epoch"))
            else if OnlyCounterpart(ev, k) then Fail(V1_1MissingField("enc_* counterpart"))
            else Pass
  {
    hide Cleared;
    ClearedEnvelope(ev, k);
    ClearedPresence(ev, k, 13);
    ClearedPresence(ev, k, 23);
    ClearedPresence(ev, k, 24);
    ClearedPresence(ev, k, 25);
    ClearedPresence(ev, k, 26);
    ClearedPresence(ev, k, 27);
    ClearedPresence(ev, k, 28);
    ClearedPresence(ev, k, 29);
  }

  lemma ClearedSender(ev: ParsedKommsEvent, k: nat)
    requires ev.sigScheme != Some(1) && ev.sealedSigner.None?
    ensures Cleared(ev, k).sigScheme != Some(1) && Cleared(ev, k).sealedSigner.None?
  {
  }

  lemma ClearedCommon(ev: ParsedKommsEvent, k: nat)
    requires CheckCommon(ev).Pass? && Optional(k)
    ensures CheckCommon(Cleared(ev, k)) == CommonWithout(ev, k)
  {
    hide Cleared, CheckContent, CheckScheme, CheckGroup;
    ClearedEnvelope(ev, k);
    ClearedContent(ev, k);
    ClearedScheme(ev, k);
    ClearedGroup(ev, k);
    ClearedSender(ev, k);
  }

  /** The first demand of the type that rested on the field under `k`. */
  function DemandOn(ev: ParsedKommsEvent, k: nat): Option<Demand>
  {
    match RuleOf(ev.t)
    case None => None
    case Some(rule) => FirstUnmet(Cleared(ev, k), rule.demands)
  }

  lemma ClearedRoles(ev: ParsedKommsEvent, k: nat)
    requires RoleVerdict(ev).Pass?
    ensures RoleVerdict(Cleared(ev, k)).Pass?
  {
  }

  lemma ClearedBans(ev: ParsedKommsEvent, k: nat, bs: seq<Ban>)
    requires Optional(k) && |bs| <= 4 && FirstBroken(ev, bs).None?
    ensures FirstBroken(Cleared(ev, k), bs).None?
  {
    hide Cleared, Present;
    forall j: nat ensures Present(Cleared(ev, k), j) <==> j != k && Present(ev, j) { ClearedPresence(ev, k, j); }
  }

  /** Main theorem: a valid event without the field under `k` fails with the error of the common
      condition or of the first demand that rested on it, and stays valid if none did. */
  lemma ClearingField(ev: ParsedKommsEvent, k: nat)
    requires ValidateEvent(ev).Pass? && Optional(k) && k != 13
    ensures ValidateEvent(Cleared(ev, k))
         == if CommonWithout(ev, k).Fail? then CommonWithout(ev, k)
            else if DemandOn(ev, k).Some? then Fail(MissingForType(ev.t, DemandOn(ev, k).value.name))
            else Pass
  {
    hide CheckCommon, CheckType, Cleared, CommonWithout, FirstUnmet, FirstBroken, RoleVerdict, RuleOf;
    var c := Cleared(ev, k);
    ClearedEnvelope(ev, k);
    ClearedCommon(ev, k);
    TypeIsTable(ev);
    TypeIsTable(c);
    var rule := RuleOf(ev.t).value;
    ClearedBans(ev, k, rule.bans);
    if RoleVerdict(ev).Pass? {
      ClearedRoles(ev, k);
    }
  }

  /** The same for the scheme: version 1 cannot do without it, and version 0 can unless its validity
      rested on the group scheme. */
  lemma ClearingScheme(ev: ParsedKommsEvent)
    requires ValidateEvent(ev).Pass?
    ensures ev.v >= 1 ==> ValidateEvent(Cleared(ev, 13)) == Fail(V1MissingField("enc_scheme"))
    ensures ev.v == 0 ==>
              (ValidateEvent(Cleared(ev, 13)).Pass? <==> (GroupEncrypted(ev) ==> ValidUngrouped(ev)))
  {
    hide CheckCommon, CheckType, ValidUngrouped;
    ClearedCommon(ev, 13);
    if GroupEncrypted(ev) {
      TypeUngrouped(ev, None);
    } else {
      TypeSameGrouping(ev, None);
    }
  }

  /** A demand for a plain field rests on that field alone; one with a counterpart or an alternative
      rests on the one that is there. */
  lemma MetWithout(ev: ParsedKommsEvent, k: nat, need: Need)
    requires Optional(k) && k != 13
    ensures Met(Cleared(ev, k), need)
       <==> match need
            case Field(j) => j != k && Present(ev, j)
            case Encryptable(j, c) =>
              (j != k && Present(ev, j)) || (ev.encScheme == Some(4) && c != k && Present(ev, c))
            case Either(j, l) => (j != k && Present(ev, j)) || (l != k && Present(ev, l))
            case Flag => ev.enc
            case Group => ev.encScheme == Some(4)
  {
    hide Cleared, Present;
    ClearedEnvelope(ev, k);
    forall j: nat ensures Present(Cleared(ev, k), j) <==> j != k && Present(ev, j) { ClearedPresence(ev, k, j); }
  }

  // ----- putting a banned field in -----

  /** The event with the id under key 2 to 5, or the encrypted id under 23 or 24, set. */
  function WithId(ev: ParsedKommsEvent, k: nat, id: Bytes32): ParsedKommsEvent
  {
    match k
    case 2 => ev.(sid := Some(id))
    case 3 => ev.(cid := Some(id))
    case 4 => ev.(did := Some(id))
    case 5 => ev.(pid := Some(id))
    case 23 => ev.(encSid := Some(id))
    case 24 => ev.(encCid := Some(id))
    case _ => ev
  }

  lemma SetPresence(ev: ParsedKommsEvent, k: nat, id: Bytes32, j: nat)
    requires k in {2, 3, 4, 5, 23, 24}
    ensures Present(WithId(ev, k, id), j) <==> j == k || Present(ev, j)
  {
  }

  lemma SetCommon(ev: ParsedKommsEvent, k: nat, id: Bytes32)
    requires k in {2, 3, 4, 5, 23, 24} && CheckCommon(ev).Pass?
    ensures CheckCommon(WithId(ev, k, id)).Pass?
  {
    hide ValidateRef, IsAscii, AsU8;
  }

  lemma SetEnvelope(ev: ParsedKommsEvent, k: nat, id: Bytes32)
    ensures var s := WithId(ev, k, id);
            && s.t == ev.t && s.enc == ev.enc && s.encScheme == ev.encScheme
            && s.role == ev.role && s.target == ev.target
  {
  }

  lemma SetDemands(ev: ParsedKommsEvent, k: nat, id: Bytes32, ds: seq<Demand>)
    requires k in {2, 3, 4, 5, 23, 24} && |ds| <= 5 && FirstUnmet(ev, ds).None?
    ensures FirstUnmet(WithId(ev, k, id), ds).None?
  {
    hide WithId, Present;
    SetEnvelope(ev, k, id);
    forall j: nat ensures Present(WithId(ev, k, id), j) <==> j == k || Present(ev, j) { SetPresence(ev, k, id, j); }
  }

  /** The ban of a type that key `k` falls under. */
  function BanOn(bs: seq<Ban>, k: nat): Option<Ban>
    requires |bs| <= 4
  {
    if |bs| > 0 && k in {bs[0].k, bs[0].also} then Some(bs[0])
    else if |bs| > 1 && k in {bs[1].k, bs[1].also} then Some(bs[1])
    else if |bs| > 2 && k in {bs[2].k, bs[2].also} then Some(bs[2])
    else if |bs| > 3 && k in {bs[3].k, bs[3].also} then Some(bs[3])
    else None
  }

  lemma SetBans(ev: ParsedKommsEvent, k: nat, id: Bytes32, bs: seq<Ban>)
    requires k in {2, 3, 4, 5, 23, 24} && |bs| <= 4 && FirstBroken(ev, bs).None?
    ensures FirstBroken(WithId(ev, k, id), bs) == BanOn(bs, k)
  {
    hide WithId, Present;
    forall j: nat ensures Present(WithId(ev, k, id), j) <==> j == k || Present(ev, j) { SetPresence(ev, k, id, j); }
  }

  /** Setting an id of a valid event gives the error of the ban on it, and does no harm without one. */
  lemma SettingField(ev: ParsedKommsEvent, k: nat, id: Bytes32)
    requires ValidateEvent(ev).Pass? && k in {2, 3, 4, 5, 23, 24}
    ensures var ban := BanOn(RuleOf(ev.t).value.bans, k);
            ValidateEvent(WithId(ev, k, id))
            == if ban.Some? then Fail(ForbiddenField(ev.t, ban.value.name)) else Pass
  {
    hide CheckCommon, CheckType, WithId, FirstUnmet, FirstBroken, RuleOf, BanOn;
    var s := WithId(ev, k, id);
    SetEnvelope(ev, k, id);
    SetCommon(ev, k, id);
    TypeIsTable(ev);
    TypeIsTable(s);
    var rule := RuleOf(ev.t).value;
    SetDemands(ev, k, id, rule.demands);
    SetBans(ev, k, id, rule.bans);
  }
}
