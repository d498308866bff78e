/** The bytes of a payload, written out: which byte stands for which type, key and field. */
module Layout {
  import opened Base
  import opened Cbor
  import opened Canonical
  import opened CanonicalLanguage
  import opened Values
  import opened Event
  import opened Fields
  import opened Pairs
  import opened Encode
  import opened Payload
  import opened Emitted
  import opened RoundTrip
  import P = Parse

  // ----- items -----

  /** The initial bytes of section 3 of RFC 8949. */
  lemma InitialBytes(i: Item)
    ensures i.UInt? ==> 0x00 <= Enc(i)[0] <= 0x1B
    ensures i.NInt? ==> 0x20 <= Enc(i)[0] <= 0x3B
    ensures i.Bytes? ==> 0x40 <= Enc(i)[0] <= 0x5B
    ensures i.Text? ==> 0x60 <= Enc(i)[0] <= 0x7B
    ensures i.Arr? ==> 0x80 <= Enc(i)[0] <= 0x9B
    ensures i.Map? ==> 0xA0 <= Enc(i)[0] <= 0xBB
    ensures i.Tag? ==> 0xC0 <= Enc(i)[0] <= 0xDB
    ensures i.Bool? ==> Enc(i) == [if i.v then 0xF5 else 0xF4]
    ensures i.Null? ==> Enc(i) == [0xF6]
    ensures i.Undefined? ==> Enc(i) == [0xF7]
    ensures i.Float? ==> Enc(i) == [if |i.bits| == 2 then 0xF9 else if |i.bits| == 4 then 0xFA else 0xFB] + i.bits
    ensures i.Simple? ==> Enc(i) == if i.code < 20 then [0xE0 + i.code] else [0xF8, i.code]
  {
  }

  /** Heads in numbers: the five widths, big-endian (section 3 of RFC 8949). */
  lemma HeadInNumbers(major: nat, v: u64)
    requires major < 8
    ensures Head(major, v)
         == if v < 24 then [32 * major + v]
            else if v < 0x100 then [32 * major + 24, v]
            else if v < 0x1_0000 then [32 * major + 25, v / 0x100, v % 0x100]
            else if v < 0x1_0000_0000 then
              [32 * major + 26, v / 0x100_0000, v / 0x1_0000 % 0x100, v / 0x100 % 0x100, v % 0x100]
            else
              [32 * major + 27, v / 0x100_0000_0000_0000, v / 0x1_0000_0000_0000 % 0x100,
               v / 0x100_0000_0000 % 0x100, v / 0x1_0000_0000 % 0x100, v / 0x100_0000 % 0x100,
               v / 0x1_0000 % 0x100, v / 0x100 % 0x100, v % 0x100]
  {
    if v >= 0x1_0000_0000 {
      EightBytes(v);
    } else if v >= 0x1_0000 {
      FourBytes(v);
    } else if v >= 0x100 {
      TwoBytes(v);
    } else {
      assert ToBE(v, 1) == [v];
    }
  }

  lemma TwoBytes(v: nat)
    requires v < 0x1_0000
    ensures ToBE(v, 2) == [v / 0x100, v % 0x100]
  {
    assert ToBE(v / 0x100, 1) == [v / 0x100];
  }

  lemma FourBytes(v: nat)
    requires v < 0x1_0000_0000
    ensures ToBE(v, 4) == [v / 0x100_0000, v / 0x1_0000 % 0x100, v / 0x100 % 0x100, v % 0x100]
  {
    TwoBytes(v / 0x1_0000);
    assert v / 0x100 / 0x100 == v / 0x1_0000 && v / 0x1_0000 / 0x100 == v / 0x100_0000;
    assert ToBE(v, 4) == ToBE(v / 0x1_0000, 2) + [v / 0x100 % 0x100] + [v % 0x100];
  }

  lemma EightBytes(v: u64)
    ensures ToBE(v, 8)
         == [v / 0x100_0000_0000_0000, v / 0x1_0000_0000_0000 % 0x100, v / 0x100_0000_0000 % 0x100,
             v / 0x1_0000_0000 % 0x100, v / 0x100_0000 % 0x100, v / 0x1_0000 % 0x100, v / 0x100 % 0x100, v % 0x100]
  {
    var w := v / 0x1_0000_0000;
    FourBytes(w);
    assert w / 0x100 == v / 0x100_0000_0000 && w / 0x1_0000 == v / 0x1_0000_0000_0000;
    assert w / 0x100_0000 == v / 0x100_0000_0000_0000;
    assert v / 0x100 / 0x100 == v / 0x1_0000 && v / 0x1_0000 / 0x100 == v / 0x100_0000;
    assert v / 0x100_0000 / 0x100 == w;
    assert ToBE(v, 8) == ToBE(v / 0x100, 7) + [v % 0x100];
    assert ToBE(v / 0x100, 7) == ToBE(v / 0x1_0000, 6) + [v / 0x100 % 0x100];
    assert ToBE(v / 0x1_0000, 6) == ToBE(v / 0x100_0000, 5) + [v / 0x1_0000 % 0x100];
    assert ToBE(v / 0x100_0000, 5) == ToBE(w, 4) + [v / 0x100_0000 % 0x100];
  }

  // ----- type codes -----

  const TYPES: seq<EventType> := [
    ServerCreate, ServerUpdate, ChannelCreate, ChannelUpdate, MessagePost, MessageEdit, MessageDelete,
    DmMessagePost, ReactionAdd, ReactionRemove, MemberJoin, MemberLeave, RoleAssign, RoleRevoke,
    ModerationAction, DeviceRegister, DeviceRevoke, PinMessage, UnpinMessage, BookmarkAdd, BookmarkRemove]

  const SEALED_TYPES: seq<EventType> := [SealedMemberJoin, SealedMemberLeave, KeyRotate, SealedEvent]

  /** The types are numbered 0 to 20 and 23 to 26 in this order; all other codes are reserved. */
  lemma TypeNumbers(code: byte)
    ensures code < 21 ==> FromU8(code) == TYPES[code] && AsU8(TYPES[code]) == code
    ensures 23 <= code <= 26 ==>
              FromU8(code) == SEALED_TYPES[code - 23] && AsU8(SEALED_TYPES[code - 23]) == code
    ensures code in {21, 22} || code > 26 ==> FromU8(code) == Reserved(code)
    ensures AsU8(Reserved(code)) == code
  {
  }

  // ----- fields -----

  function NumBytes(key: seq<byte>, o: Option<u64>): seq<byte>
  {
    if o.Some? then key + Head(0, o.value) else []
  }

  function Bytes32Bytes(key: seq<byte>, o: Option<Bytes32>): seq<byte>
  {
    if o.Some? then key + ([0x58, 0x20] + o.value) else []
  }

  function Bytes16Bytes(key: seq<byte>, o: Option<Bytes16>): seq<byte>
  {
    if o.Some? then key + ([0x50] + o.value) else []
  }

  function Bytes64Bytes(key: seq<byte>, o: Option<Bytes64>): seq<byte>
  {
    if o.Some? then key + ([0x58, 0x40] + o.value) else []
  }

  function BlobBytes(key: seq<byte>, o: Option<Vec>): seq<byte>
  {
    if o.Some? then key + (Head(2, |o.value|) + o.value) else []
  }

  function TextBytes(key: seq<byte>, o: Option<Utf8String>): seq<byte>
  {
    if o.Some? then key + (Head(3, |o.value|) + o.value) else []
  }

  function RoleNumber(ev: ParsedKommsEvent): Option<u64>
  {
    if ev.role.Some? then Some(ev.role.value) else None
  }

  function One<T>(o: Option<T>): nat
  {
    if o.Some? then 1 else 0
  }

  /** Keys 0 to 5. */
  function IdBytes(ev: ParsedKommsEvent): seq<byte>
  {
    NumBytes([0x00], Some(ev.v))
    + NumBytes([0x01], Some(AsU8(ev.t)))
    + Bytes32Bytes([0x02], ev.sid)
    + Bytes32Bytes([0x03], ev.cid)
    + Bytes32Bytes([0x04], ev.did)
    + Bytes32Bytes([0x05], ev.pid)
  }

  function IdCount(ev: ParsedKommsEvent): nat
  {
    1 + 1 + One(ev.sid) + One(ev.cid) + One(ev.did) + One(ev.pid)
  }

  /** Keys 6 to 11. */
  function ContentBytes(ev: ParsedKommsEvent): seq<byte>
  {
    Bytes32Bytes([0x06], ev.mid)
    + BlobBytes([0x07], ev.refBytes)
    + [0x08, if ev.enc then 0xF5 else 0xF4]
    + NumBytes([0x09], ev.ts)
    + NumBytes([0x0A], ev.n)
    + Bytes64Bytes([0x0B], ev.sig)
  }

  function ContentCount(ev: ParsedKommsEvent): nat
  {
    One(ev.mid) + One(ev.refBytes) + 1 + One(ev.ts) + One(ev.n) + One(ev.sig)
  }

  /** Keys 12 to 16. */
  function ThreadingBytes(ev: ParsedKommsEvent): seq<byte>
  {
    Bytes32Bytes([0x0C], ev.parentMid)
    + NumBytes([0x0D], if ev.v == 0 then None else ev.encScheme)
    + NumBytes([0x0E], ev.kind)
    + TextBytes([0x0F], ev.mime)
    + NumBytes([0x10], ev.refType)
  }

  function ThreadingCount(ev: ParsedKommsEvent): nat
  {
    One(ev.parentMid) + (if ev.v == 0 then 0 else One(ev.encScheme)) + One(ev.kind) + One(ev.mime) + One(ev.refType)
  }

  /** Keys 17 to 20. */
  function DeviceBytes(ev: ParsedKommsEvent): seq<byte>
  {
    Bytes32Bytes([0x11], ev.devicePk)
    + NumBytes([0x12], ev.sigScheme)
    + BlobBytes([0x13], ev.reactionKey)
    + BlobBytes([0x14], ev.paymentHint)
  }

  function DeviceCount(ev: ParsedKommsEvent): nat
  {
    One(ev.devicePk) + One(ev.sigScheme) + One(ev.reactionKey) + One(ev.paymentHint)
  }

  /** Keys 21 to 25. */
  function SealedBytes(ev: ParsedKommsEvent): seq<byte>
  {
    Bytes16Bytes([0x15], ev.memberTag)
    + BlobBytes([0x16], ev.memberSealed)
    + BlobBytes([0x17], ev.encSid)
    + BlobBytes([0x18, 0x18], ev.encCid)
    + BlobBytes([0x18, 0x19], ev.encBodyRef)
  }

  function SealedCount(ev: ParsedKommsEvent): nat
  {
    One(ev.memberTag) + One(ev.memberSealed) + One(ev.encSid) + One(ev.encCid) + One(ev.encBodyRef)
  }

  /** Keys 26 to 30. */
  function GroupBytes(ev: ParsedKommsEvent): seq<byte>
  {
    BlobBytes([0x18, 0x1A], ev.encParentMid)
    + Bytes16Bytes([0x18, 0x1B], ev.matchTag)
    + BlobBytes([0x18, 0x1C], ev.encT)
    + NumBytes([0x18, 0x1D], ev.keyEpoch)
    + BlobBytes([0x18, 0x1E], ev.sealedSigner)
  }

  function GroupCount(ev: ParsedKommsEvent): nat
  {
    One(ev.encParentMid) + One(ev.matchTag) + One(ev.encT) + One(ev.keyEpoch) + One(ev.sealedSigner)
  }

  /** Keys 31 to 32. */
  function RoleBytes(ev: ParsedKommsEvent): seq<byte>
  {
    NumBytes([0x18, 0x1F], RoleNumber(ev))
    + BlobBytes([0x18, 0x20], ev.target)
  }

  function RoleCount(ev: ParsedKommsEvent): nat
  {
    One(ev.role) + One(ev.target)
  }

  /** The bytes of the pairs from core key `lo` up to `hi`. */
  function Run(ev: ParsedKommsEvent, lo: nat, hi: nat): seq<byte>
    requires lo <= hi <= EXTENSION_KEY_MIN
    decreases hi
  {
    if lo == hi then [] else Run(ev, lo, hi - 1) + EncEntries(Pair(hi - 1, CoreField(ev, hi - 1)))
  }

  lemma {:induction false} RunExtends(ev: ParsedKommsEvent, lo: nat, hi: nat)
    requires lo <= hi <= EXTENSION_KEY_MIN
    ensures EncEntries(CorePairs(ev, hi)) == EncEntries(CorePairs(ev, lo)) + Run(ev, lo, hi)
  {
    hide CoreField, EncEntries;
    if lo < hi {
      RunExtends(ev, lo, hi - 1);
      var p := Pair(hi - 1, CoreField(ev, hi - 1));
      CorePairsStep(ev, hi - 1);
      EncEntriesConcat(CorePairs(ev, hi - 1), p);
      ConcatAssociative(EncEntries(CorePairs(ev, lo)), Run(ev, lo, hi - 1), EncEntries(p));
    }
  }

  lemma RunStep(ev: ParsedKommsEvent, lo: nat, hi: nat)
    requires lo <= hi < EXTENSION_KEY_MIN
    ensures Run(ev, lo, hi + 1) == Run(ev, lo, hi) + EncEntries(Pair(hi, CoreField(ev, hi)))
    ensures |CorePairs(ev, hi + 1)| == |CorePairs(ev, hi)| + One(CoreField(ev, hi))
  {
    hide CoreField, EncEntries;
  }

  lemma RunFirst(ev: ParsedKommsEvent, lo: nat)
    requires lo < EXTENSION_KEY_MIN
    ensures Run(ev, lo, lo + 1) == EncEntries(Pair(lo, CoreField(ev, lo)))
  {
    hide CoreField, EncEntries;
    assert Run(ev, lo, lo) == [];
  }

  lemma PairBytes(k: byte, o: Option<Item>)
    ensures EncEntries(Pair(k, o)) == if o.Some? then Enc(UInt(k)) + Enc(o.value) else []
  {
    hide Enc;
    if o.Some? {
      assert [Entry(UInt(k), o.value)][1..] == [];
    }
  }

  function KeyOf(k: byte): seq<byte>
  {
    if k < 24 then [k] else [0x18, k]
  }

  lemma KeyBytes(k: byte)
    requires k < EXTENSION_KEY_MIN
    ensures Enc(UInt(k)) == KeyOf(k)
  {
    if k >= 24 {
      assert ToBE(k, 1) == [k];
    }
  }

  lemma ShortHeads()
    ensures Head(2, 32) == [0x58, 0x20] && Head(2, 64) == [0x58, 0x40] && Head(2, 16) == [0x50]
  {
    assert ToBE(32, 1) == [32] && ToBE(64, 1) == [64];
  }

  /** What one core field writes. */
  lemma FieldBytes(ev: ParsedKommsEvent, k: byte)
    requires k < EXTENSION_KEY_MIN
    ensures EncEntries(Pair(k, CoreField(ev, k)))
         == if CoreField(ev, k).Some? then KeyOf(k) + Enc(CoreField(ev, k).value) else []
  {
    hide CoreField, Enc, EncEntries, Pair;
    PairBytes(k, CoreField(ev, k));
    KeyBytes(k);
  }

  lemma NumField(ev: ParsedKommsEvent, k: byte, key: seq<byte>, o: Option<u64>)
    requires k < EXTENSION_KEY_MIN && key == KeyOf(k) && CoreField(ev, k) == OfUint(o)
    ensures EncEntries(Pair(k, CoreField(ev, k))) == NumBytes(key, o) && One(CoreField(ev, k)) == One(o)
  {
    hide CoreField, EncEntries, Pair, Head, IsValue;
    ShortHeads();
    FieldBytes(ev, k);
  }

  lemma Bytes32Field(ev: ParsedKommsEvent, k: byte, key: seq<byte>, o: Option<Bytes32>)
    requires k < EXTENSION_KEY_MIN && key == KeyOf(k) && CoreField(ev, k) == OfBytes(o)
    ensures EncEntries(Pair(k, CoreField(ev, k))) == Bytes32Bytes(key, o) && One(CoreField(ev, k)) == One(o)
  {
    hide CoreField, EncEntries, Pair, Head, IsValue;
    ShortHeads();
    FieldBytes(ev, k);
  }

  lemma Bytes16Field(ev: ParsedKommsEvent, k: byte, key: seq<byte>, o: Option<Bytes16>)
    requires k < EXTENSION_KEY_MIN && key == KeyOf(k) && CoreField(ev, k) == OfBytes(o)
    ensures EncEntries(Pair(k, CoreField(ev, k))) == Bytes16Bytes(key, o) && One(CoreField(ev, k)) == One(o)
  {
    hide CoreField, EncEntries, Pair, Head, IsValue;
    ShortHeads();
    FieldBytes(ev, k);
  }

  lemma Bytes64Field(ev: ParsedKommsEvent, k: byte, key: seq<byte>, o: Option<Bytes64>)
    requires k < EXTENSION_KEY_MIN && key == KeyOf(k) && CoreField(ev, k) == OfBytes(o)
    ensures EncEntries(Pair(k, CoreField(ev, k))) == Bytes64Bytes(key, o) && One(CoreField(ev, k)) == One(o)
  {
    hide CoreField, EncEntries, Pair, Head, IsValue;
    ShortHeads();
    FieldBytes(ev, k);
  }

  lemma BlobField(ev: ParsedKommsEvent, k: byte, key: seq<byte>, o: Option<Vec>)
    requires k < EXTENSION_KEY_MIN && key == KeyOf(k) && CoreField(ev, k) == OfBytes(o)
    ensures EncEntries(Pair(k, CoreField(ev, k))) == BlobBytes(key, o) && One(CoreField(ev, k)) == One(o)
  {
    hide CoreField, EncEntries, Pair, Head, IsValue;
    ShortHeads();
    FieldBytes(ev, k);
  }

  lemma TextField(ev: ParsedKommsEvent, k: byte, key: seq<byte>, o: Option<Utf8String>)
    requires k < EXTENSION_KEY_MIN && key == KeyOf(k) && CoreField(ev, k) == OfText(o)
    ensures EncEntries(Pair(k, CoreField(ev, k))) == TextBytes(key, o) && One(CoreField(ev, k)) == One(o)
  {
    hide CoreField, EncEntries, Pair, Head, IsValue;
    ShortHeads();
    FieldBytes(ev, k);
  }

  lemma FlagField(ev: ParsedKommsEvent)
    ensures EncEntries(Pair(8, CoreField(ev, 8))) == [0x08, if ev.enc then 0xF5 else 0xF4]
    ensures One(CoreField(ev, 8)) == 1
  {
    hide EncEntries, Pair;
    FieldBytes(ev, 8);
  }

  lemma IdLayout(ev: ParsedKommsEvent)
    ensures Run(ev, 0, 6) == IdBytes(ev)
    ensures |CorePairs(ev, 6)| == |CorePairs(ev, 0)| + IdCount(ev)
  {
    hide Run, CorePairs, EncEntries, Pair, Head, IsValue, AsU8, NumBytes, Bytes32Bytes, Bytes16Bytes, Bytes64Bytes;
    hide BlobBytes, TextBytes;
    RunFirst(ev, 0);
    NumField(ev, 0, [0x00], Some(ev.v));
    RunStep(ev, 0, 0);
    NumField(ev, 1, [0x01], Some(AsU8(ev.t)));
    RunStep(ev, 0, 1);
    Bytes32Field(ev, 2, [0x02], ev.sid);
    RunStep(ev, 0, 2);
    Bytes32Field(ev, 3, [0x03], ev.cid);
    RunStep(ev, 0, 3);
    Bytes32Field(ev, 4, [0x04], ev.did);
    RunStep(ev, 0, 4);
    Bytes32Field(ev, 5, [0x05], ev.pid);
    RunStep(ev, 0, 5);
  }

  lemma ContentLayout(ev: ParsedKommsEvent)
    ensures Run(ev, 6, 12) == ContentBytes(ev)
    ensures |CorePairs(ev, 12)| == |CorePairs(ev, 6)| + ContentCount(ev)
  {
    hide Run, CorePairs, EncEntries, Pair, Head, IsValue, AsU8, NumBytes, Bytes32Bytes, Bytes16Bytes, Bytes64Bytes;
    hide BlobBytes, TextBytes;
    RunFirst(ev, 6);
    Bytes32Field(ev, 6, [0x06], ev.mid);
    RunStep(ev, 6, 6);
    BlobField(ev, 7, [0x07], ev.refBytes);
    RunStep(ev, 6, 7);
    FlagField(ev);
    RunStep(ev, 6, 8);
    NumField(ev, 9, [0x09], ev.ts);
    RunStep(ev, 6, 9);
    NumField(ev, 10, [0x0A], ev.n);
    RunStep(ev, 6, 10);
    Bytes64Field(ev, 11, [0x0B], ev.sig);
    RunStep(ev, 6, 11);
  }

  lemma ThreadingLayout(ev: ParsedKommsEvent)
    ensures Run(ev, 12, 17) == ThreadingBytes(ev)
    ensures |CorePairs(ev, 17)| == |CorePairs(ev, 12)| + ThreadingCount(ev)
  {
    hide Run, CorePairs, EncEntries, Pair, Head, IsValue, AsU8, NumBytes, Bytes32Bytes, Bytes16Bytes, Bytes64Bytes;
    hide BlobBytes, TextBytes;
    RunFirst(ev, 12);
    Bytes32Field(ev, 12, [0x0C], ev.parentMid);
    RunStep(ev, 12, 12);
    NumField(ev, 13, [0x0D], if ev.v == 0 then None else ev.encScheme);
    RunStep(ev, 12, 13);
    NumField(ev, 14, [0x0E], ev.kind);
    RunStep(ev, 12, 14);
    TextField(ev, 15, [0x0F], ev.mime);
    RunStep(ev, 12, 15);
    NumField(ev, 16, [0x10], ev.refType);
    RunStep(ev, 12, 16);
  }

  lemma DeviceLayout(ev: ParsedKommsEvent)
    ensures Run(ev, 17, 21) == DeviceBytes(ev)
    ensures |CorePairs(ev, 21)| == |CorePairs(ev, 17)| + DeviceCount(ev)
  {
    hide Run, CorePairs, EncEntries, Pair, Head, IsValue, AsU8, NumBytes, Bytes32Bytes, Bytes16Bytes, Bytes64Bytes;
    hide BlobBytes, TextBytes;
    RunFirst(ev, 17);
    Bytes32Field(ev, 17, [0x11], ev.devicePk);
    RunStep(ev, 17, 17);
    NumField(ev, 18, [0x12], ev.sigScheme);
    RunStep(ev, 17, 18);
    BlobField(ev, 19, [0x13], ev.reactionKey);
    RunStep(ev, 17, 19);
    BlobField(ev, 20, [0x14], ev.paymentHint);
    RunStep(ev, 17, 20);
  }

  lemma SealedLayout(ev: ParsedKommsEvent)
    ensures Run(ev, 21, 26) == SealedBytes(ev)
    ensures |CorePairs(ev, 26)| == |CorePairs(ev, 21)| + SealedCount(ev)
  {
    hide Run, CorePairs, EncEntries, Pair, Head, IsValue, AsU8, NumBytes, Bytes32Bytes, Bytes16Bytes, Bytes64Bytes;
    hide BlobBytes, TextBytes;
    RunFirst(ev, 21);
    Bytes16Field(ev, 21, [0x15], ev.memberTag);
    RunStep(ev, 21, 21);
    BlobField(ev, 22, [0x16], ev.memberSealed);
    RunStep(ev, 21, 22);
    BlobField(ev, 23, [0x17], ev.encSid);
    RunStep(ev, 21, 23);
    BlobField(ev, 24, [0x18, 0x18], ev.encCid);
    RunStep(ev, 21, 24);
    BlobField(ev, 25, [0x18, 0x19], ev.encBodyRef);
    RunStep(ev, 21, 25);
  }

  lemma GroupLayout(ev: ParsedKommsEvent)
    ensures Run(ev, 26, 31) == GroupBytes(ev)
    ensures |CorePairs(ev, 31)| == |CorePairs(ev, 26)| + GroupCount(ev)
  {
    hide Run, CorePairs, EncEntries, Pair, Head, IsValue, AsU8, NumBytes, Bytes32Bytes, Bytes16Bytes, Bytes64Bytes;
    hide BlobBytes, TextBytes;
    RunFirst(ev, 26);
    BlobField(ev, 26, [0x18, 0x1A], ev.encParentMid);
    RunStep(ev, 26, 26);
    Bytes16Field(ev, 27, [0x18, 0x1B], ev.matchTag);
    RunStep(ev, 26, 27);
    BlobField(ev, 28, [0x18, 0x1C], ev.encT);
    RunStep(ev, 26, 28);
    NumField(ev, 29, [0x18, 0x1D], ev.keyEpoch);
    RunStep(ev, 26, 29);
    BlobField(ev, 30, [0x18, 0x1E], ev.sealedSigner);
    RunStep(ev, 26, 30);
  }

  lemma RoleLayout(ev: ParsedKommsEvent)
    ensures Run(ev, 31, 33) == RoleBytes(ev)
    ensures |CorePairs(ev, 33)| == |CorePairs(ev, 31)| + RoleCount(ev)
  {
    hide Run, CorePairs, EncEntries, Pair, Head, IsValue, AsU8, NumBytes, Bytes32Bytes, Bytes16Bytes, Bytes64Bytes;
    hide BlobBytes, TextBytes;
    RunFirst(ev, 31);
    NumField(ev, 31, [0x18, 0x1F], RoleNumber(ev));
    RunStep(ev, 31, 31);
    BlobField(ev, 32, [0x18, 0x20], ev.target);
    RunStep(ev, 31, 32);
  }

  /** The bytes of all core fields, and how many there are. */
  function CoreBytes(ev: ParsedKommsEvent): seq<byte>
  {
    IdBytes(ev) + ContentBytes(ev) + ThreadingBytes(ev) + DeviceBytes(ev) + SealedBytes(ev) + GroupBytes(ev)
    + RoleBytes(ev)
  }

  function CoreCount(ev: ParsedKommsEvent): nat
  {
    IdCount(ev) + ContentCount(ev) + ThreadingCount(ev) + DeviceCount(ev) + SealedCount(ev) + GroupCount(ev)
    + RoleCount(ev)
  }

  lemma CoreLayout(ev: ParsedKommsEvent)
    ensures EncEntries(CorePairs(ev, 33)) == CoreBytes(ev) && |CorePairs(ev, 33)| == CoreCount(ev)
  {
    hide Run, EncEntries, IdBytes, ContentBytes, ThreadingBytes, DeviceBytes, SealedBytes, GroupBytes, RoleBytes;
    hide IdCount, ContentCount, ThreadingCount, DeviceCount, SealedCount, GroupCount, RoleCount, CoreField;
    IdLayout(ev);
    ContentLayout(ev);
    ThreadingLayout(ev);
    DeviceLayout(ev);
    SealedLayout(ev);
    GroupLayout(ev);
    RoleLayout(ev);
    NoPairs(ev);
    hide CorePairs;
    RunExtends(ev, 0, 6);
    RunExtends(ev, 6, 12);
    RunExtends(ev, 12, 17);
    RunExtends(ev, 17, 21);
    RunExtends(ev, 21, 26);
    RunExtends(ev, 26, 31);
    RunExtends(ev, 31, 33);
    assert [] + IdBytes(ev) == IdBytes(ev);
  }

  lemma NoPairs(ev: ParsedKommsEvent)
    ensures CorePairs(ev, 0) == [] && EncEntries(CorePairs(ev, 0)) == []
  {
  }

  /** Main theorem: the payload of any event that encodes, byte by byte: `KOMM`, the map head with the
      number of fields, the core fields there are under their keys, and the extensions. */
  lemma PayloadBytes(ev: ParsedKommsEvent)
    requires ValidateEvent(ev).Pass?
    ensures EncodedPayload(ev)
         == Ok(Ascii("KOMM")
               + (Head(5, CoreCount(ev) + |Listing(ev.extensionFields, 0)|)
                  + (CoreBytes(ev) + EncEntries(Listing(ev.extensionFields, 0)))))
  {
    hide ValidateEvent, CoreBytes, CoreCount, EncEntries, Listing, CorePairs;
    CoreLayout(ev);
    EncEntriesConcat(CorePairs(ev, 33), Listing(ev.extensionFields, 0));
    assert KOMMS_PAYLOAD_PREFIX == Ascii("KOMM");
  }

  /** Payloads are told by their first four bytes. */
  lemma PrefixIff(raw: seq<byte>)
    ensures ParseKommsPayload(raw) == Err(MissingPrefix) <==> !(|raw| >= 4 && raw[..4] == Ascii("KOMM"))
  {
    hide ParseStructure, ValidateEvent;
    assert KOMMS_PAYLOAD_PREFIX == Ascii("KOMM");
    if KOMMS_PAYLOAD_PREFIX <= raw {
      assert raw[..4] == KOMMS_PAYLOAD_PREFIX;
    }
  }

  // ----- a version 1 payload, byte by byte -----

  /** A version 1 server creation with the given id, time and counter. */
  function ServerV1(sid: Bytes32, ts: u64, n: u64): ParsedKommsEvent
  {
    P.DEFAULT_EVENT.(v := 1, sid := Some(sid), ts := Some(ts), n := Some(n), encScheme := Some(0))
  }

  function ServerV1Bytes(sid: Bytes32, ts: u64, n: u64): seq<byte>
  {
    [0x4B, 0x4F, 0x4D, 0x4D, 0xA7, 0x00, 0x01, 0x01, 0x00, 0x02, 0x58, 0x20] + sid
    + [0x08, 0xF4, 0x09] + Head(0, ts) + [0x0A] + Head(0, n) + [0x0D, 0x00]
  }

  lemma ServerV1Valid(sid: Bytes32, ts: u64, n: u64)
    ensures ValidateEvent(ServerV1(sid, ts, n)).Pass?
  {
  }

  lemma ServerV1Core(sid: Bytes32, ts: u64, n: u64)
    ensures var ev := ServerV1(sid, ts, n);
            && CoreCount(ev) == 7
            && CoreBytes(ev)
               == ([0x00, 0x01, 0x01, 0x00, 0x02, 0x58, 0x20] + sid)
                  + ([0x08, 0xF4] + ([0x09] + Head(0, ts)) + ([0x0A] + Head(0, n))) + [0x0D, 0x00]
  {
    var ev := ServerV1(sid, ts, n);
    assert Head(0, 0) == [0x00] && Head(0, 1) == [0x01];
    hide Head;
    assert IdBytes(ev) == [0x00, 0x01, 0x01, 0x00, 0x02, 0x58, 0x20] + sid;
    assert ContentBytes(ev) == [0x08, 0xF4] + ([0x09] + Head(0, ts)) + ([0x0A] + Head(0, n));
    assert ThreadingBytes(ev) == [0x0D, 0x00];
    assert DeviceBytes(ev) == [] && SealedBytes(ev) == [] && GroupBytes(ev) == [] && RoleBytes(ev) == [];
    hide IdBytes, ContentBytes, ThreadingBytes, DeviceBytes, SealedBytes, GroupBytes, RoleBytes;
    var a, b, c := IdBytes(ev), ContentBytes(ev), ThreadingBytes(ev);
    assert a + b + c + [] + [] + [] + [] == a + b + c;
  }

  /** These bytes parse to that event, and are what it encodes to. */
  lemma ServerV1Parses(sid: Bytes32, ts: u64, n: u64)
    ensures ParseKommsPayload(ServerV1Bytes(sid, ts, n)) == Ok(ServerV1(sid, ts, n))
    ensures EncodedPayload(ServerV1(sid, ts, n)) == Ok(ServerV1Bytes(sid, ts, n))
  {
    hide ValidateEvent, ParseKommsPayload, EncodedPayload, CoreBytes, CoreCount, Listing, EncEntries;
    var ev := ServerV1(sid, ts, n);
    ServerV1Valid(sid, ts, n);
    ServerV1Core(sid, ts, n);
    PayloadBytes(ev);
    ListingSkips(map[], 0, KEY_LIMIT);
    NothingListed(map[], KEY_LIMIT);
    NoEntries();
    assert Head(5, 7) == [0xA7] && Ascii("KOMM") == [0x4B, 0x4F, 0x4D, 0x4D];
    hide Head;
    ServerV1Flat(sid, Head(0, ts), Head(0, n));
    EncodedOk(ev);
    EncodeParseIdentityIff(ev);
  }

  lemma ServerV1Flat(sid: Bytes32, t: seq<byte>, c: seq<byte>)
    ensures [0x4B, 0x4F, 0x4D, 0x4D]
            + ([0xA7] + (([0x00, 0x01, 0x01, 0x00, 0x02, 0x58, 0x20] + sid)
               + ([0x08, 0xF4] + ([0x09] + t) + ([0x0A] + c)) + [0x0D, 0x00] + []))
         == [0x4B, 0x4F, 0x4D, 0x4D, 0xA7, 0x00, 0x01, 0x01, 0x00, 0x02, 0x58, 0x20] + sid
            + [0x08, 0xF4, 0x09] + t + [0x0A] + c + [0x0D, 0x00]
  {
  }

  lemma EncodedOk(ev: ParsedKommsEvent)
    requires ValidateEvent(ev).Pass?
    ensures EncodedPayload(ev).Ok?
  {
    hide ValidateEvent, WirePairs, Enc;
  }

  lemma NoEntries()
    ensures EncEntries([]) == []
  {
  }

  // ----- versions -----

  /** Versions 0 and 1 are known: a well-typed map is put off as a future version exactly when its
      key 0 holds 2 or more, and the version reported is the one written. */
  lemma FutureVersionIff(raw: seq<byte>, entries: seq<Entry>)
    requires WireForm(raw, entries) && TextsValid(Map(entries)) && ByteKeys(entries)
    requires WellTyped(DecodedMap(entries))
    ensures var m := DecodedMap(entries);
            && 0 in m && m[0].UInt?
            && (ParseKommsPayload(raw).Err? && ParseKommsPayload(raw).error.UnsupportedVersion? <==> m[0].n >= 2)
            && (m[0].n >= 2 ==> ParseKommsPayload(raw) == Err(UnsupportedVersion(m[0].n)))
  {
    hide Build, WellTyped, FirstComplaint, ValidateEvent, DecodedMap, ParseStructure, Enc, TextsValid, CanonicalAt;
    var m := DecodedMap(entries);
    ParseOfWireForm(raw, entries);
    FirstComplaintNone(m);
    VersionWritten(m);
  }

  lemma VersionWritten(m: map<byte, Value>)
    requires WellTyped(m)
    ensures 0 in m && m[0] == UInt(Build(m).v)
  {
    hide Build, Mistyped;
    assert Complaint(m, 0).None?;
    BuiltVersion(m);
  }

  // ----- complaints of the parser -----

  /** The core keys in the order the parser takes them. */
  const PARSE_ORDER: seq<byte> := [
    0, 1, 8, 2, 3, 4, 5, 6, 7, 9, 10, 11, 12, 13, 14, 15, 16, 17, 18, 19, 20, 21, 22, 23, 24, 25, 26, 27, 28, 29,
    30, 31, 32]

  lemma TakenInOrder(position: nat)
    requires position < 33
    ensures KeyAt(position) == PARSE_ORDER[position]
  {
  }

  /** The complaint reported is that about the first key, in this order, that gives rise to one. */
  lemma {:induction false} FirstComplaintIsFirst(m: Fields, position: nat, at: nat)
    requires position <= at < 33 && Complaint(m, PARSE_ORDER[at]).Some?
    requires forall p | position <= p < at :: Complaint(m, PARSE_ORDER[p]).None?
    ensures FirstComplaint(m, position) == Complaint(m, PARSE_ORDER[at])
    decreases at - position
  {
    hide Complaint;
    TakenInOrder(position);
    if position < at {
      FirstComplaintIsFirst(m, position + 1, at);
    }
  }

  const FIELD_NAMES: seq<string> := [
    "v", "t", "sid", "cid", "did", "pid", "mid", "ref", "enc", "ts", "n", "sig", "parent_mid", "enc_scheme",
    "kind", "mime", "ref_type", "device_pk", "sig_scheme", "reaction_key", "payment_hint", "member_tag",
    "member_sealed", "enc_sid", "enc_cid", "enc_body_ref", "enc_parent_mid", "match_tag", "enc_t", "key_epoch",
    "sealed_signer", "role", "target"]

  /** What the parser says of a value under a core key: nothing if it has the type of the key, and else
      what it expected, by the name of the field. Only `v`, `t` and `enc` may not be missing. */
  lemma ComplaintAbout(m: Fields, k: byte)
    requires k < 33
    ensures var name := FIELD_NAMES[k];
            Complaint(m, k)
            == if k !in m then (if k in {0, 1, 8} then Some(MissingField(name)) else None)
               else if k in {2, 3, 4, 5, 6, 12, 17} then
                 (if m[k].Bytes? && |m[k].b| == 32 then None else Some(ExpectedBytes32(name)))
               else if k in {21, 27} then
                 (if m[k].Bytes? && |m[k].b| == 16 then None else Some(ExpectedBytes16(name)))
               else if k == 11 then
                 (if !m[k].Bytes? then Some(ExpectedBytes(name))
                  else if |m[k].b| != 64 then Some(InvalidSigLength) else None)
               else if k == 8 then (if m[k].Bool? then None else Some(ExpectedBool(name)))
               else if k == 15 then (if m[k].Text? then None else Some(ExpectedText(name)))
               else if k in {7, 19, 20, 22, 23, 24, 25, 26, 28, 30, 32} then
                 (if m[k].Bytes? then None else Some(ExpectedBytes(name)))
               else if !m[k].UInt? then Some(ExpectedUint(name))
               else if k == 1 && m[k].n > 255 then Some(EventTypeOverflow(m[k].n)) else None
  {
    FieldName(k);
    hide NameOf;
  }

  lemma FieldName(k: byte)
    requires k < 33
    ensures NameOf(k) == FIELD_NAMES[k]
  {
  }
}
