/** The destructive parser of protocol/src/lib.rs: fields leave a mutable map one by one. */
module Parse {
  import opened Base
  import opened Cbor
  import opened Values
  import opened Event
  import opened Fields

  // ----- specification -----

  function KeyToU8(k: Item): Result<byte, ParseError>
  {
    if k.UInt? && k.n < 256 then Ok(k.n) else Err(InvalidKey)
  }

  /** Inserting the entries in wire order; the first bad or repeated key stops it. */
  function Collect(entries: seq<Entry>, acc: map<byte, Value>): Result<map<byte, Value>, ParseError>
    requires ValueEntries(entries)
  {
    if entries == [] then Ok(acc)
    else
      var key :- KeyToU8(entries[0].key);
      if key in acc then Err(DuplicateKey(key))
      else Collect(entries[1..], acc[key := entries[0].value])
  }

  ghost predicate ValueEntries(entries: seq<Entry>)
  {
    forall k | 0 <= k < |entries| :: IsValue(entries[k].value)
  }

  /** The event a decoded value stands for, or the complaint the parser meets first. */
  function ParsedMap(value: Value): Result<ParsedKommsEvent, ParseError>
  {
    if !value.Map? then Err(NotAMap)
    else
      var m :- Collect(value.entries, map[]);
      match FirstComplaint(m, 0)
      case Some(e) => Err(e)
      case None => Ok(Build(m))
  }

  /** A repeated key is reported as such: the first one that occurred before. */
  lemma {:induction false} RepeatedKey(entries: seq<Entry>, acc: map<byte, Value>, j: nat)
    requires ValueEntries(entries) && j < |entries|
    requires forall i | 0 <= i <= j :: entries[i].key.UInt? && entries[i].key.n < 256
    requires forall i | 0 <= i < j :: entries[i].key.n !in acc
    requires forall i, k | 0 <= i < k < j :: entries[i].key.n != entries[k].key.n
    requires entries[j].key.n in acc || exists i :: 0 <= i < j && entries[i].key.n == entries[j].key.n
    ensures Collect(entries, acc) == Err(DuplicateKey(entries[j].key.n))
    decreases j
  {
    hide IsValue;
    if j > 0 {
      var acc' := acc[entries[0].key.n := entries[0].value];
      if entries[j].key.n !in acc' {
        var i :| 0 <= i < j && entries[i].key.n == entries[j].key.n;
        assert entries[1..][i - 1] == entries[i] && entries[1..][j - 1] == entries[j];
      }
      RepeatedKey(entries[1..], acc', j - 1);
    }
  }

  // What popping one key gives: the field, or the complaint about its value.

  function TakeUint(m: Fields, key: byte, name: string): Result<u64, ParseError>
  {
    if key !in m then Err(MissingField(name)) else if m[key].UInt? then Ok(m[key].n) else Err(ExpectedUint(name))
  }

  function Take32(m: Fields, key: byte, name: string): Result<Option<Bytes32>, ParseError>
  {
    if key !in m then Ok(None)
    else if m[key].Bytes? && |m[key].b| == 32 then Ok(Some(m[key].b)) else Err(ExpectedBytes32(name))
  }

  function Take16(m: Fields, key: byte, name: string): Result<Option<Bytes16>, ParseError>
  {
    if key !in m then Ok(None)
    else if m[key].Bytes? && |m[key].b| == 16 then Ok(Some(m[key].b)) else Err(ExpectedBytes16(name))
  }

  function TakeBlob(m: Fields, key: byte, name: string): Result<Option<Vec>, ParseError>
  {
    if key !in m then Ok(None) else if m[key].Bytes? then Ok(Some(m[key].b)) else Err(ExpectedBytes(name))
  }

  function TakeText(m: map<byte, Value>, key: byte, name: string): Result<Option<Utf8String>, ParseError>
  {
    if key !in m then Ok(None) else if m[key].Text? then Ok(Some(m[key].t)) else Err(ExpectedText(name))
  }

  function TakeUintOpt(m: Fields, key: byte, name: string): Result<Option<u64>, ParseError>
  {
    if key !in m then Ok(None) else if m[key].UInt? then Ok(Some(m[key].n)) else Err(ExpectedUint(name))
  }

  // ----- the parser -----

  /** The `BTreeMap` of fields not yet consumed. */
  class FieldMap {
    var m: map<byte, Value>

    constructor ()
      ensures m == map[]
    {
      m := map[];
    }

    method Insert(key: byte, value: Value) returns (replaced: bool)
      modifies this
      ensures m == old(m)[key := value] && replaced == (key in old(m))
    {
      replaced := key in m;
      m := m[key := value];
    }

    method Remove(key: byte) returns (o: Option<Value>)
      modifies this
      ensures m == old(m) - {key}
      ensures o == if key in old(m) then Some(old(m)[key]) else None
    {
      o := if key in m then Some(m[key]) else None;
      m := m - {key};
    }

    method PopUint(key: byte, name: string) returns (r: Result<u64, ParseError>)
      modifies this
      ensures m == old(m) - {key}
      ensures r == TakeUint(old(m), key, name)
    {
      var val := Remove(key);
      if val.None? { return Err(MissingField(name)); }
      if !val.value.UInt? { return Err(ExpectedUint(name)); }
      return Ok(val.value.n);
    }

    method PopBytes32(key: byte, name: string) returns (r: Result<Option<Bytes32>, ParseError>)
      modifies this
      ensures m == old(m) - {key}
      ensures r == Take32(old(m), key, name)
    {
      var val := Remove(key);
      if val.None? { return Ok(None); }
      if !val.value.Bytes? { return Err(ExpectedBytes32(name)); }
      if |val.value.b| != 32 { return Err(ExpectedBytes32(name)); }
      return Ok(Some(val.value.b));
    }

    method PopBytes16(key: byte, name: string) returns (r: Result<Option<Bytes16>, ParseError>)
      modifies this
      ensures m == old(m) - {key}
      ensures r == Take16(old(m), key, name)
    {
      var val := Remove(key);
      if val.None? { return Ok(None); }
      if !val.value.Bytes? { return Err(ExpectedBytes16(name)); }
      if |val.value.b| != 16 { return Err(ExpectedBytes16(name)); }
      return Ok(Some(val.value.b));
    }

    method PopBytes(key: byte, name: string) returns (r: Result<Option<Vec>, ParseError>)
      modifies this
      ensures m == old(m) - {key}
      ensures r == TakeBlob(old(m), key, name)
    {
      var val := Remove(key);
      if val.None? { return Ok(None); }
      if !val.value.Bytes? { return Err(ExpectedBytes(name)); }
      return Ok(Some(val.value.b));
    }

    method PopTextOpt(key: byte, name: string) returns (r: Result<Option<Utf8String>, ParseError>)
      modifies this
      ensures m == old(m) - {key}
      ensures r == TakeText(old(m), key, name)
    {
      var val := Remove(key);
      if val.None? { return Ok(None); }
      if !val.value.Text? { return Err(ExpectedText(name)); }
      return Ok(Some(val.value.t));
    }

    method PopUintOpt(key: byte, name: string) returns (r: Result<Option<u64>, ParseError>)
      modifies this
      ensures m == old(m) - {key}
      ensures r == TakeUintOpt(old(m), key, name)
    {
      var val := Remove(key);
      if val.None? { return Ok(None); }
      if !val.value.UInt? { return Err(ExpectedUint(name)); }
      return Ok(Some(val.value.n));
    }
  }

  /** The position at which the parser takes key `k`; extension keys come last. */
  function PositionOf(k: byte): nat
  {
    if k == 8 then 2 else if 2 <= k <= 7 then k + 1 else k
  }

  /** What is left of `m` once every key before `position` is consumed. */
  function Remaining(m: map<byte, Value>, position: nat): map<byte, Value>
  {
    map k | k in m && PositionOf(k) >= position :: m[k]
  }

  lemma Advance(m: map<byte, Value>, position: nat)
    requires position < EXTENSION_KEY_MIN
    ensures Remaining(m, position) - {KeyAt(position)} == Remaining(m, position + 1)
    ensures Lookup(Remaining(m, position), KeyAt(position)) == Lookup(m, KeyAt(position))
  {
    hide Sized, TextsValid, HasUndefined;
  }

  /** The complaints from `position` on, once the key there gave `complaint`. */
  ghost predicate Reports<T>(m: Fields, position: nat, r: Result<T, ParseError>)
  {
    FirstComplaint(m, position) == if r.Err? then Some(r.error) else FirstComplaint(m, position + 1)
  }

  lemma Step32(m: map<byte, Value>, position: nat)
    requires position < EXTENSION_KEY_MIN && KindOf(KeyAt(position)) == Fixed(32)
    ensures Remaining(m, position) - {KeyAt(position)} == Remaining(m, position + 1)
    ensures var key := KeyAt(position);
            var r := Take32(Remaining(m, position), key, NameOf(key));
            Reports(m, position, r) && (r.Ok? ==> r.value == Get32(m, key))
  {
    hide Remaining, NameOf, Sized, TextsValid, HasUndefined;
    Advance(m, position);
  }

  lemma Step16(m: map<byte, Value>, position: nat)
    requires position < EXTENSION_KEY_MIN && KindOf(KeyAt(position)) == Fixed(16)
    ensures Remaining(m, position) - {KeyAt(position)} == Remaining(m, position + 1)
    ensures var key := KeyAt(position);
            var r := Take16(Remaining(m, position), key, NameOf(key));
            Reports(m, position, r) && (r.Ok? ==> r.value == Get16(m, key))
  {
    hide Remaining, NameOf, Sized, TextsValid, HasUndefined;
    Advance(m, position);
  }

  lemma StepBlob(m: map<byte, Value>, position: nat)
    requires position < EXTENSION_KEY_MIN && KindOf(KeyAt(position)) == Blob
    ensures Remaining(m, position) - {KeyAt(position)} == Remaining(m, position + 1)
    ensures var key := KeyAt(position);
            var r := TakeBlob(Remaining(m, position), key, NameOf(key));
            Reports(m, position, r) && (r.Ok? ==> r.value == GetBlob(m, key))
  {
    hide Remaining, NameOf, Sized, TextsValid, HasUndefined;
    Advance(m, position);
  }

  lemma StepText(m: map<byte, Value>, position: nat)
    requires position < EXTENSION_KEY_MIN && KindOf(KeyAt(position)) == Str
    ensures Remaining(m, position) - {KeyAt(position)} == Remaining(m, position + 1)
    ensures var key := KeyAt(position);
            var r := TakeText(Remaining(m, position), key, NameOf(key));
            Reports(m, position, r) && (r.Ok? ==> r.value == GetText(m, key))
  {
    hide Remaining, NameOf, Sized, TextsValid, HasUndefined;
    Advance(m, position);
  }

  lemma StepUintOpt(m: map<byte, Value>, position: nat)
    requires position < EXTENSION_KEY_MIN && KindOf(KeyAt(position)) == Uint && !Mandatory(KeyAt(position))
    ensures Remaining(m, position) - {KeyAt(position)} == Remaining(m, position + 1)
    ensures var key := KeyAt(position);
            var r := TakeUintOpt(Remaining(m, position), key, NameOf(key));
            Reports(m, position, r) && (r.Ok? ==> r.value == GetUint(m, key))
  {
    hide Remaining, NameOf, Sized, TextsValid, HasUndefined;
    Advance(m, position);
  }

  /** Every optional field absent. */
  const DEFAULT_EVENT: ParsedKommsEvent :=
    ParsedKommsEvent(
      v := 0, t := ServerCreate, sid := None, cid := None, did := None, pid := None, mid := None,
      refBytes := None, enc := false, ts := None, n := None, sig := None, parentMid := None,
      encScheme := None, kind := None, mime := None, refType := None, devicePk := None,
      sigScheme := None, reactionKey := None, paymentHint := None, memberTag := None,
      memberSealed := None, encSid := None, encCid := None, encBodyRef := None, encParentMid := None,
      matchTag := None, encT := None, keyEpoch := None, sealedSigner := None, role := None,
      target := None, extensionFields := map[])

  lemma EntriesAreValues(value: Value)
    requires value.Map?
    ensures ValueEntries(value.entries)
  {
  }

  method ParseCborMap(value: Value) returns (r: Result<ParsedKommsEvent, ParseError>)
    ensures r == ParsedMap(value)
  {
    hide FirstComplaint, Remaining, Extensions, FromU8;
    if !value.Map? { return Err(NotAMap); }
    EntriesAreValues(value);
    hide Sized, TextsValid, HasUndefined;
    var fields := new FieldMap();
    var collected := CollectFields(value.entries, fields);
    if collected.Err? { return Err(collected.error); }
    ghost var m := fields.m;
    NothingTaken(m);

    var ev := PopCore(fields, m);
    if ev.Err? { return Err(ev.error); }
    var extensionFields := DrainExtensions(fields, m);
    if fields.m != map[] {
      assert false;  // the arm that reports `ReservedCoreKey`
    }
    NoComplaintLeft(m);
    return Ok(ev.value.(extensionFields := extensionFields));
  }

  /** Moves the entries into `fields`, refusing bad and repeated keys. */
  method CollectFields(entries: seq<Entry>, fields: FieldMap) returns (r: Result<(), ParseError>)
    requires ValueEntries(entries) && fields.m == map[]
    modifies fields
    ensures match Collect(entries, map[])
            case Ok(m) => r == Ok(()) && fields.m == m
            case Err(e) => r == Err(e)
  {
    hide Sized, TextsValid, HasUndefined;
    assert entries[0..] == entries;
    for k := 0 to |entries|
      invariant Collect(entries, map[]) == Collect(entries[k..], fields.m)
    {
      var key := KeyToU8(entries[k].key);
      if key.Err? { return Err(key.error); }
      assert entries[k..][0] == entries[k] && entries[k..][1..] == entries[k + 1..];
      var replaced := fields.Insert(key.value, entries[k].value);
      if replaced { return Err(DuplicateKey(key.value)); }
    }
    return Ok(());
  }

  /** Takes the 33 core keys. */
  method PopCore(fields: FieldMap, ghost m: map<byte, Value>) returns (r: Result<ParsedKommsEvent, ParseError>)
    requires fields.m == Remaining(m, 0)
    modifies fields
    ensures r.Err? ==> FirstComplaint(m, 0) == Some(r.error)
    ensures r.Ok? ==> FirstComplaint(m, 0) == FirstComplaint(m, 33) && fields.m == Remaining(m, 33)
    ensures r.Ok? ==> r.value == Build(m).(extensionFields := map[])
  {
    hide Remaining, FirstComplaint, Get32, Get16, Get64, GetBlob, GetUint, GetText, FromU8, TypeByte, Saturate;
    hide Scheme, Extensions, Sized, TextsValid, HasUndefined;
    r := PopIds(fields, m);
    if r.Err? { return; }
    r := PopContent(fields, m, r.value);
    if r.Err? { return; }
    r := PopThreading(fields, m, r.value);
    if r.Err? { return; }
    r := PopDevice(fields, m, r.value);
    if r.Err? { return; }
    r := PopSealed(fields, m, r.value);
    if r.Err? { return; }
    r := PopGroup(fields, m, r.value);
    if r.Err? { return; }
    r := PopRoles(fields, m, r.value);
  }

  /** Moves every extension key out of `fields`; nothing is left. */
  method DrainExtensions(fields: FieldMap, ghost m: map<byte, Value>) returns (extensionFields: map<byte, Value>)
    requires fields.m == Remaining(m, EXTENSION_KEY_MIN)
    modifies fields
    ensures extensionFields == Extensions(m) && fields.m == map[]
  {
    hide Sized, TextsValid, HasUndefined;
    extensionFields := map[];
    for key := EXTENSION_KEY_MIN to 256
      invariant fields.m == Remaining(m, key)
      invariant extensionFields == map k | k in m && EXTENSION_KEY_MIN <= k < key :: m[k]
    {
      var val := fields.Remove(key);
      if val.Some? {
        extensionFields := extensionFields[key := val.value];
      }
    }
  }

  lemma NothingTaken(m: map<byte, Value>)
    ensures Remaining(m, 0) == m
  {
  }

  lemma NoComplaintLeft(m: map<byte, Value>)
    ensures FirstComplaint(m, EXTENSION_KEY_MIN).None?
  {
  }

  /** Takes `v`, `t` and `enc`, the mandatory keys. */
  method PopEnvelope(fields: FieldMap, ghost m: map<byte, Value>)
    returns (r: Result<(u64, EventType, bool), ParseError>)
    requires fields.m == Remaining(m, 0)
    modifies fields
    ensures r.Err? ==> FirstComplaint(m, 0) == Some(r.error)
    ensures r.Ok? ==> FirstComplaint(m, 0) == FirstComplaint(m, 3) && fields.m == Remaining(m, 3)
    ensures r.Ok? ==> r.value == (OrZero(GetUint(m, 0)), FromU8(TypeByte(m)), 8 in m && m[8] == Bool(true))
  {
    hide Remaining, FromU8, Sized, TextsValid, HasUndefined;
    Advance(m, 0);
    var v := fields.PopUint(0, "v");
    if v.Err? { return Err(v.error); }
    Advance(m, 1);
    var tRaw := fields.PopUint(1, "t");
    if tRaw.Err? { return Err(tRaw.error); }
    if tRaw.value > 255 { return Err(EventTypeOverflow(tRaw.value)); }
    var t := FromU8(tRaw.value);
    Advance(m, 2);
    var encVal := fields.Remove(8);
    if encVal.None? { return Err(MissingField("enc")); }
    if !encVal.value.Bool? { return Err(ExpectedBool("enc")); }
    var enc := encVal.value.v;
    return Ok((v.value, t, enc));
  }

  method PopSig(fields: FieldMap, ghost m: map<byte, Value>) returns (r: Result<Option<Bytes64>, ParseError>)
    requires fields.m == Remaining(m, 11)
    modifies fields
    ensures fields.m == Remaining(m, 12)
    ensures Reports(m, 11, r) && (r.Ok? ==> r.value == Get64(m, 11))
  {
    hide Remaining, Sized, TextsValid, HasUndefined;
    Advance(m, 11);
    var sigVal := fields.Remove(11);
    if sigVal.None? { return Ok(None); }
    if !sigVal.value.Bytes? { return Err(ExpectedBytes("sig")); }
    if |sigVal.value.b| != 64 { return Err(InvalidSigLength); }
    return Ok(Some(sigVal.value.b));
  }

  /** Takes `v`, `t` and `enc`, then keys 2 to 6. */
  method PopIds(fields: FieldMap, ghost m: map<byte, Value>)
    returns (r: Result<ParsedKommsEvent, ParseError>)
    requires fields.m == Remaining(m, 0)
    modifies fields
    ensures r.Err? ==> FirstComplaint(m, 0) == Some(r.error)
    ensures r.Ok? ==> FirstComplaint(m, 0) == FirstComplaint(m, 8) && fields.m == Remaining(m, 8)
    ensures r.Ok? ==> r.value == DEFAULT_EVENT.(
              v := OrZero(GetUint(m, 0)), t := FromU8(TypeByte(m)), enc := 8 in m && m[8] == Bool(true),
              sid := Get32(m, 2), cid := Get32(m, 3), did := Get32(m, 4), pid := Get32(m, 5), mid := Get32(m, 6))
  {
    hide Remaining, FirstComplaint, Take32, Take16, TakeBlob, TakeText, TakeUintOpt;
    hide Get32, Get16, Get64, GetBlob, GetUint, GetText, Build, FromU8, IsValue, Complaint, Mistyped;
    var envelope := PopEnvelope(fields, m);
    if envelope.Err? { return Err(envelope.error); }
    var (v, t, enc) := envelope.value;
    Step32(m, 3);
    var sid := fields.PopBytes32(2, "sid");
    if sid.Err? { return Err(sid.error); }
    Step32(m, 4);
    var cid := fields.PopBytes32(3, "cid");
    if cid.Err? { return Err(cid.error); }
    Step32(m, 5);
    var did := fields.PopBytes32(4, "did");
    if did.Err? { return Err(did.error); }
    Step32(m, 6);
    var pid := fields.PopBytes32(5, "pid");
    if pid.Err? { return Err(pid.error); }
    Step32(m, 7);
    var mid := fields.PopBytes32(6, "mid");
    if mid.Err? { return Err(mid.error); }
    return Ok(DEFAULT_EVENT.(
      v := v, t := t, enc := enc, sid := sid.value, cid := cid.value, did := did.value, pid := pid.value,
      mid := mid.value));
  }

  /** Takes keys 7 and 9 to 11. */
  method PopContent(fields: FieldMap, ghost m: map<byte, Value>, ev: ParsedKommsEvent)
    returns (r: Result<ParsedKommsEvent, ParseError>)
    requires fields.m == Remaining(m, 8)
    modifies fields
    ensures r.Err? ==> FirstComplaint(m, 8) == Some(r.error)
    ensures r.Ok? ==> FirstComplaint(m, 8) == FirstComplaint(m, 12) && fields.m == Remaining(m, 12)
    ensures r.Ok? ==> r.value == ev.(
              sig := Get64(m, 11), refBytes := GetBlob(m, 7), ts := GetUint(m, 9), n := GetUint(m, 10))
  {
    hide Remaining, FirstComplaint, Take32, Take16, TakeBlob, TakeText, TakeUintOpt;
    hide Get32, Get16, Get64, GetBlob, GetUint, GetText, Build, FromU8, IsValue, Complaint, Mistyped;
    StepBlob(m, 8);
    var refBytes := fields.PopBytes(7, "ref");
    if refBytes.Err? { return Err(refBytes.error); }
    StepUintOpt(m, 9);
    var ts := fields.PopUintOpt(9, "ts");
    if ts.Err? { return Err(ts.error); }
    StepUintOpt(m, 10);
    var n := fields.PopUintOpt(10, "n");
    if n.Err? { return Err(n.error); }
    var sig := PopSig(fields, m);
    if sig.Err? { return Err(sig.error); }
    return Ok(ev.(
      sig := sig.value, refBytes := refBytes.value, ts := ts.value, n := n.value));
  }

  /** Takes keys 12 to 16 and synthesises the scheme of version 0. */
  method PopThreading(fields: FieldMap, ghost m: map<byte, Value>, ev: ParsedKommsEvent)
    returns (r: Result<ParsedKommsEvent, ParseError>)
    requires fields.m == Remaining(m, 12)
    modifies fields
    ensures r.Err? ==> FirstComplaint(m, 12) == Some(r.error)
    ensures r.Ok? ==> FirstComplaint(m, 12) == FirstComplaint(m, 17) && fields.m == Remaining(m, 17)
    ensures r.Ok? ==> r.value == ev.(
              parentMid := Get32(m, 12), kind := GetUint(m, 14), mime := GetText(m, 15),
              refType := GetUint(m, 16), encScheme := Scheme(m, ev.v, ev.enc))
  {
    hide Remaining, FirstComplaint, Take32, Take16, TakeBlob, TakeText, TakeUintOpt;
    hide Get32, Get16, Get64, GetBlob, GetUint, GetText, Build, FromU8, IsValue, Complaint, Mistyped;
    Step32(m, 12);
    var parentMid := fields.PopBytes32(12, "parent_mid");
    if parentMid.Err? { return Err(parentMid.error); }
    StepUintOpt(m, 13);
    var encScheme := fields.PopUintOpt(13, "enc_scheme");
    if encScheme.Err? { return Err(encScheme.error); }
    StepUintOpt(m, 14);
    var kind := fields.PopUintOpt(14, "kind");
    if kind.Err? { return Err(kind.error); }
    StepText(m, 15);
    var mime := fields.PopTextOpt(15, "mime");
    if mime.Err? { return Err(mime.error); }
    StepUintOpt(m, 16);
    var refType := fields.PopUintOpt(16, "ref_type");
    if refType.Err? { return Err(refType.error); }
    var scheme := encScheme.value;
    if ev.v == 0 && scheme.None? {
      scheme := Some(if ev.enc then 1 else 0);
    }
    return Ok(ev.(
      parentMid := parentMid.value, kind := kind.value, mime := mime.value, refType := refType.value,
      encScheme := scheme));
  }

  /** Takes keys 17 to 20. */
  method PopDevice(fields: FieldMap, ghost m: map<byte, Value>, ev: ParsedKommsEvent)
    returns (r: Result<ParsedKommsEvent, ParseError>)
    requires fields.m == Remaining(m, 17)
    modifies fields
    ensures r.Err? ==> FirstComplaint(m, 17) == Some(r.error)
    ensures r.Ok? ==> FirstComplaint(m, 17) == FirstComplaint(m, 21) && fields.m == Remaining(m, 21)
    ensures r.Ok? ==> r.value == ev.(
              devicePk := Get32(m, 17), sigScheme := GetUint(m, 18), reactionKey := GetBlob(m, 19),
              paymentHint := GetBlob(m, 20))
  {
    hide Remaining, FirstComplaint, Take32, Take16, TakeBlob, TakeText, TakeUintOpt;
    hide Get32, Get16, Get64, GetBlob, GetUint, GetText, Build, FromU8, IsValue, Complaint, Mistyped;
    Step32(m, 17);
    var devicePk := fields.PopBytes32(17, "device_pk");
    if devicePk.Err? { return Err(devicePk.error); }
    StepUintOpt(m, 18);
    var sigScheme := fields.PopUintOpt(18, "sig_scheme");
    if sigScheme.Err? { return Err(sigScheme.error); }
    StepBlob(m, 19);
    var reactionKey := fields.PopBytes(19, "reaction_key");
    if reactionKey.Err? { return Err(reactionKey.error); }
    StepBlob(m, 20);
    var paymentHint := fields.PopBytes(20, "payment_hint");
    if paymentHint.Err? { return Err(paymentHint.error); }
    return Ok(ev.(
      devicePk := devicePk.value, sigScheme := sigScheme.value, reactionKey := reactionKey.value,
      paymentHint := paymentHint.value));
  }

  /** Takes keys 21 to 25. */
  method PopSealed(fields: FieldMap, ghost m: map<byte, Value>, ev: ParsedKommsEvent)
    returns (r: Result<ParsedKommsEvent, ParseError>)
    requires fields.m == Remaining(m, 21)
    modifies fields
    ensures r.Err? ==> FirstComplaint(m, 21) == Some(r.error)
    ensures r.Ok? ==> FirstComplaint(m, 21) == FirstComplaint(m, 26) && fields.m == Remaining(m, 26)
    ensures r.Ok? ==> r.value == ev.(
              memberTag := Get16(m, 21), memberSealed := GetBlob(m, 22), encSid := GetBlob(m, 23),
              encCid := GetBlob(m, 24), encBodyRef := GetBlob(m, 25))
  {
    hide Remaining, FirstComplaint, Take32, Take16, TakeBlob, TakeText, TakeUintOpt;
    hide Get32, Get16, Get64, GetBlob, GetUint, GetText, Build, FromU8, IsValue, Complaint, Mistyped;
    Step16(m, 21);
    var memberTag := fields.PopBytes16(21, "member_tag");
    if memberTag.Err? { return Err(memberTag.error); }
    StepBlob(m, 22);
    var memberSealed := fields.PopBytes(22, "member_sealed");
    if memberSealed.Err? { return Err(memberSealed.error); }
    StepBlob(m, 23);
    var encSid := fields.PopBytes(23, "enc_sid");
    if encSid.Err? { return Err(encSid.error); }
    StepBlob(m, 24);
    var encCid := fields.PopBytes(24, "enc_cid");
    if encCid.Err? { return Err(encCid.error); }
    StepBlob(m, 25);
    var encBodyRef := fields.PopBytes(25, "enc_body_ref");
    if encBodyRef.Err? { return Err(encBodyRef.error); }
    return Ok(ev.(
      memberTag := memberTag.value, memberSealed := memberSealed.value, encSid := encSid.value,
      encCid := encCid.value, encBodyRef := encBodyRef.value));
  }

  /** Takes keys 29 and 30. */
  method PopEpoch(fields: FieldMap, ghost m: map<byte, Value>)
    returns (r: Result<(Option<u64>, Option<Vec>), ParseError>)
    requires fields.m == Remaining(m, 29)
    modifies fields
    ensures r.Err? ==> FirstComplaint(m, 29) == Some(r.error)
    ensures r.Ok? ==> FirstComplaint(m, 29) == FirstComplaint(m, 31) && fields.m == Remaining(m, 31)
    ensures r.Ok? ==> r.value == (GetUint(m, 29), GetBlob(m, 30))
  {
    hide Remaining, FirstComplaint, Take32, Take16, TakeBlob, TakeText, TakeUintOpt;
    hide Get32, Get16, Get64, GetBlob, GetUint, GetText, Build, FromU8, IsValue, Complaint, Mistyped;
    StepUintOpt(m, 29);
    var keyEpoch := fields.PopUintOpt(29, "key_epoch");
    if keyEpoch.Err? { return Err(keyEpoch.error); }
    StepBlob(m, 30);
    var sealedSigner := fields.PopBytes(30, "sealed_signer");
    if sealedSigner.Err? { return Err(sealedSigner.error); }
    return Ok((keyEpoch.value, sealedSigner.value));
  }

  /** Takes keys 26 to 30. */
  method PopGroup(fields: FieldMap, ghost m: map<byte, Value>, ev: ParsedKommsEvent)
    returns (r: Result<ParsedKommsEvent, ParseError>)
    requires fields.m == Remaining(m, 26)
    modifies fields
    ensures r.Err? ==> FirstComplaint(m, 26) == Some(r.error)
    ensures r.Ok? ==> FirstComplaint(m, 26) == FirstComplaint(m, 31) && fields.m == Remaining(m, 31)
    ensures r.Ok? ==> r.value == ev.(
              encParentMid := GetBlob(m, 26), matchTag := Get16(m, 27), encT := GetBlob(m, 28),
              keyEpoch := GetUint(m, 29), sealedSigner := GetBlob(m, 30))
  {
    hide Remaining, FirstComplaint, Take32, Take16, TakeBlob, TakeText, TakeUintOpt;
    hide Get32, Get16, Get64, GetBlob, GetUint, GetText, Build, FromU8, IsValue, Complaint, Mistyped;
    StepBlob(m, 26);
    var encParentMid := fields.PopBytes(26, "enc_parent_mid");
    if encParentMid.Err? { return Err(encParentMid.error); }
    Step16(m, 27);
    var matchTag := fields.PopBytes16(27, "match_tag");
    if matchTag.Err? { return Err(matchTag.error); }
    StepBlob(m, 28);
    var encT := fields.PopBytes(28, "enc_t");
    if encT.Err? { return Err(encT.error); }
    var rest := PopEpoch(fields, m);
    if rest.Err? { return Err(rest.error); }
    var (keyEpoch, sealedSigner) := rest.value;
    return Ok(ev.(
      encParentMid := encParentMid.value, matchTag := matchTag.value, encT := encT.value,
      keyEpoch := keyEpoch, sealedSigner := sealedSigner));
  }

  /** Takes keys 31 and 32, clamping the role to a byte. */
  method PopRoles(fields: FieldMap, ghost m: map<byte, Value>, ev: ParsedKommsEvent)
    returns (r: Result<ParsedKommsEvent, ParseError>)
    requires fields.m == Remaining(m, 31)
    modifies fields
    ensures r.Err? ==> FirstComplaint(m, 31) == Some(r.error)
    ensures r.Ok? ==> FirstComplaint(m, 31) == FirstComplaint(m, 33) && fields.m == Remaining(m, 33)
    ensures r.Ok? ==> r.value == ev.(role := Saturate(GetUint(m, 31)), target := GetBlob(m, 32))
  {
    hide Remaining, FirstComplaint, Take32, Take16, TakeBlob, TakeText, TakeUintOpt;
    hide Get32, Get16, Get64, GetBlob, GetUint, GetText, Build, FromU8, IsValue, Complaint, Mistyped;
    StepUintOpt(m, 31);
    var role := fields.PopUintOpt(31, "role");
    if role.Err? { return Err(role.error); }
    var clamped: Option<byte> := None;
    if role.value.Some? {
      clamped := Some(if role.value.value > 255 then 255 else role.value.value);
    }
    StepBlob(m, 32);
    var target := fields.PopBytes(32, "target");
    if target.Err? { return Err(target.error); }
    return Ok(ev.(role := clamped, target := target.value));
  }
}
