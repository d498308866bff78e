/** What the walker refuses, and exactly how: the first rule an item breaks, the heads no item has,
    and where a cut is noticed. None of this is said in terms of the walker. */
module Refusals {
  import opened Base
  import opened Cbor
  import opened Canonical
  import opened CanonicalLanguage

  // ----- items outside the profile -----

  /** The first rule of the profile that `i`, printed at offset `off` and `depth` containers down,
      breaks in the order its bytes come: nesting, tags, floats, simple values, and for every map
      entry first its key and then its value. */
  ghost function FirstBreach(i: Item, depth: nat, off: nat): Option<CanonicalError>
    decreases i, 1
  {
    if depth > MAX_NESTING_DEPTH then Some(NestingTooDeep(off))
    else
      match i
      case Arr(items) => FirstBreachOfItems(items, depth + 1, off + |Head(4, |items|)|)
      case Map(entries) => FirstBreachOfEntries(entries, depth + 1, off + |Head(5, |entries|)|, None)
      case Tag(tag, _) => Some(TaggedItem(tag, off))
      case Float(_) => Some(FloatForbidden(off))
      case Simple(code) => Some(InvalidSimpleValue(if code < 20 then 0xE0 + code else 0xF8, off))
      case _ => None
  }

  ghost function FirstBreachOfItems(items: seq<Item>, depth: nat, off: nat): Option<CanonicalError>
    decreases items, 0
  {
    if items == [] then None
    else
      var breach := FirstBreach(items[0], depth, off);
      if breach.Some? then breach else FirstBreachOfItems(items[1..], depth, off + |Enc(items[0])|)
  }

  ghost function FirstBreachOfEntries(entries: seq<Entry>, depth: nat, off: nat, prev: Option<nat>)
    : Option<CanonicalError>
    decreases entries, 0
  {
    if entries == [] then None
    else
      var breach := FirstBreachOfEntry(entries[0], depth, off, prev);
      if breach.Some? then breach
      else FirstBreachOfEntries(entries[1..], depth, off + |EncEntry(entries[0])|, Some(entries[0].key.n))
  }

  ghost function FirstBreachOfEntry(e: Entry, depth: nat, off: nat, prev: Option<nat>)
    : (breach: Option<CanonicalError>)
    ensures breach.None? ==> e.key.UInt?
    decreases e, 2
  {
    var breach := FirstBreachOfKey(e.key, off, prev);
    if breach.Some? then breach else FirstBreach(e.value, depth, off + |Enc(e.key)|)
  }

  /** A key that is no unsigned integer, the same as the one before, or smaller. */
  ghost function FirstBreachOfKey(key: Item, off: nat, prev: Option<nat>): (breach: Option<CanonicalError>)
    ensures breach.None? ==> key.UInt?
  {
    if !key.UInt? then Some(NonUintKey(off))
    else if prev == Some(key.n) then Some(DuplicateKey(key.n, off))
    else if prev.Some? && key.n < prev.value then Some(KeysOutOfOrder(off))
    else None
  }

  /** Walking over a printed value reports its first breach, or passes over all of it. */
  ghost predicate Reports<T>(r: Step<T>, breach: Option<CanonicalError>, value: T, next: nat)
  {
    r == if breach.Some? then Stop(breach.value) else Done(value, next)
  }

  lemma {:induction false} WalkOfItem(i: Item, s: seq<byte>, pos: nat, depth: nat)
    requires Sized(i) && At(s, pos, Enc(i))
    ensures Reports(DecodeItem(s, pos, depth), FirstBreach(i, depth, pos), i, pos + |Enc(i)|)
    decreases i, 1
  {
    hide DecodeBody, Split, DecodeSimple, Enc, Sized, Head, DecodeArgument, EncItems, EncEntries, FirstBreach;
    if depth > MAX_NESTING_DEPTH {
      BreachOfDepth(i, depth, pos);
    } else if Leading(i) == 7 {
      WalkOfSimple(i, s, pos, depth);
    } else {
      var (major, v, r) := Split(i);
      var p := pos + |Head(major, v)|;
      AtConcat(s, pos, Head(major, v), r);
      HeadReadBack(s, pos, major, v);
      assert DecodeItem(s, pos, depth) == DecodeBody(s, p, depth, major, v, pos);
      WalkOfBody(i, s, p, depth, pos);
    }
  }

  lemma BreachOfDepth(i: Item, depth: nat, off: nat)
    requires depth > MAX_NESTING_DEPTH
    ensures FirstBreach(i, depth, off) == Some(NestingTooDeep(off))
  {
  }

  lemma WalkOfSimple(i: Item, s: seq<byte>, pos: nat, depth: nat)
    requires Leading(i) == 7 && depth <= MAX_NESTING_DEPTH && At(s, pos, Enc(i))
    ensures Reports(DecodeItem(s, pos, depth), FirstBreach(i, depth, pos), i, pos + |Enc(i)|)
  {
    hide DecodeBody, Split, DecodeArgument;
    assert s[pos] == s[pos..pos + |Enc(i)|][0] == Enc(i)[0];
  }

  lemma {:induction false} WalkOfBody(i: Item, s: seq<byte>, pos: nat, depth: nat, off: nat)
    requires Sized(i) && Leading(i) < 7 && depth <= MAX_NESTING_DEPTH && At(s, pos, Split(i).2)
    requires pos == off + |Head(Leading(i), Split(i).1)|
    ensures Reports(DecodeBody(s, pos, depth, Leading(i), Split(i).1, off), FirstBreach(i, depth, off),
                    i, pos + |Split(i).2|)
    decreases i, 0
  {
    hide Enc, EncItems, EncEntries, DecodeItems, DecodeEntries, Head, FirstBreachOfItems, FirstBreachOfEntries;
    match i
    case Arr(items) => WalkOfItems(items, s, pos, depth + 1);
    case Map(entries) => WalkOfEntries(entries, s, pos, depth + 1, None);
    case _ =>
  }

  lemma {:induction false} WalkOfItems(items: seq<Item>, s: seq<byte>, pos: nat, depth: nat)
    requires forall k | 0 <= k < |items| :: Sized(items[k])
    requires At(s, pos, EncItems(items))
    ensures Reports(DecodeItems(s, pos, depth, |items|), FirstBreachOfItems(items, depth, pos),
                    items, pos + |EncItems(items)|)
    decreases items, 0
  {
    hide Enc, DecodeItem, Sized, FirstBreach;
    if items != [] {
      var i, rest := items[0], items[1..];
      AtConcat(s, pos, Enc(i), EncItems(rest));
      WalkOfItem(i, s, pos, depth);
      WalkOfItems(rest, s, pos + |Enc(i)|, depth);
      assert items == [i] + rest;
    }
  }

  lemma {:induction false} WalkOfEntries(
    entries: seq<Entry>, s: seq<byte>, pos: nat, depth: nat, prev: Option<nat>)
    requires forall k | 0 <= k < |entries| :: Sized(entries[k].key) && Sized(entries[k].value)
    requires At(s, pos, EncEntries(entries))
    ensures Reports(DecodeEntries(s, pos, depth, |entries|, prev), FirstBreachOfEntries(entries, depth, pos, prev),
                    entries, pos + |EncEntries(entries)|)
    decreases entries, 0
  {
    hide EncEntry, DecodeEntry, Sized, FirstBreachOfEntry;
    if entries != [] {
      var e, rest := entries[0], entries[1..];
      AtConcat(s, pos, EncEntry(e), EncEntries(rest));
      WalkOfEntry(e, s, pos, depth, prev);
      if FirstBreachOfEntry(e, depth, pos, prev).None? {
        WalkOfEntries(rest, s, pos + |EncEntry(e)|, depth, Some(e.key.n));
      }
      assert entries == [e] + rest;
    }
  }

  lemma {:induction false} WalkOfEntry(e: Entry, s: seq<byte>, pos: nat, depth: nat, prev: Option<nat>)
    requires Sized(e.key) && Sized(e.value) && At(s, pos, EncEntry(e))
    ensures Reports(DecodeEntry(s, pos, depth, prev), FirstBreachOfEntry(e, depth, pos, prev),
                    e, pos + |EncEntry(e)|)
    decreases e, 2
  {
    hide Enc, DecodeItem, DecodeKey, Sized, FirstBreach, FirstBreachOfKey;
    AtConcat(s, pos, Enc(e.key), Enc(e.value));
    WalkOfKey(e.key, s, pos, prev);
    if FirstBreachOfKey(e.key, pos, prev).None? {
      WalkOfItem(e.value, s, pos + |Enc(e.key)|, depth);
    }
  }

  lemma WalkOfKey(key: Item, s: seq<byte>, pos: nat, prev: Option<nat>)
    requires At(s, pos, Enc(key))
    ensures DecodeKey(s, pos, prev)
         == match FirstBreachOfKey(key, pos, prev)
            case Some(e) => Stop(e)
            case None => Done(key.n, pos + |Enc(key)|)
  {
    assert s[pos] == s[pos..pos + |Enc(key)|][0] == Enc(key)[0];
    assert Leading(key) == s[pos] / 32;
    if key.UInt? {
      HeadReadBack(s, pos, 0, key.n);
    }
  }

  /** Main theorem: what the walker says of the print of any item whatever is its first breach, and
      acceptance if there is none; and an item without breach is one in the profile. */
  lemma ValidateReportsFirstBreach(i: Item)
    requires Sized(i)
    ensures Validate(Enc(i)) == match FirstBreach(i, 0, 0) case None => Ok(()) case Some(e) => Err(e)
    ensures FirstBreach(i, 0, 0).None? <==> CanonicalAt(i, 0)
  {
    hide Enc, DecodeItem, CanonicalAt, FirstBreach, Sized;
    assert Enc(i)[0..|Enc(i)|] == Enc(i);
    WalkOfItem(i, Enc(i), 0, 0);
    EncodingAcceptedIff(i);
  }

  /** The errors that name a rule of the profile, as opposed to malformed or wasteful bytes. */
  ghost predicate NamesProfileRule(e: CanonicalError)
  {
    || e.NestingTooDeep? || e.TaggedItem? || e.FloatForbidden? || e.InvalidSimpleValue?
    || e.NonUintKey? || e.KeysOutOfOrder? || e.DuplicateKey?
  }

  lemma {:induction false} BreachNamesRule(i: Item, depth: nat, off: nat)
    ensures FirstBreach(i, depth, off).Some? ==> NamesProfileRule(FirstBreach(i, depth, off).value)
    decreases i, 1
  {
    hide Enc, Head;
    match i
    case Arr(items) => BreachOfItemsNamesRule(items, depth + 1, off + |Head(4, |items|)|);
    case Map(entries) => BreachOfEntriesNamesRule(entries, depth + 1, off + |Head(5, |entries|)|, None);
    case _ =>
  }

  lemma {:induction false} BreachOfItemsNamesRule(items: seq<Item>, depth: nat, off: nat)
    ensures var breach := FirstBreachOfItems(items, depth, off); breach.Some? ==> NamesProfileRule(breach.value)
    decreases items, 0
  {
    hide Enc, FirstBreach;
    if items != [] {
      BreachNamesRule(items[0], depth, off);
      BreachOfItemsNamesRule(items[1..], depth, off + |Enc(items[0])|);
    }
  }

  lemma {:induction false} BreachOfEntriesNamesRule(entries: seq<Entry>, depth: nat, off: nat, prev: Option<nat>)
    ensures var breach := FirstBreachOfEntries(entries, depth, off, prev);
            breach.Some? ==> NamesProfileRule(breach.value)
    decreases entries, 0
  {
    hide EncEntry, FirstBreachOfEntry;
    if entries != [] {
      var e := entries[0];
      BreachOfEntryNamesRule(e, depth, off, prev);
      if FirstBreachOfEntry(e, depth, off, prev).None? {
        BreachOfEntriesNamesRule(entries[1..], depth, off + |EncEntry(e)|, Some(e.key.n));
      }
    }
  }

  lemma {:induction false} BreachOfEntryNamesRule(e: Entry, depth: nat, off: nat, prev: Option<nat>)
    ensures var breach := FirstBreachOfEntry(e, depth, off, prev);
            breach.Some? ==> NamesProfileRule(breach.value)
    decreases e, 2
  {
    hide Enc, FirstBreach;
    BreachNamesRule(e.value, depth, off + |Enc(e.key)|);
  }

  /** Well-formed shortest-form CBOR outside the profile is always refused by naming a profile rule,
      never as truncated, non-shortest or otherwise malformed. */
  lemma RejectionNamesProfileRule(i: Item)
    requires Sized(i) && !CanonicalAt(i, 0)
    ensures Validate(Enc(i)).Err? && NamesProfileRule(Validate(Enc(i)).error)
  {
    ValidateReportsFirstBreach(i);
    BreachNamesRule(i, 0, 0);
    hide Enc, Validate, CanonicalAt, FirstBreach, Sized;
  }

  /** An integer inside `k` one-element arrays. */
  function Nested(k: nat): (i: Item)
    ensures Sized(i)
  {
    if k == 0 then UInt(0) else Arr([Nested(k - 1)])
  }

  function NestedBytes(k: nat): seq<byte>
  {
    if k == 0 then [0x00] else [0x81] + NestedBytes(k - 1)
  }

  lemma {:induction false} NestedPrint(k: nat)
    ensures Enc(Nested(k)) == NestedBytes(k)
  {
    if k > 0 {
      NestedPrint(k - 1);
      var inner := Nested(k - 1);
      assert [inner][1..] == [] && EncItems([inner]) == Enc(inner) + [];
    }
  }

  lemma {:induction false} NestedBreach(k: nat, depth: nat, off: nat)
    requires depth <= 8
    ensures FirstBreach(Nested(k), depth, off)
         == if depth + k <= 8 then None else Some(NestingTooDeep(off + 9 - depth))
    decreases k
  {
    if k > 0 {
      var inner := Nested(k - 1);
      assert [inner][1..] == [] && |Head(4, 1)| == 1;
      if depth < 8 {
        NestedBreach(k - 1, depth + 1, off + 1);
      } else {
        BreachOfDepth(inner, 9, off + 1);
      }
      hide FirstBreach;
      assert FirstBreachOfItems([inner], depth + 1, off + 1) == FirstBreach(inner, depth + 1, off + 1);
    }
  }

  /** The nesting limit as a number: eight containers around a leaf are accepted, a ninth is not. */
  lemma NestingLimit(k: nat)
    ensures Validate(NestedBytes(k)) == if k <= 8 then Ok(()) else Err(NestingTooDeep(9))
  {
    NestedPrint(k);
    ValidateReportsFirstBreach(Nested(k));
    NestedBreach(k, 0, 0);
    hide Validate, FirstBreach, Enc;
  }

  // ----- heads no item has -----

  /** An indefinite length, a reserved additional info, and a head longer than its argument needs are
      each refused at the head, wherever it stands. */
  lemma BadHeadRefused(s: seq<byte>, pos: nat, depth: nat)
    requires pos < |s| && depth <= 8
    ensures s[pos] % 32 == 31 ==> DecodeItem(s, pos, depth) == Stop(IndefiniteLength(pos))
    ensures 28 <= s[pos] % 32 <= 30 ==> DecodeItem(s, pos, depth) == Stop(ReservedArgument(pos))
  {
  }

  lemma LongHeadRefused(s: seq<byte>, pos: nat, depth: nat, major: nat, code: nat, v: nat)
    requires depth <= 8 && major < 7 && 24 <= code <= 27 && v < Pow256(ArgBytes(code)) && ArgCode(v) < code
    requires At(s, pos, [32 * major + code] + ToBE(v, ArgBytes(code)))
    ensures DecodeItem(s, pos, depth) == Stop(NonShortestForm(pos))
  {
    hide DecodeBody;
    LongArgumentRefused(s, pos, major, code, v);
  }

  lemma LongArgumentRefused(s: seq<byte>, pos: nat, major: nat, code: nat, v: nat)
    requires major < 8 && 24 <= code <= 27 && v < Pow256(ArgBytes(code)) && ArgCode(v) < code
    requires At(s, pos, [32 * major + code] + ToBE(v, ArgBytes(code)))
    ensures s[pos] == 32 * major + code && s[pos] / 32 == major && s[pos] % 32 == code
    ensures DecodeArgument(s, pos + 1, code, pos) == Stop(NonShortestForm(pos))
  {
    var n := ArgBytes(code);
    var w := ToBE(v, n);
    assert s[pos] == s[pos..pos + 1 + n][0] == 32 * major + code;
    assert s[pos + 1..pos + 1 + n] == s[pos..pos + 1 + n][1..] == w;
    FromBEToBE(v, n);
  }

  /** Bytes that decide by themselves, whatever follows: a tag, a float, any other simple value but
      the four assigned ones, and nesting below the limit even where nothing follows. */
  lemma DecidedAtHead(s: seq<byte>, pos: nat, depth: nat)
    requires pos <= |s|
    ensures depth >= 9 ==> DecodeItem(s, pos, depth) == Stop(NestingTooDeep(pos))
    ensures depth <= 8 && pos < |s| && 0xF9 <= s[pos] <= 0xFB ==> DecodeItem(s, pos, depth) == Stop(FloatForbidden(pos))
    ensures depth <= 8 && pos < |s| && (0xE0 <= s[pos] <= 0xF3 || s[pos] == 0xF8) ==>
              DecodeItem(s, pos, depth) == Stop(InvalidSimpleValue(s[pos], pos))
    ensures depth <= 8 && pos < |s| && 0xF4 <= s[pos] <= 0xF7 ==>
              DecodeItem(s, pos, depth)
              == Done(if s[pos] == 0xF4 then Bool(false) else if s[pos] == 0xF5 then Bool(true)
                      else if s[pos] == 0xF6 then Null else Undefined, pos + 1)
  {
  }

  lemma TagRefused(s: seq<byte>, pos: nat, depth: nat, tag: u64)
    requires depth <= 8 && At(s, pos, Head(6, tag))
    ensures DecodeItem(s, pos, depth) == Stop(TaggedItem(tag, pos))
  {
    hide Head, DecodeArgument;
    HeadReadBack(s, pos, 6, tag);
  }

  /** Too few bytes: none for a head, too few for its argument, too few for a string. */
  lemma NothingLeft(s: seq<byte>, depth: nat)
    requires depth <= 8
    ensures DecodeItem(s, |s|, depth) == Stop(Truncated(|s|))
  {
  }

  lemma ShortHeadRefused(s: seq<byte>, pos: nat, depth: nat, major: nat, v: u64)
    requires depth <= 8 && major < 7 && pos < |s| < pos + |Head(major, v)| && s[pos] == Head(major, v)[0]
    ensures DecodeItem(s, pos, depth) == Stop(Truncated(pos + 1))
  {
    hide Head, DecodeBody, FromBE, ToBE;
    HeadShape(major, v);
  }

  lemma ShortStringRefused(s: seq<byte>, pos: nat, depth: nat, major: nat, n: u64)
    requires depth <= 8 && major in {2, 3} && At(s, pos, Head(major, n)) && pos + |Head(major, n)| + n > |s|
    ensures DecodeItem(s, pos, depth) == Stop(Truncated(pos + |Head(major, n)|))
  {
    hide Head, DecodeArgument;
    HeadReadBack(s, pos, major, n);
    assert DecodeBody(s, pos + |Head(major, n)|, depth, major, n, pos) == Stop(Truncated(pos + |Head(major, n)|));
  }

  /** The same under a key, which must moreover be of major type 0. */
  lemma BadKeyRefused(s: seq<byte>, pos: nat, prev: Option<nat>)
    requires pos < |s|
    ensures s[pos] >= 32 ==> DecodeKey(s, pos, prev) == Stop(NonUintKey(pos))
    ensures s[pos] == 31 ==> DecodeKey(s, pos, prev) == Stop(IndefiniteLength(pos))
    ensures 28 <= s[pos] <= 30 ==> DecodeKey(s, pos, prev) == Stop(ReservedArgument(pos))
  {
  }

  lemma LongKeyRefused(s: seq<byte>, pos: nat, prev: Option<nat>, code: nat, v: nat)
    requires 24 <= code <= 27 && v < Pow256(ArgBytes(code)) && ArgCode(v) < code
    requires At(s, pos, [code] + ToBE(v, ArgBytes(code)))
    ensures DecodeKey(s, pos, prev) == Stop(NonShortestForm(pos))
  {
    LongArgumentRefused(s, pos, 0, code, v);
  }

  // ----- a refusal inside a container is the container's -----

  lemma {:induction false} ItemsStop(s: seq<byte>, pos: nat, depth: nat, done: seq<Item>, count: nat, e: CanonicalError)
    requires |done| < count && forall k | 0 <= k < |done| :: CanonicalAt(done[k], depth)
    requires At(s, pos, EncItems(done)) && DecodeItem(s, pos + |EncItems(done)|, depth) == Stop(e)
    ensures DecodeItems(s, pos, depth, count) == Stop(e)
    decreases done
  {
    hide Enc, DecodeItem, CanonicalAt;
    if done != [] {
      AtConcat(s, pos, Enc(done[0]), EncItems(done[1..]));
      DecodeItemComplete(done[0], s, pos, depth);
      ItemsStop(s, pos + |Enc(done[0])|, depth, done[1..], count - 1, e);
    }
  }

  /** In an array, behind elements in the profile. */
  lemma ArrayStops(s: seq<byte>, pos: nat, depth: nat, done: seq<Item>, count: u64, e: CanonicalError)
    requires depth <= 8 && |done| < count && forall k | 0 <= k < |done| :: CanonicalAt(done[k], depth + 1)
    requires At(s, pos, Head(4, count) + EncItems(done))
    requires DecodeItem(s, pos + |Head(4, count)| + |EncItems(done)|, depth + 1) == Stop(e)
    ensures DecodeItem(s, pos, depth) == Stop(e)
  {
    hide Head, DecodeItems, EncItems, DecodeArgument, CanonicalAt;
    AtConcat(s, pos, Head(4, count), EncItems(done));
    HeadReadBack(s, pos, 4, count);
    ItemsStop(s, pos + |Head(4, count)|, depth + 1, done, count, e);
    assert DecodeBody(s, pos + |Head(4, count)|, depth, 4, count, pos) == Stop(e);
  }

  /** The last key of `done`, or `prev` if there is none. */
  function LastKey(done: seq<Entry>, prev: Option<nat>): Option<nat>
  {
    if done == [] then prev
    else if done[|done| - 1].key.UInt? then Some(done[|done| - 1].key.n) else None
  }

  lemma {:induction false} EntriesStop(
    s: seq<byte>, pos: nat, depth: nat, done: seq<Entry>, count: nat, prev: Option<nat>, e: CanonicalError)
    requires |done| < count && AscendingFrom(done, Least(prev))
    requires forall k | 0 <= k < |done| :: CanonicalAt(done[k].value, depth)
    requires At(s, pos, EncEntries(done))
    requires DecodeEntry(s, pos + |EncEntries(done)|, depth, LastKey(done, prev)) == Stop(e)
    ensures DecodeEntries(s, pos, depth, count, prev) == Stop(e)
    decreases done
  {
    hide EncEntry, DecodeEntry, CanonicalAt;
    if done != [] {
      AtConcat(s, pos, EncEntry(done[0]), EncEntries(done[1..]));
      DecodeEntryComplete(done[0], s, pos, depth, prev);
      assert LastKey(done, prev) == LastKey(done[1..], Some(done[0].key.n));
      EntriesStop(s, pos + |EncEntry(done[0])|, depth, done[1..], count - 1, Some(done[0].key.n), e);
    }
  }

  /** In a map, behind entries in the profile: at the next key, or at the value under it. */
  lemma MapStops(s: seq<byte>, pos: nat, depth: nat, done: seq<Entry>, count: u64, e: CanonicalError)
    requires depth <= 8 && |done| < count && AscendingFrom(done, 0)
    requires forall k | 0 <= k < |done| :: CanonicalAt(done[k].value, depth + 1)
    requires At(s, pos, Head(5, count) + EncEntries(done))
    requires var q := pos + |Head(5, count)| + |EncEntries(done)|;
             || DecodeKey(s, q, LastKey(done, None)) == Stop(e)
             || (DecodeKey(s, q, LastKey(done, None)).Done?
                 && DecodeItem(s, DecodeKey(s, q, LastKey(done, None)).next, depth + 1) == Stop(e))
    ensures DecodeItem(s, pos, depth) == Stop(e)
  {
    hide Head, DecodeEntries, EncEntries, DecodeArgument, CanonicalAt, DecodeKey, LastKey;
    AtConcat(s, pos, Head(5, count), EncEntries(done));
    HeadReadBack(s, pos, 5, count);
    EntriesStop(s, pos + |Head(5, count)|, depth + 1, done, count, None, e);
    assert DecodeBody(s, pos + |Head(5, count)|, depth, 5, count, pos) == Stop(e);
  }

  // ----- truncation -----

  /** Where a reader of the print of `i` notices that only `cut` bytes are left: at the head if there
      is nothing, behind its first byte if the argument is short, behind the head if a string is
      short, and otherwise wherever the element it is in is short. */
  ghost function CutAt(i: Item, cut: nat): (off: nat)
    requires cut < |Enc(i)|
    ensures off <= cut
    decreases i, 1
  {
    if cut == 0 || Leading(i) == 7 then 0
    else
      var h := |Head(Leading(i), Split(i).1)|;
      if cut < h then 1
      else
        match i
        case Arr(items) => h + CutAtItems(items, cut - h)
        case Map(entries) => h + CutAtEntries(entries, cut - h)
        case _ => h
  }

  ghost function CutAtItems(items: seq<Item>, cut: nat): (off: nat)
    requires cut < |EncItems(items)|
    ensures off <= cut
    decreases items, 0
  {
    var n := |Enc(items[0])|;
    if cut < n then CutAt(items[0], cut) else n + CutAtItems(items[1..], cut - n)
  }

  ghost function CutAtEntries(entries: seq<Entry>, cut: nat): (off: nat)
    requires cut < |EncEntries(entries)|
    ensures off <= cut
    decreases entries, 0
  {
    var n := |EncEntry(entries[0])|;
    if cut < n then CutAtEntry(entries[0], cut) else n + CutAtEntries(entries[1..], cut - n)
  }

  ghost function CutAtEntry(e: Entry, cut: nat): (off: nat)
    requires cut < |EncEntry(e)|
    ensures off <= cut
    decreases e, 2
  {
    var n := |Enc(e.key)|;
    if cut < n then CutAt(e.key, cut) else n + CutAt(e.value, cut - n)
  }

  /** `s` ends `cut` bytes into `x`, which stands at `pos`. */
  ghost predicate EndsWithin(s: seq<byte>, pos: nat, x: seq<byte>, cut: nat)
  {
    pos + cut == |s| && cut <= |x| && s[pos..] == x[..cut]
  }

  lemma EndsWithinConcat(s: seq<byte>, pos: nat, a: seq<byte>, b: seq<byte>, cut: nat)
    requires EndsWithin(s, pos, a + b, cut)
    ensures cut < |a| ==> EndsWithin(s, pos, a, cut)
    ensures cut >= |a| ==> At(s, pos, a) && EndsWithin(s, pos + |a|, b, cut - |a|)
  {
    if cut < |a| {
      assert (a + b)[..cut] == a[..cut];
    } else {
      assert s[pos..pos + |a|] == s[pos..][..|a|] == (a + b)[..cut][..|a|] == a;
      assert s[pos + |a|..] == s[pos..][|a|..] == (a + b)[..cut][|a|..] == b[..cut - |a|];
    }
  }

  lemma {:induction false} CutItem(i: Item, s: seq<byte>, pos: nat, depth: nat, cut: nat)
    requires CanonicalAt(i, depth) && cut < |Enc(i)| && EndsWithin(s, pos, Enc(i), cut)
    ensures DecodeItem(s, pos, depth) == Stop(Truncated(pos + CutAt(i, cut)))
    decreases i, 1
  {
    hide DecodeBody, Enc, DecodeArgument, CanonicalAt, Split, Head, Sized, CutAtItems, CutAtEntries;
    CanonicalShape(i, depth);
    if cut > 0 {
      CanonicalSized(i, depth);
      var (major, v, r) := Split(i);
      var h := Head(major, v);
      EndsWithinConcat(s, pos, h, r, cut);
      if cut < |h| {
        CutHead(s, pos, major, v, cut);
      } else {
        HeadReadBack(s, pos, major, v);
        CutBody(i, s, pos + |h|, depth, pos, cut - |h|);
      }
    }
  }

  lemma CanonicalShape(i: Item, depth: nat)
    requires CanonicalAt(i, depth)
    ensures depth <= MAX_NESTING_DEPTH && (Leading(i) == 7 ==> |Enc(i)| == 1)
  {
  }

  lemma CutHead(s: seq<byte>, pos: nat, major: nat, v: nat, cut: nat)
    requires major < 8 && v < TWO_64 && 0 < cut < |Head(major, v)| && EndsWithin(s, pos, Head(major, v), cut)
    ensures pos < |s| && s[pos] / 32 == major && s[pos] % 32 <= 27
    ensures DecodeArgument(s, pos + 1, s[pos] % 32, pos) == Stop(Truncated(pos + 1))
  {
    HeadShape(major, v);
    assert s[pos] == s[pos..][0] == Head(major, v)[0];
  }

  lemma {:induction false} CutBody(i: Item, s: seq<byte>, pos: nat, depth: nat, off: nat, cut: nat)
    requires CanonicalAt(i, depth) && Sized(i) && Leading(i) < 7
    requires cut < |Split(i).2| && EndsWithin(s, pos, Split(i).2, cut)
    ensures DecodeBody(s, pos, depth, Leading(i), Split(i).1, off)
         == Stop(Truncated(pos + match i
                                 case Arr(items) => CutAtItems(items, cut)
                                 case Map(entries) => CutAtEntries(entries, cut)
                                 case _ => 0))
    decreases i, 0
  {
    hide Enc, EncItems, EncEntries, DecodeItems, DecodeEntries, CutAtItems, CutAtEntries;
    match i
    case Arr(items) => CutItems(items, s, pos, depth + 1, cut);
    case Map(entries) => CutEntries(entries, s, pos, depth + 1, None, cut);
    case _ =>
  }

  lemma {:induction false} CutItems(items: seq<Item>, s: seq<byte>, pos: nat, depth: nat, cut: nat)
    requires forall k | 0 <= k < |items| :: CanonicalAt(items[k], depth)
    requires cut < |EncItems(items)| && EndsWithin(s, pos, EncItems(items), cut)
    ensures DecodeItems(s, pos, depth, |items|) == Stop(Truncated(pos + CutAtItems(items, cut)))
    decreases items, 0
  {
    hide Enc, DecodeItem, CanonicalAt, CutAt;
    var i, rest := items[0], items[1..];
    EndsWithinConcat(s, pos, Enc(i), EncItems(rest), cut);
    if cut < |Enc(i)| {
      CutItem(i, s, pos, depth, cut);
    } else {
      DecodeItemComplete(i, s, pos, depth);
      CutItems(rest, s, pos + |Enc(i)|, depth, cut - |Enc(i)|);
    }
  }

  lemma {:induction false} CutEntries(
    entries: seq<Entry>, s: seq<byte>, pos: nat, depth: nat, prev: Option<nat>, cut: nat)
    requires AscendingFrom(entries, Least(prev))
    requires forall k | 0 <= k < |entries| :: CanonicalAt(entries[k].value, depth)
    requires cut < |EncEntries(entries)| && EndsWithin(s, pos, EncEntries(entries), cut)
    ensures DecodeEntries(s, pos, depth, |entries|, prev) == Stop(Truncated(pos + CutAtEntries(entries, cut)))
    decreases entries, 0
  {
    hide EncEntry, DecodeEntry, CanonicalAt, CutAtEntry;
    var e, rest := entries[0], entries[1..];
    EndsWithinConcat(s, pos, EncEntry(e), EncEntries(rest), cut);
    if cut < |EncEntry(e)| {
      CutEntry(e, s, pos, depth, prev, cut);
    } else {
      DecodeEntryComplete(e, s, pos, depth, prev);
      CutEntries(rest, s, pos + |EncEntry(e)|, depth, Some(e.key.n), cut - |EncEntry(e)|);
    }
  }

  lemma {:induction false} CutEntry(e: Entry, s: seq<byte>, pos: nat, depth: nat, prev: Option<nat>, cut: nat)
    requires e.key.UInt? && Least(prev) <= e.key.n && CanonicalAt(e.value, depth)
    requires cut < |EncEntry(e)| && EndsWithin(s, pos, EncEntry(e), cut)
    ensures DecodeEntry(s, pos, depth, prev) == Stop(Truncated(pos + CutAtEntry(e, cut)))
    decreases e, 2
  {
    hide Enc, DecodeItem, DecodeKey, CanonicalAt, CutAt;
    EndsWithinConcat(s, pos, Enc(e.key), Enc(e.value), cut);
    if cut < |Enc(e.key)| {
      CutKey(e.key.n, s, pos, prev, cut);
    } else {
      KeyReadBack(s, pos, e.key.n, prev);
      CutItem(e.value, s, pos + |Enc(e.key)|, depth, cut - |Enc(e.key)|);
    }
  }

  lemma CutKey(key: u64, s: seq<byte>, pos: nat, prev: Option<nat>, cut: nat)
    requires cut < |Enc(UInt(key))| && EndsWithin(s, pos, Enc(UInt(key)), cut)
    ensures DecodeKey(s, pos, prev) == Stop(Truncated(pos + CutAt(UInt(key), cut)))
  {
    if cut > 0 {
      CutHead(s, pos, 0, key, cut);
    }
  }

  /** Main theorem: cutting an accepted string anywhere is reported as truncation, at the place the
      item it stands for determines, which lies within the cut. */
  lemma ProperPrefixIsTruncated(b: seq<byte>, cut: nat)
    requires Validate(b).Ok? && cut < |b|
    ensures CanonicalAt(ItemOf(b), 0) && b == Enc(ItemOf(b))
    ensures CutAt(ItemOf(b), cut) <= cut && Validate(b[..cut]) == Err(Truncated(CutAt(ItemOf(b), cut)))
  {
    hide Enc, DecodeItem, CanonicalAt, CutAt, ItemOf;
    AcceptedIsEncoding(b);
    assert b[..cut][0..] == b[..cut];
    CutItem(ItemOf(b), b[..cut], 0, 0, cut);
  }
}
