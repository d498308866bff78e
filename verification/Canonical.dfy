/** The canonical-form walker of protocol/src/canonical.rs.

    `Decode*` are the specification: they say, for every byte string, which item starts at a
    position or which error is reported. The methods of `Cursor` walk the same bytes with one
    mutable position and are proved to give exactly that outcome. */
module Canonical {
  import opened Base
  import opened Cbor

  datatype CanonicalError =
    | Truncated(offset: nat)
    | NestingTooDeep(offset: nat)
    | IndefiniteLength(offset: nat)
    | NonShortestForm(offset: nat)
    | NonUintKey(offset: nat)
    | KeysOutOfOrder(offset: nat)
    | DuplicateKey(key: nat, offset: nat)
    | TaggedItem(tag: nat, offset: nat)
    | FloatForbidden(offset: nat)
    | InvalidSimpleValue(value: byte, offset: nat)
    | TrailingBytes(offset: nat)
    | ReservedArgument(offset: nat)

  /** What reading at a position gives: a value and the position after it, or an error. */
  datatype Step<+T> = Done(value: T, next: nat) | Stop(error: CanonicalError) {
    predicate IsFailure() { Stop? }

    function PropagateFailure<U>(): Step<U>
      requires Stop?
    {
      Stop(error)
    }

    function Extract(): (T, nat)
      requires Done?
    {
      (value, next)
    }
  }

  // ----- specification -----

  function ReadBE(s: seq<byte>, pos: nat, n: nat): (r: Step<nat>)
    ensures r.Done? ==> r.next == pos + n <= |s|
  {
    if pos + n > |s| then Stop(Truncated(pos)) else Done(FromBE(s[pos..pos + n]), pos + n)
  }

  /** The head argument announced by additional info `arg`, in shortest form only. */
  function DecodeArgument(s: seq<byte>, pos: nat, arg: byte, initialOff: nat): (r: Step<nat>)
    requires pos <= |s|
    ensures r.Done? ==> pos <= r.next <= |s|
  {
    if arg < 24 then Done(arg, pos)
    else if arg > 27 then Stop(ReservedArgument(initialOff))
    else
      var (v, p) :- ReadBE(s, pos, ArgBytes(arg));
      if v < MinimumFor(arg) then Stop(NonShortestForm(initialOff)) else Done(v, p)
  }

  /** The least value that may be written with additional info `arg`. */
  function MinimumFor(arg: byte): nat
  {
    if arg == 24 then 24 else if arg == 25 then TWO_8 else if arg == 26 then TWO_16 else TWO_32
  }

  /** How many levels of nesting are left at `depth`, counting the one that is refused. */
  function Levels(depth: nat): nat
  {
    if depth > MAX_NESTING_DEPTH then 0 else MAX_NESTING_DEPTH + 1 - depth
  }

  function DecodeItem(s: seq<byte>, pos: nat, depth: nat): (r: Step<Item>)
    requires pos <= |s|
    ensures r.Done? ==> pos < r.next <= |s|
    decreases Levels(depth), 1
  {
    if depth > MAX_NESTING_DEPTH then Stop(NestingTooDeep(pos))
    else if pos == |s| then Stop(Truncated(pos))
    else
      var major, arg := s[pos] / 32, s[pos] % 32;
      if arg == 31 then Stop(IndefiniteLength(pos))
      else if arg > 27 then Stop(ReservedArgument(pos))
      else if major == 7 then DecodeSimple(s, pos)
      else
        var (v, p) :- DecodeArgument(s, pos + 1, arg, pos);
        DecodeArgumentBound(s, pos + 1, arg, pos);
        DecodeBody(s, p, depth, major, v, pos)
  }

  /** What follows a head of major type below 7 with argument `v`. */
  function DecodeBody(s: seq<byte>, pos: nat, depth: nat, major: nat, v: u64, off: nat): (r: Step<Item>)
    requires pos <= |s| && depth <= MAX_NESTING_DEPTH
    ensures r.Done? ==> pos <= r.next <= |s|
    decreases Levels(depth), 0
  {
    match major
    case 0 => Done(UInt(v), pos)
    case 1 => Done(NInt(v), pos)
    case 2 => var (b, q) :- DecodeString(s, pos, v); Done(Bytes(b), q)
    case 3 => var (t, q) :- DecodeString(s, pos, v); Done(Text(t), q)
    case 4 => var (items, q) :- DecodeItems(s, pos, depth + 1, v); Done(Arr(items), q)
    case 5 => var (entries, q) :- DecodeEntries(s, pos, depth + 1, v, None); Done(Map(entries), q)
    case _ => Stop(TaggedItem(v, off))
  }

  function DecodeSimple(s: seq<byte>, pos: nat): (r: Step<Item>)
    requires pos < |s|
    ensures r.Done? ==> r.next == pos + 1
  {
    var initial := s[pos];
    if initial == 0xF4 then Done(Bool(false), pos + 1)
    else if initial == 0xF5 then Done(Bool(true), pos + 1)
    else if initial == 0xF6 then Done(Null, pos + 1)
    else if initial == 0xF7 then Done(Undefined, pos + 1)
    else if 0xF9 <= initial <= 0xFB then Stop(FloatForbidden(pos))
    else Stop(InvalidSimpleValue(initial, pos))
  }

  function DecodeString(s: seq<byte>, pos: nat, n: nat): (r: Step<seq<byte>>)
    requires pos <= |s|
    ensures r.Done? ==> r.next == pos + n <= |s| && |r.value| == n
  {
    if pos + n > |s| then Stop(Truncated(pos)) else Done(s[pos..pos + n], pos + n)
  }

  function DecodeItems(s: seq<byte>, pos: nat, depth: nat, count: nat): (r: Step<seq<Item>>)
    requires pos <= |s|
    ensures r.Done? ==> pos <= r.next <= |s| && |r.value| == count
    decreases Levels(depth), count + 2
  {
    if count == 0 then Done([], pos)
    else
      var (i, p) :- DecodeItem(s, pos, depth);
      var (rest, q) :- DecodeItems(s, p, depth, count - 1);
      Done([i] + rest, q)
  }

  /** A map key: an unsigned integer above the previous key. */
  function DecodeKey(s: seq<byte>, pos: nat, prev: Option<nat>): (r: Step<nat>)
    requires pos <= |s|
    ensures r.Done? ==> pos < r.next <= |s|
  {
    var (key, p) :- DecodeUintKey(s, pos);
    if prev.Some? && key == prev.value then Stop(DuplicateKey(key, pos))
    else if prev.Some? && key < prev.value then Stop(KeysOutOfOrder(pos))
    else Done(key, p)
  }

  function DecodeUintKey(s: seq<byte>, pos: nat): (r: Step<nat>)
    requires pos <= |s|
    ensures r.Done? ==> pos < r.next <= |s|
  {
    if pos == |s| then Stop(Truncated(pos))
    else if s[pos] / 32 != 0 then Stop(NonUintKey(pos))
    else if s[pos] % 32 == 31 then Stop(IndefiniteLength(pos))
    else if s[pos] % 32 > 27 then Stop(ReservedArgument(pos))
    else DecodeArgument(s, pos + 1, s[pos] % 32, pos)
  }

  function DecodeEntry(s: seq<byte>, pos: nat, depth: nat, prev: Option<nat>): (r: Step<Entry>)
    requires pos <= |s|
    ensures r.Done? ==> pos < r.next <= |s| && r.value.key.UInt?
    decreases Levels(depth), 2
  {
    var (key, p) :- DecodeKey(s, pos, prev);
    var (i, q) :- DecodeItem(s, p, depth);
    DecodeKeyBound(s, pos, prev);
    Done(Entry(UInt(key), i), q)
  }

  function DecodeEntries(s: seq<byte>, pos: nat, depth: nat, count: nat, prev: Option<nat>): (r: Step<seq<Entry>>)
    requires pos <= |s|
    ensures r.Done? ==> pos <= r.next <= |s| && |r.value| == count
    decreases Levels(depth), count + 3
  {
    if count == 0 then Done([], pos)
    else
      var (e, p) :- DecodeEntry(s, pos, depth, prev);
      var (rest, q) :- DecodeEntries(s, p, depth, count - 1, Some(e.key.n));
      Done([e] + rest, q)
  }

  /** `cbor` is one canonical item and nothing else, or the first reason why not. */
  function Validate(cbor: seq<byte>): Result<(), CanonicalError>
  {
    match DecodeItem(cbor, 0, 0)
    case Done(_, p) => if p != |cbor| then Err(TrailingBytes(p)) else Ok(())
    case Stop(e) => Err(e)
  }

  lemma DecodeArgumentBound(s: seq<byte>, pos: nat, arg: byte, initialOff: nat)
    requires pos <= |s|
    ensures var r := DecodeArgument(s, pos, arg, initialOff); r.Done? ==> r.value < TWO_64
  {
    var n := ArgBytes(arg);
    if 24 <= arg <= 27 && pos + n <= |s| {
      ToBEFromBE(s[pos..pos + n]);
      Pow256Values();
    }
  }

  lemma DecodeKeyBound(s: seq<byte>, pos: nat, prev: Option<nat>)
    requires pos <= |s|
    ensures var r := DecodeKey(s, pos, prev); r.Done? ==> r.value < TWO_64
  {
    if pos < |s| {
      DecodeArgumentBound(s, pos + 1, s[pos] % 32, pos);
    }
  }

  // ----- the walker -----

  /** The outcome `r`, left with the cursor at `next`, is the outcome `step` specifies. */
  ghost predicate Follows<T>(r: Result<T, CanonicalError>, next: nat, step: Step<T>)
  {
    match step
    case Done(v, p) => r == Ok(v) && next == p
    case Stop(e) => r == Err(e)
  }

  /** The outcome of walking over a value without keeping it. */
  function Skip<T>(step: Step<T>): Step<()>
  {
    match step
    case Done(_, p) => Done((), p)
    case Stop(e) => Stop(e)
  }

  class Cursor {
    var pos: nat
    /** Calls of `WalkItem` and `ReadUintKey` so far, and the deepest `WalkItem` frame entered. */
    ghost var calls: nat
    ghost var deepest: nat

    constructor ()
      ensures pos == 0 && calls == 0 && deepest == 0
    {
      pos := 0;
      calls, deepest := 0, 0;
    }

    method ReadU8(cbor: Vec) returns (r: Result<byte, CanonicalError>)
      requires pos <= |cbor|
      modifies this`pos
      ensures old(pos) <= pos <= |cbor|
      ensures if old(pos) < |cbor| then r == Ok(cbor[old(pos)]) && pos == old(pos) + 1
              else r == Err(Truncated(old(pos))) && pos == old(pos)
    {
      var p := pos;
      if p >= |cbor| {
        return Err(Truncated(p));
      }
      var v := cbor[p];
      pos := p + 1;
      return Ok(v);
    }

    /** `read_u16_be`, `read_u32_be` and `read_u64_be`: widths 2, 4 and 8. */
    method ReadBigEndian(cbor: Vec, width: nat) returns (r: Result<nat, CanonicalError>)
      requires pos <= |cbor|
      modifies this`pos
      ensures old(pos) <= pos <= |cbor|
      ensures Follows(r, pos, ReadBE(cbor, old(pos), width))
    {
      var p := pos;
      if p + width > |cbor| {
        return Err(Truncated(p));
      }
      var v := FromBE(cbor[p..p + width]);
      pos := p + width;
      return Ok(v);
    }

    method SkipBytes(cbor: Vec, n: u64) returns (r: Result<(), CanonicalError>)
      requires pos <= |cbor|
      modifies this`pos
      ensures old(pos) <= pos <= |cbor|
      ensures Follows(r, pos, Skip(DecodeString(cbor, old(pos), n)))
    {
      var p := pos;
      if p + n >= TWO_64 {
        return Err(Truncated(p));  // `checked_add` overflowed
      }
      var end := p + n;
      if end > |cbor| {
        return Err(Truncated(p));
      }
      pos := end;
      return Ok(());
    }

    method ReadArgument(cbor: Vec, arg: byte, initialOff: nat) returns (r: Result<u64, CanonicalError>)
      requires pos <= |cbor|
      modifies this`pos
      ensures old(pos) <= pos <= |cbor|
      ensures Follows(r, pos, DecodeArgument(cbor, old(pos), arg, initialOff))
    {
      DecodeArgumentBound(cbor, pos, arg, initialOff);
      if arg <= 23 {
        return Ok(arg);
      } else if arg == 24 {
        ghost var p := pos;
        var v := ReadU8(cbor);
        if v.Err? { return Err(v.error); }
        assert FromBE(cbor[p..p + 1]) == v.value by {
          assert cbor[p..p + 1] == [v.value];
          assert [v.value][..0] == [];
        }
        if v.value < 24 { return Err(NonShortestForm(initialOff)); }
        return Ok(v.value);
      } else if arg == 25 {
        var v := ReadBigEndian(cbor, 2);
        if v.Err? { return Err(v.error); }
        if v.value <= 0xFF { return Err(NonShortestForm(initialOff)); }
        return Ok(v.value);
      } else if arg == 26 {
        var v := ReadBigEndian(cbor, 4);
        if v.Err? { return Err(v.error); }
        if v.value <= 0xFFFF { return Err(NonShortestForm(initialOff)); }
        return Ok(v.value);
      } else if arg == 27 {
        var v := ReadBigEndian(cbor, 8);
        if v.Err? { return Err(v.error); }
        if v.value <= 0xFFFF_FFFF { return Err(NonShortestForm(initialOff)); }
        return Ok(v.value);
      } else {
        return Err(ReservedArgument(initialOff));
      }
    }

    method ReadUintKey(cbor: Vec) returns (r: Result<u64, CanonicalError>)
      requires pos <= |cbor|
      modifies this`pos, this`calls
      ensures old(pos) <= pos <= |cbor|
      ensures Follows(r, pos, DecodeUintKey(cbor, old(pos)))
      ensures calls + old(pos) <= old(calls) + pos + (if r.Ok? then 0 else 1)
    {
      calls := calls + 1;
      var initialOff := pos;
      var initial := ReadU8(cbor);
      if initial.Err? { return Err(initial.error); }
      var major := initial.value / 32;
      var arg := initial.value % 32;
      if major != 0 { return Err(NonUintKey(initialOff)); }
      if arg == 0x1F { return Err(IndefiniteLength(initialOff)); }
      if 28 <= arg <= 30 { return Err(ReservedArgument(initialOff)); }
      r := ReadArgument(cbor, arg, initialOff);
    }

    /** Walks over one item. The last two clauses bound the work by the bytes consumed, whatever
        counts the input declares, and the recursion by the nesting limit. */
    method WalkItem(cbor: Vec, depth: nat) returns (r: Result<(), CanonicalError>)
      requires pos <= |cbor| && depth <= MAX_NESTING_DEPTH + 1
      modifies this
      ensures old(pos) <= pos <= |cbor|
      ensures Follows(r, pos, Skip(DecodeItem(cbor, old(pos), depth)))
      ensures calls + old(pos) <= old(calls) + pos + (if r.Ok? then 0 else 1)
      ensures deepest <= Max(old(deepest), MAX_NESTING_DEPTH + 1)
      decreases Levels(depth), 0
    {
      hide DecodeItems, DecodeEntries, DecodeArgument, FromBE, ReadBE;
      calls, deepest := calls + 1, Max(deepest, depth);
      if depth > MAX_NESTING_DEPTH {
        return Err(NestingTooDeep(pos));
      }
      var initialOff := pos;
      var initial := ReadU8(cbor);
      if initial.Err? { return Err(initial.error); }
      var major := initial.value / 32;
      var arg := initial.value % 32;
      if arg == 0x1F { return Err(IndefiniteLength(initialOff)); }
      if 28 <= arg <= 30 { return Err(ReservedArgument(initialOff)); }

      match major {
        case 0 | 1 =>
          var value := ReadArgument(cbor, arg, initialOff);
          if value.Err? { return Err(value.error); }
          return Ok(());
        case 2 | 3 =>
          var len := ReadArgument(cbor, arg, initialOff);
          if len.Err? { return Err(len.error); }
          r := SkipBytes(cbor, len.value);
        case 4 =>
          var count := ReadArgument(cbor, arg, initialOff);
          if count.Err? { return Err(count.error); }
          r := WalkElements(cbor, count.value, depth + 1);
        case 5 =>
          var count := ReadArgument(cbor, arg, initialOff);
          if count.Err? { return Err(count.error); }
          r := WalkPairs(cbor, count.value, depth + 1);
        case 6 =>
          var tag := ReadArgument(cbor, arg, initialOff);
          if tag.Err? { return Err(tag.error); }
          return Err(TaggedItem(tag.value, initialOff));
        case _ =>
          if 0xF4 <= initial.value <= 0xF7 { return Ok(()); }
          if 0xF9 <= initial.value <= 0xFB { return Err(FloatForbidden(initialOff)); }
          return Err(InvalidSimpleValue(initial.value, initialOff));
      }
    }

    /** The loop of the array arm. */
    method WalkElements(cbor: Vec, count: u64, depth: nat) returns (r: Result<(), CanonicalError>)
      requires pos <= |cbor| && depth <= MAX_NESTING_DEPTH + 1
      modifies this
      ensures old(pos) <= pos <= |cbor|
      ensures Follows(r, pos, Skip(DecodeItems(cbor, old(pos), depth, count)))
      ensures calls + old(pos) <= old(calls) + pos + (if r.Ok? then 0 else 1)
      ensures deepest <= Max(old(deepest), MAX_NESTING_DEPTH + 1)
      decreases Levels(depth), 1
    {
      for k := 0 to count
        invariant old(pos) <= pos <= |cbor|
        invariant Skip(DecodeItems(cbor, old(pos), depth, count)) == Skip(DecodeItems(cbor, pos, depth, count - k))
        invariant calls + old(pos) <= old(calls) + pos
        invariant deepest <= Max(old(deepest), MAX_NESTING_DEPTH + 1)
      {
        r := WalkItem(cbor, depth);
        if r.Err? { return; }
      }
      return Ok(());
    }

    /** The loop of the map arm, which remembers the previous key. */
    method WalkPairs(cbor: Vec, count: u64, depth: nat) returns (r: Result<(), CanonicalError>)
      requires pos <= |cbor| && depth <= MAX_NESTING_DEPTH + 1
      modifies this
      ensures old(pos) <= pos <= |cbor|
      ensures Follows(r, pos, Skip(DecodeEntries(cbor, old(pos), depth, count, None)))
      ensures calls + old(pos) <= old(calls) + pos + (if r.Ok? then 0 else 1)
      ensures deepest <= Max(old(deepest), MAX_NESTING_DEPTH + 1)
      decreases Levels(depth), 1
    {
      var prevKey: Option<nat> := None;
      for k := 0 to count
        invariant old(pos) <= pos <= |cbor|
        invariant Skip(DecodeEntries(cbor, old(pos), depth, count, None))
               == Skip(DecodeEntries(cbor, pos, depth, count - k, prevKey))
        invariant calls + old(pos) <= old(calls) + pos
        invariant deepest <= Max(old(deepest), MAX_NESTING_DEPTH + 1)
      {
        var keyOff := pos;
        var key := ReadUintKey(cbor);
        if key.Err? { return Err(key.error); }
        if prevKey.Some? && key.value <= prevKey.value {
          if key.value == prevKey.value { return Err(DuplicateKey(key.value, keyOff)); }
          return Err(KeysOutOfOrder(keyOff));
        }
        prevKey := Some(key.value);
        r := WalkItem(cbor, depth);
        if r.Err? { return; }
      }
      return Ok(());
    }
  }

  function Max(a: nat, b: nat): nat
  {
    if a < b then b else a
  }

  /** Accepts exactly as `Validate` says, with at most one call per byte and one more, and never
      more than ten nested `WalkItem` frames (depths 0 to 9). */
  method ValidateCanonical(cbor: Vec)
    returns (r: Result<(), CanonicalError>, ghost calls: nat, ghost frames: nat)
    ensures r == Validate(cbor)
    ensures calls <= |cbor| + 1 && frames <= 10
  {
    var cursor := new Cursor();
    r := cursor.WalkItem(cbor, 0);
    calls, frames := cursor.calls, cursor.deepest + 1;
    if r.Err? { return; }
    if cursor.pos != |cbor| {
      return Err(TrailingBytes(cursor.pos)), calls, frames;
    }
    return Ok(()), calls, frames;
  }
}
