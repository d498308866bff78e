/** Definite-length CBOR items (section 3 of RFC 8949), their shortest-form printer, and the
    proof that the printed form is self-delimiting. */
module Cbor {
  import opened Base

  /** The payload of a half, single or double precision float. */
  type FloatBits = s: seq<byte> | |s| == 2 || |s| == 4 || |s| == 8 witness [0, 0]

  /** The simple values without an assigned meaning (section 3.3 of RFC 8949); 20 to 23 are the
      four below, and 24 to 31 have no encoding. */
  type SimpleCode = n: byte | n < 20 || n >= 32 witness 0

  datatype Item =
    | UInt(n: u64)
    | NInt(n: u64)
    | Bytes(b: Vec)
    | Text(t: Vec)
    | Arr(items: seq<Item>)
    | Map(entries: seq<Entry>)
    | Tag(tag: u64, item: Item)
    | Bool(v: bool)
    | Null
    | Undefined
    | Float(bits: FloatBits)
    | Simple(code: SimpleCode)

  datatype Entry = Entry(key: Item, value: Item)

  /** Every array and map has a count that fits its 64-bit head, as any `Vec` does. */
  ghost predicate Sized(i: Item)
  {
    match i
    case Arr(items) => |items| < TWO_64 && forall k | 0 <= k < |items| :: Sized(items[k])
    case Map(entries) =>
      && |entries| < TWO_64
      && forall k | 0 <= k < |entries| :: Sized(entries[k].key) && Sized(entries[k].value)
    case Tag(_, item) => Sized(item)
    case _ => true
  }

  /** A CBOR head in shortest form: `majorTypeByte` carries the major type in its top three bits. */
  function EncodeCborUintHeader(majorTypeByte: byte, value: nat): (h: seq<byte>)
    ensures 1 <= |h| <= 9
  {
    var initial := majorTypeByte / 32 * 32;
    if value < 24 then [initial + value]
    else if value < TWO_8 then [initial + 24] + ToBE(value, 1)
    else if value < TWO_16 then [initial + 25] + ToBE(value, 2)
    else if value < TWO_32 then [initial + 26] + ToBE(value, 4)
    else [initial + 27] + ToBE(value, 8)
  }

  function Head(major: nat, value: nat): seq<byte>
    requires major < 8
  {
    EncodeCborUintHeader(32 * major, value)
  }

  function Enc(i: Item): (s: seq<byte>)
    ensures |s| >= 1
    decreases i, 1
  {
    match i
    case UInt(n) => Head(0, n)
    case NInt(n) => Head(1, n)
    case Bytes(b) => Head(2, |b|) + b
    case Text(t) => Head(3, |t|) + t
    case Arr(items) => Head(4, |items|) + EncItems(items)
    case Map(entries) => Head(5, |entries|) + EncEntries(entries)
    case Tag(tag, item) => Head(6, tag) + Enc(item)
    case Bool(v) => [if v then 0xF5 else 0xF4]
    case Null => [0xF6]
    case Undefined => [0xF7]
    case Float(bits) => [if |bits| == 2 then 0xF9 else if |bits| == 4 then 0xFA else 0xFB] + bits
    case Simple(code) => if code < 20 then [0xE0 + code] else [0xF8, code]
  }

  function EncItems(items: seq<Item>): seq<byte>
    decreases items, 0
  {
    if items == [] then [] else Enc(items[0]) + EncItems(items[1..])
  }

  function EncEntries(entries: seq<Entry>): seq<byte>
    decreases entries, 0
  {
    if entries == [] then [] else EncEntry(entries[0]) + EncEntries(entries[1..])
  }

  function EncEntry(e: Entry): seq<byte>
    decreases e, 2
  {
    Enc(e.key) + Enc(e.value)
  }

  lemma {:induction false} EncItemsConcat(xs: seq<Item>, ys: seq<Item>)
    ensures EncItems(xs + ys) == EncItems(xs) + EncItems(ys)
  {
    if xs == [] {
      assert xs + ys == ys;
    } else {
      assert (xs + ys)[0] == xs[0] && (xs + ys)[1..] == xs[1..] + ys;
      EncItemsConcat(xs[1..], ys);
      ConcatAssociative(Enc(xs[0]), EncItems(xs[1..]), EncItems(ys));
    }
  }

  lemma {:induction false} EncEntriesConcat(xs: seq<Entry>, ys: seq<Entry>)
    ensures EncEntries(xs + ys) == EncEntries(xs) + EncEntries(ys)
  {
    if xs == [] {
      assert xs + ys == ys;
    } else {
      assert (xs + ys)[0] == xs[0] && (xs + ys)[1..] == xs[1..] + ys;
      EncEntriesConcat(xs[1..], ys);
      ConcatAssociative(EncEntry(xs[0]), EncEntries(xs[1..]), EncEntries(ys));
    }
  }

  // ----- self-delimitation -----

  /** Two heads that start the same byte string are the same head. */
  lemma HeadPrefixFree(m: nat, v: nat, x: seq<byte>, m': nat, v': nat, x': seq<byte>)
    requires m < 8 && m' < 8 && v < TWO_64 && v' < TWO_64
    requires Head(m, v) + x == Head(m', v') + x'
    ensures m == m' && v == v' && x == x'
  {
    var h, h' := Head(m, v), Head(m', v');
    assert (h + x)[0] == h[0] && (h' + x')[0] == h'[0];
    assert |h| == |h'|;
    assert h == (h + x)[..|h|] && h' == (h' + x')[..|h|];
    assert x == (h + x)[|h|..] && x' == (h' + x')[|h|..];
    HeadInjective(m, v, m', v');
  }

  lemma HeadInjective(m: nat, v: nat, m': nat, v': nat)
    requires m < 8 && m' < 8 && v < TWO_64 && v' < TWO_64
    requires Head(m, v) == Head(m', v')
    ensures m == m' && v == v'
  {
    HeadShape(m, v);
    HeadShape(m', v');
  }

  /** The five widths a head argument may have: the additional-info code of `value`. */
  function ArgCode(value: nat): (c: nat)
    ensures c <= 27
  {
    if value < 24 then value
    else if value < TWO_8 then 24
    else if value < TWO_16 then 25
    else if value < TWO_32 then 26
    else 27
  }

  function ArgBytes(code: nat): nat
  {
    if code < 24 then 0 else if code == 24 then 1 else if code == 25 then 2 else if code == 26 then 4 else 8
  }

  lemma HeadShape(m: nat, v: nat)
    requires m < 8 && v < TWO_64
    ensures Head(m, v) == [32 * m + ArgCode(v)] + ToBE(v, ArgBytes(ArgCode(v)))
    ensures |Head(m, v)| == 1 + ArgBytes(ArgCode(v))
    ensures Head(m, v)[0] == 32 * m + ArgCode(v)
    ensures v >= 24 ==> FromBE(Head(m, v)[1..]) == v
  {
    var n := ArgBytes(ArgCode(v));
    assert Head(m, v) == [32 * m + ArgCode(v)] + ToBE(v, n);
    assert Head(m, v)[1..] == ToBE(v, n);
    if v >= 24 {
      Pow256Values();
      FromBEToBE(v, n);
    }
  }

  /** CBOR is uniquely decodable: no item's encoding is a proper prefix of another's. */
  lemma {:induction false} EncPrefixFree(i: Item, x: seq<byte>, j: Item, y: seq<byte>)
    requires Sized(i) && Sized(j)
    requires Enc(i) + x == Enc(j) + y
    ensures i == j && x == y
    decreases i, 1
  {
    assert (Enc(i) + x)[0] == Enc(i)[0] && (Enc(j) + y)[0] == Enc(j)[0];
    assert Leading(i) == Leading(j);
    if Leading(i) < 7 {
      SplitPrefixFree(i, x, j, y);
      var r, r' := Split(i).2, Split(j).2;
      match i
      case UInt(_) => assert r + x == x && r' + y == y;
      case NInt(_) => assert r + x == x && r' + y == y;
      case Bytes(b) => SameLengthPrefix(r, x, r', y);
      case Text(t) => SameLengthPrefix(r, x, r', y);
      case Arr(items) => EncItemsPrefixFree(items, x, j.items, y);
      case Map(entries) => EncEntriesPrefixFree(entries, x, j.entries, y);
      case Tag(_, item) => EncPrefixFree(item, x, j.item, y);
    } else {
      SimplePrefixFree(i, x, j, y);
    }
  }

  lemma SplitPrefixFree(i: Item, x: seq<byte>, j: Item, y: seq<byte>)
    requires Sized(i) && Sized(j) && Leading(i) < 7 && Leading(j) < 7
    requires Enc(i) + x == Enc(j) + y
    ensures Split(i).0 == Split(j).0 && Split(i).1 == Split(j).1
    ensures Split(i).2 + x == Split(j).2 + y
  {
    var (m, v, r) := Split(i);
    var (m', v', r') := Split(j);
    ConcatAssociative(Head(m, v), r, x);
    ConcatAssociative(Head(m', v'), r', y);
    HeadPrefixFree(m, v, r + x, m', v', r' + y);
  }

  lemma SimplePrefixFree(i: Item, x: seq<byte>, j: Item, y: seq<byte>)
    requires Leading(i) == Leading(j) == 7
    requires Enc(i) + x == Enc(j) + y
    ensures i == j && x == y
  {
    assert (Enc(i) + x)[0] == Enc(i)[0] && (Enc(j) + y)[0] == Enc(j)[0];
    assert |Enc(i)| == |Enc(j)|;
    SameLengthPrefix(Enc(i), x, Enc(j), y);
    if i.Float? {
      assert Enc(i)[1..] == i.bits && Enc(j)[1..] == j.bits;
    } else if i.Simple? && i.code >= 32 {
      assert Enc(i)[1] == i.code && Enc(j)[1] == j.code;
    }
  }

  lemma {:induction false} EncItemsPrefixFree(xs: seq<Item>, x: seq<byte>, ys: seq<Item>, y: seq<byte>)
    requires |xs| == |ys|
    requires forall k | 0 <= k < |xs| :: Sized(xs[k]) && Sized(ys[k])
    requires EncItems(xs) + x == EncItems(ys) + y
    ensures xs == ys && x == y
    decreases xs, 0
  {
    if xs == [] {
      assert EncItems(xs) + x == x && EncItems(ys) + y == y;
    } else {
      ConcatAssociative(Enc(xs[0]), EncItems(xs[1..]), x);
      ConcatAssociative(Enc(ys[0]), EncItems(ys[1..]), y);
      EncPrefixFree(xs[0], EncItems(xs[1..]) + x, ys[0], EncItems(ys[1..]) + y);
      EncItemsPrefixFree(xs[1..], x, ys[1..], y);
      assert xs == [xs[0]] + xs[1..] && ys == [ys[0]] + ys[1..];
    }
  }

  lemma {:induction false} EncEntriesPrefixFree(xs: seq<Entry>, x: seq<byte>, ys: seq<Entry>, y: seq<byte>)
    requires |xs| == |ys|
    requires forall k | 0 <= k < |xs| ::
               Sized(xs[k].key) && Sized(xs[k].value) && Sized(ys[k].key) && Sized(ys[k].value)
    requires EncEntries(xs) + x == EncEntries(ys) + y
    ensures xs == ys && x == y
    decreases xs, 0
  {
    if xs == [] {
      assert EncEntries(xs) + x == x && EncEntries(ys) + y == y;
    } else {
      ConcatAssociative(EncEntry(xs[0]), EncEntries(xs[1..]), x);
      ConcatAssociative(EncEntry(ys[0]), EncEntries(ys[1..]), y);
      EncEntryPrefixFree(xs[0], EncEntries(xs[1..]) + x, ys[0], EncEntries(ys[1..]) + y);
      EncEntriesPrefixFree(xs[1..], x, ys[1..], y);
      assert xs == [xs[0]] + xs[1..] && ys == [ys[0]] + ys[1..];
    }
  }

  lemma {:induction false} EncEntryPrefixFree(e: Entry, x: seq<byte>, f: Entry, y: seq<byte>)
    requires Sized(e.key) && Sized(e.value) && Sized(f.key) && Sized(f.value)
    requires EncEntry(e) + x == EncEntry(f) + y
    ensures e == f && x == y
    decreases e, 2
  {
    ConcatAssociative(Enc(e.key), Enc(e.value), x);
    ConcatAssociative(Enc(f.key), Enc(f.value), y);
    EncPrefixFree(e.key, Enc(e.value) + x, f.key, Enc(f.value) + y);
    EncPrefixFree(e.value, x, f.value, y);
  }

  lemma EncInjective(i: Item, j: Item)
    requires Sized(i) && Sized(j)
    requires Enc(i) == Enc(j)
    ensures i == j
  {
    assert Enc(i) + [] == Enc(i) && Enc(j) + [] == Enc(j);
    EncPrefixFree(i, [], j, []);
  }

  lemma SameLengthPrefix(a: seq<byte>, x: seq<byte>, b: seq<byte>, y: seq<byte>)
    requires |a| == |b| && a + x == b + y
    ensures a == b && x == y
  {
    assert a == (a + x)[..|a|] && b == (b + y)[..|a|];
    assert x == (a + x)[|a|..] && y == (b + y)[|a|..];
  }

  /** The major type of an item. */
  function Leading(i: Item): (m: nat)
    ensures m == Enc(i)[0] / 32 && m < 8
  {
    match i
    case UInt(_) => 0
    case NInt(_) => 1
    case Bytes(_) => 2
    case Text(_) => 3
    case Arr(_) => 4
    case Map(_) => 5
    case Tag(_, _) => 6
    case _ => 7
  }

  /** Major type, head argument and the bytes after the head. */
  function Split(i: Item): (r: (nat, nat, seq<byte>))
    requires Leading(i) < 7
    ensures r.0 == Leading(i) && Enc(i) == Head(r.0, r.1) + r.2
    ensures Sized(i) ==> r.1 < TWO_64
  {
    match i
    case UInt(n) => (0, n, [])
    case NInt(n) => (1, n, [])
    case Bytes(b) => (2, |b|, b)
    case Text(t) => (3, |t|, t)
    case Arr(items) => (4, |items|, EncItems(items))
    case Map(entries) => (5, |entries|, EncEntries(entries))
    case Tag(tag, item) => (6, tag, Enc(item))
  }

  // ----- the Komms canonical profile -----

  const MAX_NESTING_DEPTH: nat := 8

  /** The keys are unsigned integers in strictly ascending order, none below `least`. */
  predicate AscendingFrom(entries: seq<Entry>, least: nat)
  {
    entries == [] ||
    (entries[0].key.UInt? && least <= entries[0].key.n && AscendingFrom(entries[1..], entries[0].key.n + 1))
  }

  lemma {:induction false} AscendingAt(entries: seq<Entry>, least: nat, k: nat)
    requires AscendingFrom(entries, least) && k < |entries|
    ensures entries[k].key.UInt? && least + k <= entries[k].key.n
  {
    if k > 0 {
      AscendingAt(entries[1..], entries[0].key.n + 1, k - 1);
    }
  }

  /** `i`, met `depth` containers below the root, stays within the profile: no tag, no float, no unassigned
      simple value, ascending unsigned map keys, and nothing below depth 8. */
  ghost predicate CanonicalAt(i: Item, depth: nat)
  {
    && depth <= MAX_NESTING_DEPTH
    && match i
       case Arr(items) => |items| < TWO_64 && forall k | 0 <= k < |items| :: CanonicalAt(items[k], depth + 1)
       case Map(entries) =>
         && |entries| < TWO_64
         && AscendingFrom(entries, 0)
         && forall k | 0 <= k < |entries| :: CanonicalAt(entries[k].value, depth + 1)
       case Tag(_, _) => false
       case Float(_) => false
       case Simple(_) => false
       case _ => true
  }

  lemma {:induction false} CanonicalSized(i: Item, depth: nat)
    requires CanonicalAt(i, depth)
    ensures Sized(i)
  {
    match i
    case Arr(items) =>
      forall k | 0 <= k < |items| ensures Sized(items[k]) { CanonicalSized(items[k], depth + 1); }
    case Map(entries) =>
      forall k | 0 <= k < |entries| ensures Sized(entries[k].key) && Sized(entries[k].value) {
        AscendingAt(entries, 0, k);
        CanonicalSized(entries[k].value, depth + 1);
      }
    case _ =>
  }
}
