/** What the walker accepts: exactly the printed forms of the items in the canonical profile. */
module CanonicalLanguage {
  import opened Base
  import opened Cbor
  import opened Canonical

  // ----- heads -----

  /** The reader undoes the writer, wherever the head stands. */
  lemma HeadReadBack(s: seq<byte>, pos: nat, major: nat, v: nat)
    requires major < 8 && v < TWO_64
    requires At(s, pos, Head(major, v))
    ensures pos < |s| && s[pos] / 32 == major && s[pos] % 32 <= 27
    ensures DecodeArgument(s, pos + 1, s[pos] % 32, pos) == Done(v, pos + |Head(major, v)|)
  {
    var h := Head(major, v);
    HeadShape(major, v);
    assert s[pos] == h[0] == 32 * major + ArgCode(v);
    assert s[pos..pos + |h|][1..] == s[pos + 1..pos + |h|];
  }

  /** Every head the reader accepts is the one the writer emits. */
  lemma HeadAccepted(s: seq<byte>, pos: nat)
    requires pos < |s| && s[pos] % 32 <= 27
    requires DecodeArgument(s, pos + 1, s[pos] % 32, pos).Done?
    ensures var r := DecodeArgument(s, pos + 1, s[pos] % 32, pos);
            && r.value < TWO_64
            && At(s, pos, Head(s[pos] / 32, r.value))
            && r.next == pos + |Head(s[pos] / 32, r.value)|
  {
    hide EncodeCborUintHeader, FromBE, ToBE, Pow256;
    var major, arg := s[pos] / 32, s[pos] % 32;
    var v := DecodeArgument(s, pos + 1, arg, pos).value;
    var n := ArgBytes(arg);
    DecodeArgumentBound(s, pos + 1, arg, pos);
    HeadShape(major, v);
    var w := s[pos + 1..pos + 1 + n];
    if arg >= 24 {
      ToBEFromBE(w);
      WidthDeterminesCode(arg, v);
    }
    assert Head(major, v) == [s[pos]] + w;
    assert s[pos..pos + 1 + n] == [s[pos]] + w;
  }

  lemma WidthDeterminesCode(arg: byte, v: nat)
    requires 24 <= arg <= 27 && MinimumFor(arg) <= v < Pow256(ArgBytes(arg))
    ensures ArgCode(v) == arg
  {
    Pow256Values();
  }

  lemma KeyReadBack(s: seq<byte>, pos: nat, key: u64, prev: Option<nat>)
    requires At(s, pos, Enc(UInt(key))) && Least(prev) <= key
    ensures DecodeKey(s, pos, prev) == Done(key, pos + |Enc(UInt(key))|)
  {
    HeadReadBack(s, pos, 0, key);
  }

  lemma KeyAccepted(s: seq<byte>, pos: nat, prev: Option<nat>)
    requires pos <= |s| && DecodeKey(s, pos, prev).Done?
    ensures var r := DecodeKey(s, pos, prev);
            && Least(prev) <= r.value < TWO_64
            && At(s, pos, Enc(UInt(r.value)))
            && r.next == pos + |Enc(UInt(r.value))|
  {
    HeadAccepted(s, pos);
  }

  /** The least key allowed after `prev`. */
  function Least(prev: Option<nat>): nat
  {
    if prev.None? then 0 else prev.value + 1
  }

  /** Numeric order of keys is bytewise order of their encodings (section 4.2.1 of RFC 8949). */
  lemma KeyOrderIsBytewise(a: u64, b: u64)
    ensures a < b <==> LexLess(Enc(UInt(a)), Enc(UInt(b)))
  {
    if a < b {
      SmallerKeyFirst(a, b);
    } else if b < a {
      SmallerKeyFirst(b, a);
      LexTotal(Enc(UInt(a)), Enc(UInt(b)));
    } else {
      LexTotal(Enc(UInt(a)), Enc(UInt(a)));
    }
  }

  lemma SmallerKeyFirst(a: u64, b: u64)
    requires a < b
    ensures LexLess(Head(0, a), Head(0, b))
  {
    HeadShape(0, a);
    HeadShape(0, b);
    if ArgCode(a) == ArgCode(b) {
      var n := ArgBytes(ArgCode(a));
      Pow256Values();
      BigEndianOrder(a, b, n);
      LexCommonPrefix([ArgCode(a)], ToBE(a, n), ToBE(b, n));
    }
  }

  lemma {:induction false} BigEndianOrder(a: nat, b: nat, n: nat)
    requires a < b < Pow256(n)
    ensures LexLess(ToBE(a, n), ToBE(b, n))
  {
    if a / 256 < b / 256 {
      BigEndianOrder(a / 256, b / 256, n - 1);
      LexExtend(ToBE(a / 256, n - 1), [a % 256], ToBE(b / 256, n - 1), [b % 256]);
    } else {
      LexCommonPrefix(ToBE(a / 256, n - 1), [a % 256], [b % 256]);
    }
  }

  lemma {:induction false} LexExtend(a: seq<byte>, x: seq<byte>, b: seq<byte>, y: seq<byte>)
    requires |a| == |b| && LexLess(a, b)
    ensures LexLess(a + x, b + y)
  {
    if a[0] == b[0] {
      LexExtend(a[1..], x, b[1..], y);
      assert (a + x)[1..] == a[1..] + x && (b + y)[1..] == b[1..] + y;
    }
  }

  // ----- decoding is sound -----

  lemma {:induction false} DecodeItemSound(s: seq<byte>, pos: nat, depth: nat)
    requires pos <= |s| && DecodeItem(s, pos, depth).Done?
    ensures var r := DecodeItem(s, pos, depth);
            && CanonicalAt(r.value, depth)
            && At(s, pos, Enc(r.value))
            && r.next == pos + |Enc(r.value)|
    decreases Levels(depth), 1
  {
    var major, arg := s[pos] / 32, s[pos] % 32;
    if major == 7 {
      assert s[pos..pos + 1] == [s[pos]];
    } else {
      HeadAccepted(s, pos);
      var (v, p) := DecodeArgument(s, pos + 1, arg, pos).Extract();
      DecodeBodySound(s, p, depth, major, v, pos);
      AtConcat(s, pos, Head(major, v), Split(DecodeBody(s, p, depth, major, v, pos).value).2);
    }
  }

  lemma {:induction false} DecodeBodySound(s: seq<byte>, pos: nat, depth: nat, major: nat, v: u64, off: nat)
    requires pos <= |s| && depth <= MAX_NESTING_DEPTH && major < 7
    requires DecodeBody(s, pos, depth, major, v, off).Done?
    ensures var r := DecodeBody(s, pos, depth, major, v, off);
            && CanonicalAt(r.value, depth)
            && Leading(r.value) == major
            && Split(r.value).1 == v
            && At(s, pos, Split(r.value).2)
            && r.next == pos + |Split(r.value).2|
    decreases Levels(depth), 0
  {
    hide Enc, EncItems, EncEntries, DecodeItems, DecodeEntries, Head;
    match major
    case 4 => DecodeItemsSound(s, pos, depth + 1, v);
    case 5 => DecodeEntriesSound(s, pos, depth + 1, v, None);
    case _ =>
  }

  lemma {:induction false} DecodeItemsSound(s: seq<byte>, pos: nat, depth: nat, count: nat)
    requires pos <= |s| && DecodeItems(s, pos, depth, count).Done?
    ensures var r := DecodeItems(s, pos, depth, count);
            && (forall k | 0 <= k < count :: CanonicalAt(r.value[k], depth))
            && At(s, pos, EncItems(r.value))
            && r.next == pos + |EncItems(r.value)|
    decreases Levels(depth), count + 3
  {
    hide Enc, DecodeItem, CanonicalAt;
    if count > 0 {
      var (i, p) := DecodeItem(s, pos, depth).Extract();
      var rest := DecodeItems(s, p, depth, count - 1).value;
      DecodeItemSound(s, pos, depth);
      DecodeItemsSound(s, p, depth, count - 1);
      AtConcat(s, pos, Enc(i), EncItems(rest));
      assert ([i] + rest)[1..] == rest;
    }
  }

  lemma {:induction false} DecodeEntriesSound(s: seq<byte>, pos: nat, depth: nat, count: nat, prev: Option<nat>)
    requires pos <= |s| && DecodeEntries(s, pos, depth, count, prev).Done?
    ensures var r := DecodeEntries(s, pos, depth, count, prev);
            && AscendingFrom(r.value, Least(prev))
            && (forall k | 0 <= k < count :: CanonicalAt(r.value[k].value, depth))
            && At(s, pos, EncEntries(r.value))
            && r.next == pos + |EncEntries(r.value)|
    decreases Levels(depth), count + 3
  {
    hide EncEntry, DecodeEntry, CanonicalAt;
    if count > 0 {
      var (e, q) := DecodeEntry(s, pos, depth, prev).Extract();
      var rest := DecodeEntries(s, q, depth, count - 1, Some(e.key.n)).value;
      DecodeEntrySound(s, pos, depth, prev);
      DecodeEntriesSound(s, q, depth, count - 1, Some(e.key.n));
      AtConcat(s, pos, EncEntry(e), EncEntries(rest));
      assert ([e] + rest)[1..] == rest;
    }
  }

  lemma {:induction false} DecodeEntrySound(s: seq<byte>, pos: nat, depth: nat, prev: Option<nat>)
    requires pos <= |s| && DecodeEntry(s, pos, depth, prev).Done?
    ensures var r := DecodeEntry(s, pos, depth, prev);
            && Least(prev) <= r.value.key.n
            && CanonicalAt(r.value.value, depth)
            && At(s, pos, EncEntry(r.value))
            && r.next == pos + |EncEntry(r.value)|
    decreases Levels(depth), 2
  {
    hide Enc, DecodeItem, DecodeKey, CanonicalAt;
    var e := DecodeEntry(s, pos, depth, prev).value;
    var (key, p) := DecodeKey(s, pos, prev).Extract();
    KeyAccepted(s, pos, prev);
    DecodeItemSound(s, p, depth);
    AtConcat(s, pos, Enc(e.key), Enc(e.value));
  }

  // ----- decoding is complete -----

  lemma {:induction false} DecodeItemComplete(i: Item, s: seq<byte>, pos: nat, depth: nat)
    requires CanonicalAt(i, depth) && At(s, pos, Enc(i))
    ensures DecodeItem(s, pos, depth) == Done(i, pos + |Enc(i)|)
    decreases i, 1
  {
    hide DecodeBody, Split;
    if Leading(i) == 7 {
      assert s[pos..pos + 1] == [s[pos]];
    } else {
      CanonicalSized(i, depth);
      var (major, v, r) := Split(i);
      AtConcat(s, pos, Head(major, v), r);
      HeadReadBack(s, pos, major, v);
      DecodeBodyComplete(i, s, pos + |Head(major, v)|, depth, pos);
    }
  }

  lemma {:induction false} DecodeBodyComplete(i: Item, s: seq<byte>, pos: nat, depth: nat, off: nat)
    requires CanonicalAt(i, depth) && Sized(i) && Leading(i) < 7 && At(s, pos, Split(i).2)
    ensures DecodeBody(s, pos, depth, Leading(i), Split(i).1, off) == Done(i, pos + |Split(i).2|)
    decreases i, 0
  {
    hide Enc, EncItems, EncEntries, DecodeItems, DecodeEntries, Head;
    match i
    case Arr(items) => DecodeItemsComplete(items, s, pos, depth + 1);
    case Map(entries) => DecodeEntriesComplete(entries, s, pos, depth + 1, None);
    case _ =>
  }

  lemma {:induction false} DecodeItemsComplete(items: seq<Item>, s: seq<byte>, pos: nat, depth: nat)
    requires forall k | 0 <= k < |items| :: CanonicalAt(items[k], depth)
    requires At(s, pos, EncItems(items))
    ensures DecodeItems(s, pos, depth, |items|) == Done(items, pos + |EncItems(items)|)
    decreases items, 0
  {
    hide Enc, DecodeItem, CanonicalAt;
    if items != [] {
      var i, rest := items[0], items[1..];
      AtConcat(s, pos, Enc(i), EncItems(rest));
      DecodeItemComplete(i, s, pos, depth);
      DecodeItemsComplete(rest, s, pos + |Enc(i)|, depth);
      assert items == [i] + rest;
    }
  }

  lemma {:induction false} DecodeEntriesComplete(
    entries: seq<Entry>, s: seq<byte>, pos: nat, depth: nat, prev: Option<nat>)
    requires AscendingFrom(entries, Least(prev))
    requires forall k | 0 <= k < |entries| :: CanonicalAt(entries[k].value, depth)
    requires At(s, pos, EncEntries(entries))
    ensures DecodeEntries(s, pos, depth, |entries|, prev) == Done(entries, pos + |EncEntries(entries)|)
    decreases entries, 0
  {
    hide EncEntry, DecodeEntry, CanonicalAt;
    if entries != [] {
      var e, rest := entries[0], entries[1..];
      AtConcat(s, pos, EncEntry(e), EncEntries(rest));
      DecodeEntryComplete(e, s, pos, depth, prev);
      DecodeEntriesComplete(rest, s, pos + |EncEntry(e)|, depth, Some(e.key.n));
      assert entries == [e] + rest;
    }
  }

  lemma {:induction false} DecodeEntryComplete(e: Entry, s: seq<byte>, pos: nat, depth: nat, prev: Option<nat>)
    requires e.key.UInt? && Least(prev) <= e.key.n && CanonicalAt(e.value, depth)
    requires At(s, pos, EncEntry(e))
    ensures DecodeEntry(s, pos, depth, prev) == Done(e, pos + |EncEntry(e)|)
    decreases e, 2
  {
    hide Enc, DecodeItem, DecodeKey, CanonicalAt;
    AtConcat(s, pos, Enc(e.key), Enc(e.value));
    KeyReadBack(s, pos, e.key.n, prev);
    DecodeItemComplete(e.value, s, pos + |Enc(e.key)|, depth);
  }

  // ----- the accepted language -----

  lemma AcceptsEncoding(i: Item)
    requires CanonicalAt(i, 0)
    ensures Validate(Enc(i)) == Ok(())
    ensures DecodeItem(Enc(i), 0, 0) == Done(i, |Enc(i)|)
  {
    assert Enc(i)[0..|Enc(i)|] == Enc(i);
    DecodeItemComplete(i, Enc(i), 0, 0);
  }

  /** The one item an accepted byte string stands for. */
  function ItemOf(b: seq<byte>): Item
    requires Validate(b).Ok?
  {
    DecodeItem(b, 0, 0).value
  }

  lemma AcceptedIsEncoding(b: seq<byte>)
    requires Validate(b).Ok?
    ensures CanonicalAt(ItemOf(b), 0) && b == Enc(ItemOf(b))
  {
    DecodeItemSound(b, 0, 0);
    assert b[0..|b|] == b;
  }

  ghost predicate PrintsCanonical(i: Item, b: seq<byte>)
  {
    CanonicalAt(i, 0) && b == Enc(i)
  }

  /** Main theorem: acceptance is membership in the canonical language, and the item is unique. */
  lemma AcceptsExactlyCanonical(b: seq<byte>)
    ensures Validate(b).Ok? <==> exists i :: PrintsCanonical(i, b)
    ensures forall i, j | PrintsCanonical(i, b) && PrintsCanonical(j, b) :: i == j
  {
    if Validate(b).Ok? {
      AcceptedIsEncoding(b);
      assert PrintsCanonical(ItemOf(b), b);
    }
    forall i | PrintsCanonical(i, b)
      ensures Validate(b).Ok? && DecodeItem(b, 0, 0) == Done(i, |b|)
    {
      AcceptsEncoding(i);
    }
  }

  /** A printed item is accepted only if the item itself is in the profile. */
  lemma EncodingAcceptedIff(i: Item)
    requires Sized(i)
    ensures Validate(Enc(i)).Ok? <==> CanonicalAt(i, 0)
  {
    if Validate(Enc(i)).Ok? {
      AcceptedIsEncoding(Enc(i));
      CanonicalSized(ItemOf(Enc(i)), 0);
      EncInjective(i, ItemOf(Enc(i)));
    } else if CanonicalAt(i, 0) {
      AcceptsEncoding(i);
    }
  }

  /** Appending anything to an accepted string is reported as trailing bytes at its end. */
  lemma ProperExtensionIsTrailing(b: seq<byte>, x: seq<byte>)
    requires Validate(b).Ok? && x != []
    ensures Validate(b + x) == Err(TrailingBytes(|b|))
  {
    AcceptedIsEncoding(b);
    assert (b + x)[0..|b|] == b;
    DecodeItemComplete(ItemOf(b), b + x, 0, 0);
  }
}
