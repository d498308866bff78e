/** CBOR values as the program holds them (`ciborium::Value`), next to the items of the wire. */
module Values {
  import opened Base
  import opened Cbor

  predicate Continuation(b: byte) { 0x80 <= b <= 0xBF }

  /** Well-formed UTF-8 (section 4 of RFC 3629). */
  predicate ValidUtf8(s: seq<byte>)
  {
    if s == [] then true
    else if s[0] < 0x80 then ValidUtf8(s[1..])
    else if 0xC2 <= s[0] <= 0xDF then |s| >= 2 && Continuation(s[1]) && ValidUtf8(s[2..])
    else if 0xE0 <= s[0] <= 0xEF then
      && |s| >= 3 && Continuation(s[1]) && Continuation(s[2])
      && (s[0] == 0xE0 ==> 0xA0 <= s[1]) && (s[0] == 0xED ==> s[1] <= 0x9F)
      && ValidUtf8(s[3..])
    else if 0xF0 <= s[0] <= 0xF4 then
      && |s| >= 4 && Continuation(s[1]) && Continuation(s[2]) && Continuation(s[3])
      && (s[0] == 0xF0 ==> 0x90 <= s[1]) && (s[0] == 0xF4 ==> s[1] <= 0x8F)
      && ValidUtf8(s[4..])
    else false
  }

  /** A Rust `String`, as its UTF-8 bytes. */
  type Utf8String = t: Vec | ValidUtf8(t) witness []

  /** Every text string inside `i` is UTF-8. */
  predicate TextsValid(i: Item)
  {
    match i
    case Text(t) => ValidUtf8(t)
    case Arr(items) => forall k | 0 <= k < |items| :: TextsValid(items[k])
    case Map(entries) => forall k | 0 <= k < |entries| :: TextsValid(entries[k].key) && TextsValid(entries[k].value)
    case Tag(_, item) => TextsValid(item)
    case _ => true
  }

  /** A simple value the program has no counterpart for: `undefined`, or an unassigned one, which
      the canonical profile keeps off the wire. */
  predicate HasUndefined(i: Item)
  {
    match i
    case Undefined => true
    case Simple(_) => true
    case Arr(items) => exists k | 0 <= k < |items| :: HasUndefined(items[k])
    case Map(entries) =>
      exists k | 0 <= k < |entries| :: HasUndefined(entries[k].key) || HasUndefined(entries[k].value)
    case Tag(_, item) => HasUndefined(item)
    case _ => false
  }

  /** A value of the program, of 64-bit sizes and with UTF-8 texts. */
  ghost predicate IsValue(i: Item)
  {
    Sized(i) && TextsValid(i) && !HasUndefined(i)
  }

  type Value = i: Item | IsValue(i) witness Null

  /** Decoding reads the simple value `undefined` as null; canonical items hold no unassigned one. */
  function Collapse(i: Item): (v: Item)
    ensures !HasUndefined(v)
    ensures Sized(i) ==> Sized(v)
    ensures TextsValid(i) ==> TextsValid(v)
    ensures Leading(v) == Leading(i) && (Leading(i) < 4 ==> v == i) && (v.Bool? ==> v == i)
  {
    match i
    case Undefined | Simple(_) => Null
    case Arr(items) => Arr(seq(|items|, k requires 0 <= k < |items| => Collapse(items[k])))
    case Map(entries) =>
      Map(seq(|entries|, k requires 0 <= k < |entries| =>
            Entry(Collapse(entries[k].key), Collapse(entries[k].value))))
    case Tag(tag, item) => Tag(tag, Collapse(item))
    case _ => i
  }

  /** Decoding is faithful exactly on items without `undefined`. */
  lemma {:induction false} CollapseIdentity(i: Item)
    ensures Collapse(i) == i <==> !HasUndefined(i)
  {
    if !HasUndefined(i) {
      CollapseKeeps(i);
    }
  }

  lemma {:induction false} CollapseKeeps(i: Item)
    requires !HasUndefined(i)
    ensures Collapse(i) == i
  {
    match i
    case Arr(items) =>
      forall k | 0 <= k < |items| ensures Collapse(items[k]) == items[k] { CollapseKeeps(items[k]); }
      assert Collapse(i).items == items;
    case Map(entries) =>
      forall k | 0 <= k < |entries|
        ensures Entry(Collapse(entries[k].key), Collapse(entries[k].value)) == entries[k]
      {
        CollapseKeeps(entries[k].key);
        CollapseKeeps(entries[k].value);
      }
      assert Collapse(i).entries == entries;
    case Tag(_, item) => CollapseKeeps(item);
    case _ =>
  }

  lemma {:induction false} CollapseCanonical(i: Item, depth: nat)
    requires CanonicalAt(i, depth)
    ensures CanonicalAt(Collapse(i), depth)
  {
    match i
    case Arr(items) =>
      forall k | 0 <= k < |items| ensures CanonicalAt(Collapse(items[k]), depth + 1) {
        CollapseCanonical(items[k], depth + 1);
      }
    case Map(entries) =>
      forall k | 0 <= k < |entries| ensures CanonicalAt(Collapse(entries[k].value), depth + 1) {
        CollapseCanonical(entries[k].value, depth + 1);
      }
      CollapseAscending(entries, Collapse(i).entries, 0);
    case _ =>
  }

  lemma {:induction false} CollapseAscending(entries: seq<Entry>, collapsed: seq<Entry>, least: nat)
    requires |collapsed| == |entries|
    requires forall k | 0 <= k < |entries| :: collapsed[k].key == Collapse(entries[k].key)
    requires AscendingFrom(entries, least)
    ensures AscendingFrom(collapsed, least)
  {
    if entries != [] {
      CollapseAscending(entries[1..], collapsed[1..], entries[0].key.n + 1);
    }
  }
}
