/** Ascending key/value lists and the maps they stand for. */
module Pairs {
  import opened Base
  import opened Cbor
  import opened Fields

  const KEY_LIMIT: nat := 256

  function Pair(k: byte, o: Option<Item>): seq<Entry>
  {
    if o.Some? then [Entry(UInt(k), o.value)] else []
  }

  /** The entries of `m` with keys from `lo`, in ascending key order (iteration of a `BTreeMap`). */
  function Listing(m: Fields, lo: nat): (s: seq<Entry>)
    ensures |s| <= KEY_LIMIT
    ensures |s| + lo <= KEY_LIMIT || s == []
    decreases KEY_LIMIT - lo
  {
    if lo >= KEY_LIMIT then [] else Pair(lo, Lookup(m, lo)) + Listing(m, lo + 1)
  }

  lemma ListingStep(m: Fields, lo: nat)
    requires lo < KEY_LIMIT
    ensures Listing(m, lo) == Pair(lo, Lookup(m, lo)) + Listing(m, lo + 1)
  {
  }

  lemma NothingListed(m: Fields, lo: nat)
    requires lo >= KEY_LIMIT
    ensures Listing(m, lo) == []
  {
  }

  /** All keys are unsigned integers that fit a `u8`. */
  predicate ByteKeys(entries: seq<Entry>)
  {
    entries == [] || (entries[0].key.UInt? && entries[0].key.n < KEY_LIMIT && ByteKeys(entries[1..]))
  }

  function MapOf(entries: seq<Entry>): Fields
    requires ByteKeys(entries)
  {
    if entries == [] then map[] else MapOf(entries[1..])[entries[0].key.n := entries[0].value]
  }

  lemma {:induction false} ListingAscends(m: Fields, lo: nat)
    ensures AscendingFrom(Listing(m, lo), lo) && ByteKeys(Listing(m, lo))
    decreases KEY_LIMIT - lo
  {
    if lo < KEY_LIMIT {
      ListingAscends(m, lo + 1);
      if lo in m {
        assert Listing(m, lo)[1..] == Listing(m, lo + 1);
      } else {
        assert Listing(m, lo) == Listing(m, lo + 1);
        AscendingWeaken(Listing(m, lo + 1), lo + 1, lo);
      }
    }
  }

  lemma AscendingWeaken(entries: seq<Entry>, least: nat, lower: nat)
    requires AscendingFrom(entries, least) && lower <= least
    ensures AscendingFrom(entries, lower)
  {
  }

  lemma {:induction false} MapOfListing(m: Fields, lo: nat)
    ensures ByteKeys(Listing(m, lo))
    ensures forall k: byte :: Lookup(MapOf(Listing(m, lo)), k) == if k >= lo then Lookup(m, k) else None
    decreases KEY_LIMIT - lo
  {
    ListingAscends(m, lo);
    if lo < KEY_LIMIT {
      MapOfListing(m, lo + 1);
      var s, rest := Listing(m, lo), Listing(m, lo + 1);
      if lo in m {
        assert s[0] == Entry(UInt(lo), m[lo]) && s[1..] == rest;
      } else {
        assert s == rest;
      }
      forall k: byte ensures Lookup(MapOf(s), k) == if k >= lo then Lookup(m, k) else None {
        assert Lookup(MapOf(rest), k) == if k >= lo + 1 then Lookup(m, k) else None;
      }
    }
  }

  /** A listing determines its map. */
  lemma ListingInjective(m: Fields, m': Fields)
    requires Listing(m, 0) == Listing(m', 0)
    ensures m == m'
  {
    MapOfListing(m, 0);
    MapOfListing(m', 0);
    SameLookups(m, m');
  }

  lemma SameLookups(m: Fields, m': Fields)
    requires forall k: byte :: Lookup(m, k) == Lookup(m', k)
    ensures m == m'
  {
    assert forall k: byte :: (k in m) == Lookup(m, k).Some? == Lookup(m', k).Some? == (k in m');
    forall k | k in m ensures m[k] == m'[k] {
      assert Lookup(m, k) == Lookup(m', k);
    }
  }

  lemma {:induction false} ListingLocal(m: Fields, m': Fields, lo: nat)
    requires forall k: byte | lo <= k :: Lookup(m, k) == Lookup(m', k)
    ensures Listing(m, lo) == Listing(m', lo)
    decreases KEY_LIMIT - lo
  {
    hide Lookup;
    if lo < KEY_LIMIT {
      ListingLocal(m, m', lo + 1);
    }
  }

  lemma {:induction false} ListingSkips(m: Fields, lo: nat, hi: nat)
    requires lo <= hi && forall k | k in m :: k >= hi
    ensures Listing(m, lo) == Listing(m, hi)
    decreases hi - lo
  {
    if lo < hi && lo < KEY_LIMIT {
      ListingSkips(m, lo + 1, hi);
    }
  }

  /** An ascending list is the listing of its map. */
  lemma {:induction false} ListingOfMap(entries: seq<Entry>, lo: nat)
    requires AscendingFrom(entries, lo) && ByteKeys(entries)
    ensures Listing(MapOf(entries), lo) == entries
    decreases KEY_LIMIT - lo
  {
    var m := MapOf(entries);
    MapOfKeys(entries, lo);
    if entries == [] {
      ListingSkips(m, lo, if lo < KEY_LIMIT then KEY_LIMIT else lo);
    } else {
      var first := entries[0].key.n;
      ListingSkips(m, lo, first);
      ListingOfMap(entries[1..], first + 1);
      MapOfKeys(entries[1..], first + 1);
      ListingLocal(m, MapOf(entries[1..]), first + 1);
      assert entries == [entries[0]] + entries[1..];
    }
  }

  lemma {:induction false} MapOfKeys(entries: seq<Entry>, lo: nat)
    requires AscendingFrom(entries, lo) && ByteKeys(entries)
    ensures forall k | k in MapOf(entries) :: lo <= k
    ensures entries != [] ==> forall k | k in MapOf(entries) :: entries[0].key.n <= k
  {
    if entries != [] {
      MapOfKeys(entries[1..], entries[0].key.n + 1);
    }
  }
}
