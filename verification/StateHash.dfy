/** The plurality state hash of crypto/src/state_hash.rs. */
module StateHash {
  import opened Base
  import opened Cbor
  import opened Canonical
  import opened CanonicalLanguage
  import opened Hashing

  datatype ProjectedEvent = ProjectedEvent(txId: Bytes32, canonicalCbor: Vec)

  type Block = s: seq<ProjectedEvent> | |s| < TWO_64

  // ----- sorting by transaction id -----

  /** Inserts `e` behind every event that does not come after it. */
  function Insert(e: ProjectedEvent, s: seq<ProjectedEvent>): (r: seq<ProjectedEvent>)
    ensures |r| == |s| + 1
  {
    if s == [] || !LexLess(e.txId, s[|s| - 1].txId) then s + [e]
    else Insert(e, s[..|s| - 1]) + [s[|s| - 1]]
  }

  /** The stable sort by `tx_id`. */
  function SortByTxId(events: seq<ProjectedEvent>): (r: seq<ProjectedEvent>)
    ensures |r| == |events|
  {
    if events == [] then [] else Insert(events[|events| - 1], SortByTxId(events[..|events| - 1]))
  }

  predicate Sorted(s: seq<ProjectedEvent>)
  {
    forall i, j | 0 <= i < j < |s| :: !LexLess(s[j].txId, s[i].txId)
  }

  /** The events with one transaction id, in the order given. */
  function Group(s: seq<ProjectedEvent>, txId: Bytes32): seq<ProjectedEvent>
  {
    if s == [] then [] else (if s[0].txId == txId then [s[0]] else []) + Group(s[1..], txId)
  }

  lemma {:induction false} GroupConcat(s: seq<ProjectedEvent>, r: seq<ProjectedEvent>, txId: Bytes32)
    ensures Group(s + r, txId) == Group(s, txId) + Group(r, txId)
  {
    if s == [] {
      assert s + r == r;
    } else {
      assert (s + r)[0] == s[0] && (s + r)[1..] == s[1..] + r;
      GroupConcat(s[1..], r, txId);
      ConcatAssociative(if s[0].txId == txId then [s[0]] else [], Group(s[1..], txId), Group(r, txId));
    }
  }

  lemma GroupSnoc(s: seq<ProjectedEvent>, e: ProjectedEvent, txId: Bytes32)
    ensures Group(s + [e], txId) == Group(s, txId) + (if e.txId == txId then [e] else [])
  {
    GroupConcat(s, [e], txId);
    assert [e][1..] == [];
  }

  lemma {:induction false} InsertGroup(e: ProjectedEvent, s: seq<ProjectedEvent>, txId: Bytes32)
    ensures Group(Insert(e, s), txId) == Group(s + [e], txId)
  {
    GroupSnoc(s, e, txId);
    if s != [] && LexLess(e.txId, s[|s| - 1].txId) {
      var init, last := s[..|s| - 1], s[|s| - 1];
      assert s == init + [last];
      LexTotal(e.txId, last.txId);
      InsertGroup(e, init, txId);
      GroupSnoc(init, e, txId);
      GroupSnoc(init, last, txId);
      GroupSnoc(Insert(e, init), last, txId);
    }
  }

  /** Sorting keeps every group as it was: nothing is lost, and equal ids keep their order. */
  lemma {:induction false} SortGroup(events: seq<ProjectedEvent>, txId: Bytes32)
    ensures Group(SortByTxId(events), txId) == Group(events, txId)
  {
    if events != [] {
      var init, last := events[..|events| - 1], events[|events| - 1];
      assert events == init + [last];
      SortGroup(init, txId);
      InsertGroup(last, SortByTxId(init), txId);
      GroupSnoc(SortByTxId(init), last, txId);
      GroupSnoc(init, last, txId);
    }
  }

  lemma {:induction false} InsertSorted(e: ProjectedEvent, s: seq<ProjectedEvent>)
    requires Sorted(s)
    ensures Sorted(Insert(e, s))
    ensures forall x | x in Insert(e, s) :: x == e || x in s
  {
    if s != [] {
      var init, last := s[..|s| - 1], s[|s| - 1];
      assert s == init + [last];
      if LexLess(e.txId, last.txId) {
        InsertSorted(e, init);
        var r := Insert(e, init);
        LexTotal(e.txId, last.txId);
        forall i | 0 <= i < |r| ensures !LexLess(last.txId, r[i].txId) {
          assert r[i] in r;
        }
      } else {
        forall i | 0 <= i < |s| ensures !LexLess(e.txId, s[i].txId) {
          NotLessTransitive(s[i].txId, last.txId, e.txId);
        }
      }
    }
  }

  lemma NotLessTransitive(a: seq<byte>, b: seq<byte>, c: seq<byte>)
    requires (a == b || !LexLess(b, a)) && !LexLess(c, b)
    ensures !LexLess(c, a)
  {
    LexTotal(a, b);
    LexTotal(b, c);
    LexTotal(a, c);
    if LexLess(a, b) && LexLess(b, c) {
      LexTransitive(a, b, c);
    }
  }

  lemma {:induction false} SortSorted(events: seq<ProjectedEvent>)
    ensures Sorted(SortByTxId(events))
  {
    if events != [] {
      SortSorted(events[..|events| - 1]);
      InsertSorted(events[|events| - 1], SortByTxId(events[..|events| - 1]));
    }
  }

  lemma {:induction false} GroupMember(s: seq<ProjectedEvent>, txId: Bytes32, k: nat)
    requires k < |s| && s[k].txId == txId
    ensures Group(s, txId) != []
  {
    if k > 0 {
      GroupMember(s[1..], txId, k - 1);
    }
  }

  lemma {:induction false} GroupWitness(s: seq<ProjectedEvent>, txId: Bytes32) returns (k: nat)
    requires Group(s, txId) != []
    ensures k < |s| && s[k].txId == txId
  {
    if s[0].txId == txId {
      k := 0;
    } else {
      k := GroupWitness(s[1..], txId);
      k := k + 1;
    }
  }

  /** Every transaction id has the same events in the same order in both lists. */
  ghost predicate SameGroups(a: seq<ProjectedEvent>, b: seq<ProjectedEvent>)
  {
    forall txId: Bytes32 :: Group(a, txId) == Group(b, txId)
  }

  /** A sorted list is determined by its groups. */
  lemma {:induction false} SortedUnique(s: seq<ProjectedEvent>, r: seq<ProjectedEvent>)
    requires Sorted(s) && Sorted(r)
    requires SameGroups(s, r)
    ensures s == r
  {
    if s == [] {
      if r != [] {
        GroupMember(r, r[0].txId, 0);
        assert false;
      }
    } else {
      SameHead(s, r);
      forall txId: Bytes32 ensures Group(s[1..], txId) == Group(r[1..], txId) {
        assert Group(s, txId) == Group(r, txId);
        var h: seq<ProjectedEvent> := if s[0].txId == txId then [s[0]] else [];
        assert h + Group(s[1..], txId) == h + Group(r[1..], txId);
        assert (h + Group(s[1..], txId))[|h|..] == Group(s[1..], txId);
        assert (h + Group(r[1..], txId))[|h|..] == Group(r[1..], txId);
      }
      SortedUnique(s[1..], r[1..]);
      assert s == [s[0]] + s[1..] && r == [r[0]] + r[1..];
    }
  }

  lemma SameHead(s: seq<ProjectedEvent>, r: seq<ProjectedEvent>)
    requires Sorted(s) && Sorted(r) && s != []
    requires SameGroups(s, r)
    ensures r != [] && r[0] == s[0]
  {
    var t := s[0].txId;
    GroupMember(s, t, 0);
    assert Group(s, t) == Group(r, t);
    var k := GroupWitness(r, t);
    var u := r[0].txId;
    GroupMember(r, u, 0);
    assert Group(s, u) == Group(r, u);
    var l := GroupWitness(s, u);
    LexTotal(t, u);
    assert Group(s, t)[0] == s[0] && (t == u ==> Group(r, u)[0] == r[0]);
  }

  /** Main theorem: two lists sort to the same list exactly when every transaction id has the same
      events in the same order in both. */
  lemma SameSortIff(a: seq<ProjectedEvent>, b: seq<ProjectedEvent>)
    ensures SortByTxId(a) == SortByTxId(b) <==> SameGroups(a, b)
  {
    hide SortByTxId, Group;
    forall txId: Bytes32
      ensures Group(SortByTxId(a), txId) == Group(a, txId) && Group(SortByTxId(b), txId) == Group(b, txId)
    {
      SortGroup(a, txId);
      SortGroup(b, txId);
    }
    if SameGroups(a, b) {
      SortSorted(a);
      SortSorted(b);
      SortedUnique(SortByTxId(a), SortByTxId(b));
    }
  }

  // ----- permutations -----

  ghost predicate DistinctTxIds(s: seq<ProjectedEvent>)
  {
    forall i, j | 0 <= i < j < |s| :: s[i].txId != s[j].txId
  }

  /** With distinct ids a group is at most the one event that carries the id. */
  lemma {:induction false} GroupOfDistinct(s: seq<ProjectedEvent>, txId: Bytes32)
    requires DistinctTxIds(s)
    ensures |Group(s, txId)| <= 1
    ensures forall e :: e in Group(s, txId) <==> e in s && e.txId == txId
  {
    if s != [] {
      GroupOfDistinct(s[1..], txId);
      assert forall e :: e in s <==> e == s[0] || e in s[1..];
      if s[0].txId == txId {
        GroupAbsent(s[1..], txId);
      }
    }
  }

  lemma {:induction false} GroupAbsent(s: seq<ProjectedEvent>, txId: Bytes32)
    requires forall k | 0 <= k < |s| :: s[k].txId != txId
    ensures Group(s, txId) == []
  {
    if s != [] {
      GroupAbsent(s[1..], txId);
    }
  }

  /** Main theorem: with distinct transaction ids the order of the events given is irrelevant. */
  lemma PermutationInvariant(a: seq<ProjectedEvent>, b: seq<ProjectedEvent>)
    requires DistinctTxIds(a) && DistinctTxIds(b)
    requires forall e :: e in a <==> e in b
    ensures SortByTxId(a) == SortByTxId(b)
  {
    forall txId: Bytes32 ensures Group(a, txId) == Group(b, txId) {
      GroupOfDistinct(a, txId);
      GroupOfDistinct(b, txId);
      SameSmallList(Group(a, txId), Group(b, txId));
    }
    SameSortIff(a, b);
  }

  lemma SameSmallList<T>(s: seq<T>, r: seq<T>)
    requires |s| <= 1 && |r| <= 1
    requires forall e :: e in s <==> e in r
    ensures s == r
  {
    if s != [] {
      assert s[0] in r;
    }
    if r != [] {
      assert r[0] in s;
    }
  }

  // ----- the hash of a block -----

  /** The ASCII bytes of `KOMMS_STATE_GENESIS_v1.1`. */
  const GENESIS_DOMAIN: seq<byte> :=
    [0x4B, 0x4F, 0x4D, 0x4D, 0x53, 0x5F, 0x53, 0x54, 0x41, 0x54, 0x45, 0x5F,
     0x47, 0x45, 0x4E, 0x45, 0x53, 0x49, 0x53, 0x5F, 0x76, 0x31, 0x2E, 0x31]

  const ZEROS: seq<byte> :=
    [0, 0, 0, 0, 0, 0, 0, 0, 0, 0, 0, 0, 0, 0, 0, 0, 0, 0, 0, 0, 0, 0, 0, 0, 0, 0, 0, 0, 0, 0, 0, 0]

  function GenesisPreimage(): seq<byte> { GENESIS_DOMAIN + ZEROS }

  function Bodies(s: seq<ProjectedEvent>): seq<byte>
  {
    if s == [] then [] else Bodies(s[..|s| - 1]) + s[|s| - 1].canonicalCbor
  }

  /** The bytes hashed for a block: array head, then the bodies in transaction id order. */
  function BlockBytes(events: Block): seq<byte>
  {
    EncodeCborUintHeader(0x80, |events|) + Bodies(SortByTxId(events))
  }

  function NextPreimage(prior: Bytes32, events: Block): seq<byte>
  {
    prior + BlockBytes(events)
  }

  method StateHashGenesis(hash: Hash256) returns (h: Bytes32)
    ensures h == hash(GenesisPreimage())
  {
    var hasher := new Hasher();
    hasher.Update(GENESIS_DOMAIN);
    hasher.Update(ZEROS);
    assert [] + GENESIS_DOMAIN == GENESIS_DOMAIN;
    h := hasher.Finalize(hash);
  }

  // ----- the in-place sort of the index vector -----

  function InsertIndex(events: seq<ProjectedEvent>, i: nat, s: seq<nat>): (r: seq<nat>)
    requires i < |events| && forall k | 0 <= k < |s| :: s[k] < |events|
    ensures |r| == |s| + 1 && forall k | 0 <= k < |r| :: r[k] < |events|
  {
    if s == [] || !LexLess(events[i].txId, events[s[|s| - 1]].txId) then s + [i]
    else InsertIndex(events, i, s[..|s| - 1]) + [s[|s| - 1]]
  }

  /** The first `n` indices in stable `tx_id` order. */
  function IndexOrder(events: seq<ProjectedEvent>, n: nat): (r: seq<nat>)
    requires n <= |events|
    ensures |r| == n && forall k | 0 <= k < n :: r[k] < |events|
  {
    if n == 0 then [] else InsertIndex(events, n - 1, IndexOrder(events, n - 1))
  }

  function Gather(events: seq<ProjectedEvent>, s: seq<nat>): (r: seq<ProjectedEvent>)
    requires forall k | 0 <= k < |s| :: s[k] < |events|
    ensures |r| == |s|
  {
    seq(|s|, k requires 0 <= k < |s| => events[s[k]])
  }

  lemma {:induction false} GatherInsert(events: seq<ProjectedEvent>, i: nat, s: seq<nat>)
    requires i < |events| && forall k | 0 <= k < |s| :: s[k] < |events|
    ensures Gather(events, InsertIndex(events, i, s)) == Insert(events[i], Gather(events, s))
  {
    if s != [] {
      var init := s[..|s| - 1];
      assert Gather(events, s)[..|s| - 1] == Gather(events, init);
      GatherInsert(events, i, init);
    }
  }

  lemma {:induction false} GatherOrder(events: seq<ProjectedEvent>, n: nat)
    requires n <= |events|
    ensures Gather(events, IndexOrder(events, n)) == SortByTxId(events[..n])
  {
    hide InsertIndex, Insert, Gather;
    GatherNone(events);
    if n > 0 {
      GatherOrder(events, n - 1);
      GatherInsert(events, n - 1, IndexOrder(events, n - 1));
      assert events[..n][..n - 1] == events[..n - 1];
    }
  }

  lemma GatherNone(events: seq<ProjectedEvent>)
    ensures Gather(events, []) == []
  {
  }

  /** Index `i`, at position `j` of `s`, is on its way to its place among `before`. */
  ghost predicate Sifting(events: seq<ProjectedEvent>, s: seq<nat>, before: seq<nat>, i: nat, j: nat)
  {
    && |s| == |events| && (forall k | 0 <= k < |s| :: s[k] < |events|)
    && j <= i == |before| < |s| && s[j] == i && s[..j] == before[..j]
    && (forall k | 0 <= k < |before| :: before[k] < |events|)
    && InsertIndex(events, i, before[..j]) + s[j + 1..i + 1] == InsertIndex(events, i, before)
  }

  lemma SiftStart(events: seq<ProjectedEvent>, s: seq<nat>, i: nat)
    requires i < |s| == |events| && s[i] == i && forall k | 0 <= k < |s| :: s[k] < |events|
    ensures Sifting(events, s, s[..i], i, i)
  {
    hide InsertIndex;
    assert s[..i][..i] == s[..i];
  }

  lemma SiftOn(events: seq<ProjectedEvent>, s: seq<nat>, before: seq<nat>, i: nat, j: nat)
    requires 0 < j && Sifting(events, s, before, i, j) && LexLess(events[i].txId, events[s[j - 1]].txId)
    ensures Sifting(events, s[j - 1 := s[j]][j := s[j - 1]], before, i, j - 1)
  {
    hide InsertIndex, LexLess;
    assert s[..j][j - 1] == before[..j][j - 1];
    InsertIndexPast(events, i, before, j, s[j + 1..i + 1]);
    SwapDown(s, s[j - 1 := s[j]][j := s[j - 1]], j, i + 1);
    assert s[..j][..j - 1] == s[..j - 1] && before[..j][..j - 1] == before[..j - 1];
  }

  lemma SiftDone(events: seq<ProjectedEvent>, s: seq<nat>, before: seq<nat>, i: nat, j: nat)
    requires Sifting(events, s, before, i, j)
    requires j > 0 ==> !LexLess(events[i].txId, events[s[j - 1]].txId)
    ensures s[..i + 1] == InsertIndex(events, i, before)
  {
    hide InsertIndex, LexLess;
    assert j > 0 ==> before[..j][j - 1] == s[..j][j - 1];
    InsertIndexStep(events, i, before[..j]);
    CutAround(s, j, i + 1);
  }

  /** Moves index `i`, which stands at position `i`, down to its place among the sorted first `i`. */
  method Sift(events: seq<ProjectedEvent>, indices: array<nat>, i: nat)
    requires i < indices.Length == |events|
    requires forall k | 0 <= k < |events| :: indices[k] < |events|
    requires indices[i] == i
    modifies indices
    ensures forall k | 0 <= k < |events| :: indices[k] < |events|
    ensures indices[..i + 1] == InsertIndex(events, i, old(indices[..i]))
    ensures forall k | i < k < |events| :: indices[k] == old(indices[k])
  {
    hide LexLess;
    var j := i;
    ghost var before := indices[..][..i];
    SiftStart(events, indices[..], i);
    hide InsertIndex, Sifting;
    while j > 0 && LexLess(events[indices[j]].txId, events[indices[j - 1]].txId)
      invariant 0 <= j <= i && indices[j] == i && Sifting(events, indices[..], before, i, j)
      invariant forall k | 0 <= k < |events| :: indices[k] < |events|
      invariant forall k | i < k < |events| :: indices[k] == old(indices[k])
    {
      SiftOn(events, indices[..], before, i, j);
      ghost var s := indices[..];
      indices[j], indices[j - 1] := indices[j - 1], indices[j];
      assert indices[..] == s[j - 1 := s[j]][j := s[j - 1]];
      j := j - 1;
    }
    SiftDone(events, indices[..], before, i, j);
    assert indices[..][..i + 1] == indices[..i + 1];
  }

  /** Moving index `i` past the one before it: that one joins the tail. */
  lemma InsertIndexPast(events: seq<ProjectedEvent>, i: nat, before: seq<nat>, j: nat, tail: seq<nat>)
    requires i < |events| && forall k | 0 <= k < |before| :: before[k] < |events|
    requires 0 < j <= |before| && LexLess(events[i].txId, events[before[j - 1]].txId)
    ensures InsertIndex(events, i, before[..j]) + tail
         == InsertIndex(events, i, before[..j - 1]) + ([before[j - 1]] + tail)
  {
    hide InsertIndex, LexLess;
    InsertIndexStep(events, i, before[..j]);
    assert before[..j][j - 1] == before[j - 1] && before[..j][..j - 1] == before[..j - 1];
    ConcatAssociative(InsertIndex(events, i, before[..j - 1]), [before[j - 1]], tail);
  }

  lemma InsertIndexStep(events: seq<ProjectedEvent>, i: nat, s: seq<nat>)
    requires i < |events| && forall k | 0 <= k < |s| :: s[k] < |events|
    ensures InsertIndex(events, i, s)
         == if s == [] || !LexLess(events[i].txId, events[s[|s| - 1]].txId) then s + [i]
            else InsertIndex(events, i, s[..|s| - 1]) + [s[|s| - 1]]
  {
  }

  method SortIndices(events: seq<ProjectedEvent>) returns (indices: array<nat>)
    ensures fresh(indices) && indices[..] == IndexOrder(events, |events|)
  {
    hide InsertIndex;
    indices := new nat[|events|](k => k);
    for i := 0 to |events|
      invariant indices[..i] == IndexOrder(events, i)
      invariant forall k | i <= k < |events| :: indices[k] == k
      invariant forall k | 0 <= k < |events| :: indices[k] < |events|
    {
      Sift(events, indices, i);
    }
    assert indices[..] == indices[..|events|];
  }

  method StateHashNext(hash: Hash256, prior: Bytes32, events: Block) returns (h: Bytes32)
    ensures h == hash(NextPreimage(prior, events))
    ensures BodiesPrinted(events) ==>
              BodiesPrinted(SortByTxId(events)) && h == hash(prior + Enc(Arr(ItemsOf(SortByTxId(events)))))
  {
    if BodiesPrinted(events) {
      NextPreimageLayout(prior, events);
    }
    hide Printed;
    var indices := SortIndices(events);
    ghost var sorted := SortByTxId(events);
    assert events[..|events|] == events;
    GatherOrder(events, |events|);
    var hasher := new Hasher();
    hasher.Update(prior);
    var header := EncodeCborUintHeader(0x80, |events|);
    hasher.Update(header);
    ghost var start := hasher.fed;
    assert [] + prior == prior;
    for k := 0 to |events|
      invariant indices[..] == IndexOrder(events, |events|)
      invariant hasher.fed == start + Bodies(sorted[..k])
    {
      assert events[indices[k]] == Gather(events, indices[..])[k] == sorted[k];
      assert sorted[..k + 1][..k] == sorted[..k];
      ConcatAssociative(start, Bodies(sorted[..k]), sorted[k].canonicalCbor);
      hasher.Update(events[indices[k]].canonicalCbor);
    }
    assert sorted[..|events|] == sorted;
    ConcatAssociative(prior, header, Bodies(sorted));
    h := hasher.Finalize(hash);
  }

  // ----- the block body is canonical CBOR -----

  /** `b` prints one CBOR item: shortest-form heads, definite lengths. What section 4.2.1 of RFC 8949
      calls core deterministic encoding is of this kind, and so is the Komms profile. */
  ghost predicate Printed(b: seq<byte>)
  {
    exists i :: Sized(i) && b == Enc(i)
  }

  ghost function PrintedItem(b: seq<byte>): (i: Item)
    requires Printed(b)
    ensures Sized(i) && b == Enc(i)
  {
    var i :| Sized(i) && b == Enc(i); i
  }

  ghost predicate BodiesPrinted(s: seq<ProjectedEvent>)
  {
    forall k | 0 <= k < |s| :: Printed(s[k].canonicalCbor)
  }

  /** `b` prints one item in the Komms profile, standing at `depth`. */
  ghost predicate CanonicalBody(b: seq<byte>, depth: nat)
  {
    exists i :: CanonicalAt(i, depth) && b == Enc(i)
  }

  ghost predicate BodiesCanonical(s: seq<ProjectedEvent>, depth: nat)
  {
    forall k | 0 <= k < |s| :: CanonicalBody(s[k].canonicalCbor, depth)
  }

  /** The Komms profile is a special case. */
  lemma CanonicalBodyPrinted(b: seq<byte>, depth: nat)
    requires CanonicalBody(b, depth)
    ensures Printed(b)
  {
    var i :| CanonicalAt(i, depth) && b == Enc(i);
    CanonicalSized(i, depth);
  }

  ghost function ItemsOf(s: seq<ProjectedEvent>): (r: seq<Item>)
    requires BodiesPrinted(s)
    ensures |r| == |s|
  {
    seq(|s|, k requires 0 <= k < |s| => PrintedItem(s[k].canonicalCbor))
  }

  lemma {:induction false} BodiesAreItems(s: seq<ProjectedEvent>)
    requires BodiesPrinted(s)
    ensures Bodies(s) == EncItems(ItemsOf(s))
  {
    hide Printed;
    if s != [] {
      var init, last := s[..|s| - 1], s[|s| - 1];
      BodiesAreItems(init);
      var i := PrintedItem(last.canonicalCbor);
      assert ItemsOf(s) == ItemsOf(init) + [i];
      EncItemsConcat(ItemsOf(init), [i]);
      assert [i][1..] == [] && Enc(i) + [] == Enc(i);
    }
  }

  lemma {:induction false} InsertMembers(e: ProjectedEvent, s: seq<ProjectedEvent>)
    ensures forall x :: x in Insert(e, s) <==> x == e || x in s
  {
    if s != [] {
      InsertMembers(e, s[..|s| - 1]);
      assert s == s[..|s| - 1] + [s[|s| - 1]];
    }
  }

  lemma {:induction false} SortMembers(events: seq<ProjectedEvent>)
    ensures forall x :: x in SortByTxId(events) <==> x in events
  {
    if events != [] {
      SortMembers(events[..|events| - 1]);
      InsertMembers(events[|events| - 1], SortByTxId(events[..|events| - 1]));
      assert events == events[..|events| - 1] + [events[|events| - 1]];
    }
  }

  lemma SortedMember(events: seq<ProjectedEvent>, k: nat)
    requires k < |events|
    ensures SortByTxId(events)[k] in events && events[k] in SortByTxId(events)
  {
    SortMembers(events);
    assert SortByTxId(events)[k] in SortByTxId(events);
  }

  lemma SortedBodiesPrinted(events: seq<ProjectedEvent>)
    requires BodiesPrinted(events)
    ensures BodiesPrinted(SortByTxId(events))
  {
    hide Printed;
    forall k | 0 <= k < |events| ensures Printed(SortByTxId(events)[k].canonicalCbor) {
      SortedMember(events, k);
    }
  }

  lemma SortedBodiesCanonical(events: seq<ProjectedEvent>, depth: nat)
    ensures BodiesCanonical(events, depth) <==> BodiesCanonical(SortByTxId(events), depth)
  {
    hide CanonicalBody;
    var sorted := SortByTxId(events);
    forall k | 0 <= k < |events| ensures sorted[k] in events && events[k] in sorted { SortedMember(events, k); }
  }

  /** The bytes hashed for a block are one CBOR array of the sorted items. */
  lemma BlockBytesAreArray(events: Block)
    requires BodiesPrinted(events)
    ensures BodiesPrinted(SortByTxId(events))
    ensures BlockBytes(events) == Enc(Arr(ItemsOf(SortByTxId(events))))
    ensures Sized(Arr(ItemsOf(SortByTxId(events))))
  {
    SortedBodiesPrinted(events);
    BodiesAreItems(SortByTxId(events));
    hide Printed;
  }

  /** Main theorem: the hashed body passes the canonical check exactly when every event's item is in
      the profile one level down, for any number of events. */
  lemma BlockBodyAcceptedIff(events: Block)
    requires BodiesPrinted(events)
    ensures Validate(BlockBytes(events)).Ok? <==> BodiesCanonical(events, 1)
  {
    BlockBytesAreArray(events);
    SortedBodiesCanonical(events, 1);
    var sorted := SortByTxId(events);
    var items := ItemsOf(sorted);
    EncodingAcceptedIff(Arr(items));
    hide SortByTxId, Enc, BlockBytes, Sized, Validate, BodiesPrinted;
    forall k | 0 <= k < |items|
      ensures CanonicalAt(items[k], 1) <==> CanonicalBody(sorted[k].canonicalCbor, 1)
    {
      PrintedCanonicalIff(sorted[k].canonicalCbor, items[k], 1);
    }
  }

  lemma PrintedCanonicalIff(b: seq<byte>, item: Item, depth: nat)
    requires Sized(item) && b == Enc(item)
    ensures CanonicalAt(item, depth) <==> CanonicalBody(b, depth)
  {
    hide Enc;
    if i :| CanonicalAt(i, depth) && b == Enc(i) {
      CanonicalSized(i, depth);
      EncInjective(i, item);
    }
  }

  // ----- agreement between indexers -----

  function SortedBodies(events: seq<ProjectedEvent>): (r: seq<Vec>)
    ensures |r| == |events|
  {
    var sorted := SortByTxId(events);
    seq(|sorted|, k requires 0 <= k < |sorted| => sorted[k].canonicalCbor)
  }

  ghost predicate Comparable(x: seq<byte>, y: seq<byte>)
  {
    x <= y || y <= x
  }

  /** No body of `a` is a proper prefix of one of `b`, nor the other way round. */
  ghost predicate Delimited(a: seq<ProjectedEvent>, b: seq<ProjectedEvent>)
  {
    forall i, j | 0 <= i < |a| && 0 <= j < |b| && Comparable(a[i].canonicalCbor, b[j].canonicalCbor) ::
      a[i].canonicalCbor == b[j].canonicalCbor
  }

  /** Printed CBOR delimits itself, text keys, floats, tags and any depth included. */
  lemma PrintedDelimited(a: seq<ProjectedEvent>, b: seq<ProjectedEvent>)
    requires BodiesPrinted(a) && BodiesPrinted(b)
    ensures Delimited(a, b)
  {
    hide Printed;
    forall i, j | 0 <= i < |a| && 0 <= j < |b| && Comparable(a[i].canonicalCbor, b[j].canonicalCbor)
      ensures a[i].canonicalCbor == b[j].canonicalCbor
    {
      PrintedNoPrefix(a[i].canonicalCbor, b[j].canonicalCbor);
    }
  }

  lemma PrintedNoPrefix(x: seq<byte>, y: seq<byte>)
    requires Printed(x) && Printed(y) && Comparable(x, y)
    ensures x == y
  {
    hide Printed, Enc;
    if x <= y {
      EncPrefixFree(PrintedItem(x), y[|x|..], PrintedItem(y), []);
    } else {
      EncPrefixFree(PrintedItem(x), [], PrintedItem(y), x[|y|..]);
    }
  }

  lemma SortedDelimited(a: seq<ProjectedEvent>, b: seq<ProjectedEvent>)
    requires Delimited(a, b)
    ensures Delimited(SortByTxId(a), SortByTxId(b))
  {
    var x, y := SortByTxId(a), SortByTxId(b);
    hide Comparable, SortByTxId;
    forall i, j | 0 <= i < |x| && 0 <= j < |y| && Comparable(x[i].canonicalCbor, y[j].canonicalCbor)
      ensures x[i].canonicalCbor == y[j].canonicalCbor
    {
      SortedMember(a, i);
      SortedMember(b, j);
    }
  }

  lemma {:induction false} BodiesCons(s: seq<ProjectedEvent>)
    requires s != []
    ensures Bodies(s) == s[0].canonicalCbor + Bodies(s[1..])
  {
    var init, last := s[..|s| - 1], s[|s| - 1];
    if init == [] {
      assert s[1..] == [] && Bodies(s) == [] + last.canonicalCbor;
    } else {
      BodiesCons(init);
      assert s[1..][..|s| - 2] == init[1..];
      ConcatAssociative(s[0].canonicalCbor, Bodies(init[1..]), last.canonicalCbor);
    }
  }

  /** As many bodies, none a prefix of another, with the same concatenation are the same bodies. */
  lemma {:induction false} DelimitedBodiesEqual(x: seq<ProjectedEvent>, y: seq<ProjectedEvent>, k: nat)
    requires |x| == |y| && k < |x| && Delimited(x, y) && Bodies(x) == Bodies(y)
    ensures x[k].canonicalCbor == y[k].canonicalCbor
  {
    hide Bodies;
    BodiesCons(x);
    BodiesCons(y);
    var p, q := x[0].canonicalCbor, y[0].canonicalCbor;
    assert Comparable(p, q) by {
      var s := Bodies(x);
      assert p == s[..|p|] && q == s[..|q|];
    }
    if k > 0 {
      SameLengthPrefix(p, Bodies(x[1..]), q, Bodies(y[1..]));
      hide Comparable;
      DelimitedBodiesEqual(x[1..], y[1..], k - 1);
    }
  }

  lemma {:induction false} SameBodies(x: seq<ProjectedEvent>, y: seq<ProjectedEvent>)
    requires |x| == |y| && forall k | 0 <= k < |x| :: x[k].canonicalCbor == y[k].canonicalCbor
    ensures Bodies(x) == Bodies(y)
  {
    if x != [] {
      SameBodies(x[..|x| - 1], y[..|y| - 1]);
    }
  }

  /** The bytes hashed for a block say exactly which bodies it has, in transaction id order. */
  lemma BlockBytesDetermineBodies(a: Block, b: Block)
    requires Delimited(a, b)
    ensures BlockBytes(a) == BlockBytes(b) <==> SortedBodies(a) == SortedBodies(b)
  {
    var x, y := SortByTxId(a), SortByTxId(b);
    SortedDelimited(a, b);
    hide SortByTxId, Bodies, Delimited, EncodeCborUintHeader;
    if BlockBytes(a) == BlockBytes(b) {
      HeadPrefixFree(4, |a|, Bodies(x), 4, |b|, Bodies(y));
      forall k | 0 <= k < |x| ensures SortedBodies(a)[k] == SortedBodies(b)[k] {
        DelimitedBodiesEqual(x, y, k);
      }
    }
    if SortedBodies(a) == SortedBodies(b) {
      forall k | 0 <= k < |x| ensures x[k].canonicalCbor == y[k].canonicalCbor {
        assert SortedBodies(a)[k] == SortedBodies(b)[k];
      }
      SameBodies(x, y);
    }
  }

  /** The state hash after a chain of blocks. */
  function StateAt(hash: Hash256, chain: seq<Block>): Bytes32
  {
    if chain == [] then hash(GenesisPreimage())
    else hash(NextPreimage(StateAt(hash, chain[..|chain| - 1]), chain[|chain| - 1]))
  }

  /** Everything hashed along a chain. */
  function Preimages(hash: Hash256, chain: seq<Block>): set<seq<byte>>
  {
    if chain == [] then {GenesisPreimage()}
    else
      Preimages(hash, chain[..|chain| - 1])
      + {NextPreimage(StateAt(hash, chain[..|chain| - 1]), chain[|chain| - 1])}
  }

  ghost predicate CollisionFree(hash: Hash256, preimages: set<seq<byte>>)
  {
    forall p, q | p in preimages && q in preimages && hash(p) == hash(q) :: p == q
  }

  /** No body of one chain is a proper prefix of a body of the other. */
  ghost predicate ChainsDelimited(a: seq<Block>, b: seq<Block>)
  {
    forall i, j | 0 <= i < |a| && 0 <= j < |b| :: Delimited(a[i], b[j])
  }

  ghost predicate ChainPrinted(chain: seq<Block>)
  {
    forall k | 0 <= k < |chain| :: BodiesPrinted(chain[k])
  }

  /** The same bodies, block by block, in transaction id order. */
  ghost predicate SameHistory(a: seq<Block>, b: seq<Block>)
  {
    |a| == |b| && forall k | 0 <= k < |a| :: SortedBodies(a[k]) == SortedBodies(b[k])
  }

  /** The bytes hashed for a block: the 32 bytes of the prior hash, then the block as one CBOR array. */
  lemma NextPreimageLayout(prior: Bytes32, events: Block)
    ensures NextPreimage(prior, events)[..32] == prior
    ensures NextPreimage(prior, events)[32..] == BlockBytes(events)
    ensures BodiesPrinted(events) ==>
              && BodiesPrinted(SortByTxId(events))
              && NextPreimage(prior, events) == prior + Enc(Arr(ItemsOf(SortByTxId(events))))
              && NextPreimage(prior, events)[32..] == Enc(Arr(ItemsOf(SortByTxId(events))))
  {
    hide BlockBytes, Printed, Enc;
    if BodiesPrinted(events) {
      BlockBytesAreArray(events);
    }
  }

  lemma GenesisLayout()
    ensures GenesisPreimage() == Ascii("KOMMS_STATE_GENESIS_v1.1") + seq(32, _ => 0)
  {
    assert GENESIS_DOMAIN == Ascii("KOMMS_STATE_GENESIS_v1.1");
  }

  /** Byte 32 tells them apart: zero in the genesis bytes, an array head in those of a block. */
  lemma GenesisIsNoBlock(prior: Bytes32, events: Block)
    ensures |GenesisPreimage()| == 56 && GenesisPreimage()[32] == 0x00
    ensures |NextPreimage(prior, events)| > 32 && 0x80 <= NextPreimage(prior, events)[32] <= 0x9B
    ensures GenesisPreimage() != NextPreimage(prior, events)
  {
    var h := EncodeCborUintHeader(0x80, |events|);
    assert NextPreimage(prior, events)[32] == BlockBytes(events)[0] == h[0] >= 0x80;
    assert GenesisPreimage()[32] == ZEROS[8] == 0;
  }

  /** Main theorem: if the hash has no collision among the bytes hashed along two chains, their
      state hashes agree exactly when the chains have the same history. */
  lemma {:induction false} PluralityAgreement(hash: Hash256, a: seq<Block>, b: seq<Block>)
    requires ChainsDelimited(a, b)
    requires CollisionFree(hash, Preimages(hash, a) + Preimages(hash, b))
    ensures StateAt(hash, a) == StateAt(hash, b) <==> SameHistory(a, b)
  {
    hide Delimited, SortedBodies, GenesisPreimage, NextPreimage, BlockBytes;
    if a == [] || b == [] {
      if a != [] { GenesisIsNoBlock(StateAt(hash, a[..|a| - 1]), a[|a| - 1]); }
      if b != [] { GenesisIsNoBlock(StateAt(hash, b[..|b| - 1]), b[|b| - 1]); }
    } else {
      var a', x := a[..|a| - 1], a[|a| - 1];
      var b', y := b[..|b| - 1], b[|b| - 1];
      PluralityAgreement(hash, a', b');
      SamePreimageIff(StateAt(hash, a'), x, StateAt(hash, b'), y);
      SameHistorySnoc(a, b);
      var p, q := NextPreimage(StateAt(hash, a'), x), NextPreimage(StateAt(hash, b'), y);
      assert p in Preimages(hash, a) && q in Preimages(hash, b);
    }
  }

  /** In particular for bodies in deterministically encoded CBOR, whatever their keys, tags and depth. */
  lemma PluralityOfPrintedBodies(hash: Hash256, a: seq<Block>, b: seq<Block>)
    requires ChainPrinted(a) && ChainPrinted(b)
    requires CollisionFree(hash, Preimages(hash, a) + Preimages(hash, b))
    ensures StateAt(hash, a) == StateAt(hash, b) <==> SameHistory(a, b)
  {
    hide BodiesPrinted, Delimited, SameHistory, StateAt, Preimages;
    forall i, j | 0 <= i < |a| && 0 <= j < |b| ensures Delimited(a[i], b[j]) {
      PrintedDelimited(a[i], b[j]);
    }
    PluralityAgreement(hash, a, b);
  }

  lemma SamePreimageIff(p: Bytes32, x: Block, q: Bytes32, y: Block)
    requires Delimited(x, y)
    ensures NextPreimage(p, x) == NextPreimage(q, y) <==> p == q && SortedBodies(x) == SortedBodies(y)
  {
    BlockBytesDetermineBodies(x, y);
    hide Delimited, SortedBodies, BlockBytes;
    if NextPreimage(p, x) == NextPreimage(q, y) {
      SameLengthPrefix(p, BlockBytes(x), q, BlockBytes(y));
    }
  }

  lemma SameHistorySnoc(a: seq<Block>, b: seq<Block>)
    requires a != [] && b != []
    ensures SameHistory(a, b)
       <==> && SameHistory(a[..|a| - 1], b[..|b| - 1])
            && SortedBodies(a[|a| - 1]) == SortedBodies(b[|b| - 1])
  {
    hide SortedBodies;
    var a', b' := a[..|a| - 1], b[..|b| - 1];
    if SameHistory(a, b) {
      forall k | 0 <= k < |a'| ensures SortedBodies(a'[k]) == SortedBodies(b'[k]) {
        assert SortedBodies(a[k]) == SortedBodies(b[k]);
      }
    }
    if SameHistory(a', b') && SortedBodies(a[|a| - 1]) == SortedBodies(b[|b| - 1]) {
      forall k | 0 <= k < |a| ensures SortedBodies(a[k]) == SortedBodies(b[k]) {
        assert k < |a'| ==> SortedBodies(a'[k]) == SortedBodies(b'[k]);
      }
    }
  }

  /** The condition matters: bodies that are not single items can agree on the bytes hashed, and so
      on the state hash whatever the hash, without being the same. */
  lemma UndelimitedBodiesAgree(id1: Bytes32, id2: Bytes32) returns (a: Block, b: Block)
    requires LexLess(id1, id2)
    ensures !BodiesPrinted(a) && !BodiesPrinted(b)
    ensures SortedBodies(a) == [[1], [2, 3]] && SortedBodies(b) == [[1, 2], [3]]
    ensures BlockBytes(a) == BlockBytes(b)
    ensures forall hash :: StateAt(hash, [a]) == StateAt(hash, [b])
  {
    hide SortedBodies, BlockBytes, StateAt, Printed;
    LexTotal(id1, id2);
    var p, q := ProjectedEvent(id1, [1]), ProjectedEvent(id2, [2, 3]);
    var r, s := ProjectedEvent(id1, [1, 2]), ProjectedEvent(id2, [3]);
    a, b := [p, q], [r, s];
    PairHashed(p, q);
    PairHashed(r, s);
    TwoItemsNotPrinted(1, 2);
    TwoItemsNotPrinted(2, 3);
    assert a[1].canonicalCbor == [2, 3] && b[0].canonicalCbor == [1, 2];
    forall hash: Hash256 ensures StateAt(hash, [a]) == StateAt(hash, [b]) {
      SameBytesSameState(hash, a, b);
    }
  }

  lemma PairHashed(p: ProjectedEvent, q: ProjectedEvent)
    requires !LexLess(q.txId, p.txId)
    ensures SortedBodies([p, q]) == [p.canonicalCbor, q.canonicalCbor]
    ensures BlockBytes([p, q]) == [0x82] + (p.canonicalCbor + q.canonicalCbor)
  {
    SortPair(p, q);
    BodiesOfPair(p, q);
    hide SortByTxId, Bodies;
  }

  lemma SameBytesSameState(hash: Hash256, a: Block, b: Block)
    requires BlockBytes(a) == BlockBytes(b)
    ensures StateAt(hash, [a]) == StateAt(hash, [b])
  {
    hide BlockBytes, GenesisPreimage;
    assert [a][..0] == [] && [b][..0] == [];
    assert StateAt(hash, [a]) == hash(NextPreimage(StateAt(hash, []), a));
    assert StateAt(hash, [b]) == hash(NextPreimage(StateAt(hash, []), b));
  }

  lemma BodiesOfPair(p: ProjectedEvent, q: ProjectedEvent)
    ensures Bodies([p, q]) == p.canonicalCbor + q.canonicalCbor
  {
    BodiesCons([p, q]);
    BodiesCons([q]);
    assert [p, q][1..] == [q] && [q][1..] == [];
  }

  lemma TwoItemsNotPrinted(x: byte, y: byte)
    requires x < 24
    ensures !Printed([x, y])
  {
    if Printed([x, y]) {
      assert Sized(UInt(x)) && Enc(UInt(x)) == [x];
      PrintedNoPrefix([x], [x, y]);
    }
  }

  /** With a repeated transaction id the order given does reach the bytes hashed. */
  lemma RepeatedTxIdOrderMatters() returns (a: ProjectedEvent, b: ProjectedEvent)
    ensures a.txId == b.txId && BodiesCanonical([a, b], 1)
    ensures BlockBytes([a, b]) != BlockBytes([b, a])
  {
    hide BlockBytes, SortedBodies;
    var id: Bytes32 := seq(32, _ => 0);
    a, b := ProjectedEvent(id, [0x00]), ProjectedEvent(id, [0x01]);
    assert Enc(UInt(0)) == [0x00] && Enc(UInt(1)) == [0x01];
    assert CanonicalAt(UInt(0), 1) && CanonicalAt(UInt(1), 1);
    LexTotal(id, id);
    PairHashed(a, b);
    PairHashed(b, a);
    assert BlockBytes([a, b])[1] == 0 && BlockBytes([b, a])[1] == 1;
  }

  lemma SortPair(a: ProjectedEvent, b: ProjectedEvent)
    requires !LexLess(b.txId, a.txId)
    ensures SortByTxId([a, b]) == [a, b]
  {
    assert [a, b][..1] == [a] && [a][..0] == [];
    assert SortByTxId([a]) == [a];
  }
}
