/** Hashing over an open hash function, and the identifiers of protocol/src/encode.rs. */
module Hashing {
  import opened Base

  /** A 256-bit hash, left open. Results speak of the bytes hashed, never of hash values. */
  type Hash256 = seq<byte> -> Bytes32

  /** An incremental hasher: it hashes the concatenation of what it was fed. */
  class Hasher {
    var fed: seq<byte>

    constructor ()
      ensures fed == []
    {
      fed := [];
    }

    method Update(data: seq<byte>)
      modifies this
      ensures fed == old(fed) + data
    {
      fed := fed + data;
    }

    method Finalize(hash: Hash256) returns (h: Bytes32)
      ensures h == hash(fed)
    {
      h := hash(fed);
    }
  }

  function Flatten(parts: seq<seq<byte>>): seq<byte>
  {
    if parts == [] then [] else Flatten(parts[..|parts| - 1]) + parts[|parts| - 1]
  }

  method Sha256Domain(hash: Hash256, domain: seq<byte>, parts: seq<seq<byte>>) returns (h: Bytes32)
    ensures h == hash(domain + Flatten(parts))
  {
    var hasher := new Hasher();
    hasher.Update(domain);
    for k := 0 to |parts|
      invariant hasher.fed == domain + Flatten(parts[..k])
    {
      assert parts[..k + 1][..k] == parts[..k];
      ConcatAssociative(domain, Flatten(parts[..k]), parts[k]);
      hasher.Update(parts[k]);
    }
    assert parts[..|parts|] == parts;
    h := hasher.Finalize(hash);
  }

  // ----- DM thread id -----

  /** The ASCII bytes of `KOMMS_DM_V0`. */
  const DM_DOMAIN: seq<byte> := [0x4B, 0x4F, 0x4D, 0x4D, 0x53, 0x5F, 0x44, 0x4D, 0x5F, 0x56, 0x30]

  function DmPreimage(a: seq<byte>, b: seq<byte>): seq<byte>
  {
    if LexLess(b, a) then DM_DOMAIN + b + a else DM_DOMAIN + a + b
  }

  method DmThreadId(hash: Hash256, addrA: seq<byte>, addrB: seq<byte>) returns (h: Bytes32)
    ensures h == hash(DmPreimage(addrA, addrB))
  {
    var lo, hi := addrA, addrB;
    if LexLess(addrB, addrA) {
      lo, hi := addrB, addrA;
    }
    FlattenPair(lo, hi);
    ConcatAssociative(DM_DOMAIN, lo, hi);
    h := Sha256Domain(hash, DM_DOMAIN, [lo, hi]);
  }

  lemma FlattenPair(x: seq<byte>, y: seq<byte>)
    ensures Flatten([x, y]) == x + y
  {
    assert [x, y][..1] == [x];
    assert Flatten([x]) == x;
  }

  /** The bytes hashed: the domain, the smaller address, then the larger. */
  lemma DmPreimageLayout(a: seq<byte>, b: seq<byte>)
    requires a == b || LexLess(a, b)
    ensures DmPreimage(a, b) == Ascii("KOMMS_DM_V0") + a + b
    ensures DmPreimage(b, a) == Ascii("KOMMS_DM_V0") + a + b
  {
    LexTotal(a, b);
    assert DM_DOMAIN == Ascii("KOMMS_DM_V0");
  }

  /** Both participants hash the same bytes. */
  lemma DmPreimageSymmetric(a: seq<byte>, b: seq<byte>)
    ensures DmPreimage(a, b) == DmPreimage(b, a)
  {
    LexTotal(a, b);
  }

  /** The address hashed first. */
  function Lower(a: seq<byte>, b: seq<byte>): seq<byte>
  {
    if LexLess(b, a) then b else a
  }

  /** The bytes hashed, with the point at which they split, determine the unordered pair. */
  lemma DmPreimageIff(a: seq<byte>, b: seq<byte>, c: seq<byte>, d: seq<byte>)
    ensures DmPreimage(a, b) == DmPreimage(c, d) && |Lower(a, b)| == |Lower(c, d)|
       <==> (a == c && b == d) || (a == d && b == c)
  {
    LexTotal(a, b);
    var (x, y) := if LexLess(b, a) then (b, a) else (a, b);
    var (x', y') := if LexLess(d, c) then (d, c) else (c, d);
    if DmPreimage(a, b) == DmPreimage(c, d) && |x| == |x'| {
      var p, p' := DM_DOMAIN + x + y, DM_DOMAIN + x' + y';
      var n, m := |DM_DOMAIN|, |DM_DOMAIN| + |x|;
      assert x == p[n..m] && x' == p'[n..m] && y == p[m..] && y' == p'[m..];
    }
  }

  /** Between addresses of equal length the bytes hashed alone determine it. */
  lemma DmPreimageFaithful(a: seq<byte>, b: seq<byte>, c: seq<byte>, d: seq<byte>)
    requires |a| == |b| && |c| == |d|
    ensures DmPreimage(a, b) == DmPreimage(c, d) <==> (a == c && b == d) || (a == d && b == c)
  {
    DmPreimageIff(a, b, c, d);
    assert |DmPreimage(a, b)| == |DM_DOMAIN| + |a| + |b| && |DmPreimage(c, d)| == |DM_DOMAIN| + |c| + |d|;
  }

  /** Across lengths it does not: the split point is not part of the bytes hashed. */
  lemma DmPreimageAmbiguousAcrossLengths()
    ensures DmPreimage([], [1, 2]) == DmPreimage([1], [2])
  {
    assert LexLess([], [1, 2]) && LexLess([1], [2]);
    assert !LexLess([1, 2], []) && !LexLess([2], [1]);
  }
}
