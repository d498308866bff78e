/** Machine types, byte strings and the big-endian integer layout shared by every module. */
module Base {
  const TWO_8: int := 0x100
  const TWO_16: int := 0x1_0000
  const TWO_32: int := 0x1_0000_0000
  const TWO_64: int := 0x1_0000_0000_0000_0000

  type byte = x: int | 0 <= x < 0x100
  type u64 = x: int | 0 <= x < 0x1_0000_0000_0000_0000

  /** A Rust byte vector or slice: its length always fits a 64-bit `usize`. */
  type Vec = s: seq<byte> | |s| < TWO_64
  type Bytes16 = s: Vec | |s| == 16 witness seq(16, _ => 0)
  type Bytes32 = s: Vec | |s| == 32 witness seq(32, _ => 0)
  type Bytes64 = s: Vec | |s| == 64 witness seq(64, _ => 0)

  datatype Option<+T> = None | Some(value: T)

  datatype Result<+T, +E> = Ok(value: T) | Err(error: E) {
    predicate IsFailure() { Err? }

    function PropagateFailure<U>(): Result<U, E>
      requires Err?
    {
      Err(error)
    }

    function Extract(): T
      requires Ok?
    {
      value
    }
  }

  datatype Outcome<+E> = Pass | Fail(error: E) {
    predicate IsFailure() { Fail? }

    function PropagateFailure(): Outcome<E>
      requires Fail?
    {
      this
    }
  }

  // ----- big-endian integers -----

  function Pow256(n: nat): (p: nat)
    ensures p > 0
  {
    if n == 0 then 1 else 256 * Pow256(n - 1)
  }

  /** The `n` low-order bytes of `v`, most significant first (`to_be_bytes`). */
  function ToBE(v: nat, n: nat): (s: seq<byte>)
    ensures |s| == n
  {
    if n == 0 then [] else ToBE(v / 256, n - 1) + [v % 256]
  }

  /** `from_be_bytes`. */
  function FromBE(s: seq<byte>): nat
  {
    if s == [] then 0 else 256 * FromBE(s[..|s| - 1]) + s[|s| - 1]
  }

  lemma {:induction false} FromBEToBE(v: nat, n: nat)
    requires v < Pow256(n)
    ensures FromBE(ToBE(v, n)) == v
  {
    if n > 0 {
      FromBEToBE(v / 256, n - 1);
      assert ToBE(v, n)[..n - 1] == ToBE(v / 256, n - 1);
    }
  }

  lemma {:induction false} ToBEFromBE(s: seq<byte>)
    ensures FromBE(s) < Pow256(|s|)
    ensures ToBE(FromBE(s), |s|) == s
  {
    if s != [] {
      ToBEFromBE(s[..|s| - 1]);
      assert s == s[..|s| - 1] + [s[|s| - 1]];
    }
  }

  lemma Pow256Values()
    ensures Pow256(1) == TWO_8 && Pow256(2) == TWO_16 && Pow256(4) == TWO_32 && Pow256(8) == TWO_64
  {
    assert Pow256(3) == 256 * TWO_16;
    assert Pow256(5) == 256 * TWO_32;
    assert Pow256(6) == TWO_16 * TWO_32;
    assert Pow256(7) == 256 * TWO_16 * TWO_32;
  }

  // ----- windows into a byte string -----

  /** `x` occurs in `s` at position `pos`. */
  ghost predicate At(s: seq<byte>, pos: nat, x: seq<byte>)
  {
    pos + |x| <= |s| && s[pos..pos + |x|] == x
  }

  lemma AtConcat(s: seq<byte>, pos: nat, x: seq<byte>, y: seq<byte>)
    ensures At(s, pos, x + y) <==> At(s, pos, x) && At(s, pos + |x|, y)
  {
    if pos + |x| + |y| <= |s| {
      var w := s[pos..pos + |x| + |y|];
      assert w[..|x|] == s[pos..pos + |x|] && w[|x|..] == s[pos + |x|..pos + |x| + |y|];
      assert (x + y)[..|x|] == x && (x + y)[|x|..] == y;
      assert w == w[..|x|] + w[|x|..];
    }
  }

  lemma ConcatAssociative<T>(x: seq<T>, y: seq<T>, z: seq<T>)
    ensures x + y + z == x + (y + z)
  {
  }

  /** A list cut around position `j`. */
  lemma CutAround<T>(s: seq<T>, j: nat, end: nat)
    requires j < end <= |s|
    ensures s[..end] == s[..j] + [s[j]] + s[j + 1..end]
  {
  }

  /** A list after its entry at `j` has changed places with the one before it. */
  lemma SwapDown<T>(s: seq<T>, t: seq<T>, j: nat, end: nat)
    requires 0 < j < end <= |s| == |t| && t == s[j - 1 := s[j]][j := s[j - 1]]
    ensures t[..j - 1] == s[..j - 1] && t[j..end] == [s[j - 1]] + s[j + 1..end]
  {
  }

  // ----- lexicographic order (`Ord` on Rust byte slices) -----

  predicate LexLess(a: seq<byte>, b: seq<byte>)
  {
    if b == [] then false
    else if a == [] then true
    else a[0] < b[0] || (a[0] == b[0] && LexLess(a[1..], b[1..]))
  }

  /** What the order means: a proper prefix comes first, and otherwise the first difference decides. */
  lemma {:induction false} LexLessIff(a: seq<byte>, b: seq<byte>)
    ensures LexLess(a, b)
       <==> (exists k :: 0 <= k <= |a| && k < |b| && a[..k] == b[..k] && (k == |a| || a[k] < b[k]))
  {
    if a != [] && b != [] && a[0] == b[0] {
      LexLessIff(a[1..], b[1..]);
      if k :| 0 <= k < |a| && k < |b| - 1 && a[1..][..k] == b[1..][..k] && (k == |a| - 1 || a[1..][k] < b[1..][k]) {
        assert a[..k + 1] == [a[0]] + a[1..][..k] && b[..k + 1] == [b[0]] + b[1..][..k];
        assert a[..k + 1] == b[..k + 1];
      }
      if k :| 0 <= k <= |a| && k < |b| && a[..k] == b[..k] && (k == |a| || a[k] < b[k]) {
        assert k > 0;
        assert a[1..][..k - 1] == a[..k][1..] && b[1..][..k - 1] == b[..k][1..];
        assert a[1..][..k - 1] == b[1..][..k - 1];
      }
    } else {
      assert a[..0] == b[..0];
      if a != [] && b != [] {
        forall k | 0 < k <= |a| && k <= |b| ensures a[..k] != b[..k] {
          assert a[..k][0] != b[..k][0];
        }
      }
    }
  }

  /** The bytes of an ASCII string. */
  function Ascii(s: string): seq<byte>
    requires forall k | 0 <= k < |s| :: s[k] < 128 as char
  {
    seq(|s|, k requires 0 <= k < |s| => s[k] as int)
  }

  lemma {:induction false} LexTotal(a: seq<byte>, b: seq<byte>)
    ensures LexLess(a, b) || a == b || LexLess(b, a)
    ensures !(LexLess(a, b) && LexLess(b, a))
    ensures !LexLess(a, a)
  {
    if a != [] {
      LexTotal(a[1..], if b == [] then [] else b[1..]);
      if b != [] && a[0] == b[0] && a[1..] == b[1..] {
        assert a == [a[0]] + a[1..] && b == [b[0]] + b[1..];
      }
    }
  }

  lemma {:induction false} LexTransitive(a: seq<byte>, b: seq<byte>, c: seq<byte>)
    requires LexLess(a, b) && LexLess(b, c)
    ensures LexLess(a, c)
  {
    if a != [] && a[0] == b[0] == c[0] {
      LexTransitive(a[1..], b[1..], c[1..]);
    }
  }

  /** Strings of one length written after a common prefix compare as the strings do. */
  lemma {:induction false} LexCommonPrefix(p: seq<byte>, a: seq<byte>, b: seq<byte>)
    ensures LexLess(p + a, p + b) <==> LexLess(a, b)
  {
    if p == [] {
      assert p + a == a && p + b == b;
    } else {
      LexCommonPrefix(p[1..], a, b);
      assert (p + a)[1..] == p[1..] + a && (p + b)[1..] == p[1..] + b;
    }
  }
}
