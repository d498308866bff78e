/** UTXO selection of src/submit.rs: a greedy loop whose target grows with every pick. */
module Submit {
  import opened Base

  /** A spendable output: which one, and its amount in sompi. */
  datatype Utxo = Utxo(outpoint: seq<byte>, amount: u64)

  datatype Selection = Selection(picked: seq<Utxo>, sum: u64, fee: u64, out: u64)

  datatype SelectionError = InsufficientUtxos

  // ----- mass and fee -----

  const MIN_RELAY_FEE_PER_GRAM: nat := 100
  const BASE_TX_BYTES: nat := 94
  const SIGNED_P2PK_INPUT_BYTES: nat := 118
  const P2PK_OUTPUT_BYTES: nat := 53
  const P2PK_SCRIPT_PUB_KEY_LEN: nat := 35
  const MASS_PER_TX_BYTE: nat := 1
  const MASS_PER_SCRIPT_PUB_KEY_BYTE: nat := 10
  const GRAMS_PER_SIGOP: nat := 1000

  function PredictedComputeMass(numUtxos: nat, numOuts: nat, payloadLen: nat): nat
  {
    var serializedSize :=
      BASE_TX_BYTES + SIGNED_P2PK_INPUT_BYTES * numUtxos + P2PK_OUTPUT_BYTES * numOuts + payloadLen;
    var computeForSize := serializedSize * MASS_PER_TX_BYTE;
    var outputSpkMass := (2 + P2PK_SCRIPT_PUB_KEY_LEN) * MASS_PER_SCRIPT_PUB_KEY_BYTE * numOuts;
    var scriptMass := GRAMS_PER_SIGOP * numUtxos;
    computeForSize + outputSpkMass + scriptMass
  }

  function RequiredFee(numUtxos: nat, numOuts: nat, payloadLen: nat, priorityFee: nat): nat
  {
    MIN_RELAY_FEE_PER_GRAM * PredictedComputeMass(numUtxos, numOuts, payloadLen) + priorityFee
  }

  /** The fee in sompi: 111 800 for each input, 42 300 for each output, 100 for each payload byte,
      9 400 for the rest of the transaction, and what the caller adds. */
  lemma FeeInNumbers(numUtxos: nat, numOuts: nat, payloadLen: nat, priorityFee: nat)
    ensures RequiredFee(numUtxos, numOuts, payloadLen, priorityFee)
         == 111_800 * numUtxos + 42_300 * numOuts + 100 * payloadLen + 9_400 + priorityFee
    ensures RequiredFee(1, 1, 72, 0) == 170_700
  {
  }

  /** What the relay asks for `n` inputs and one output, in sompi. */
  function RelayFee(n: nat, payloadLen: nat, priorityFee: nat): nat
  {
    111_800 * n + 51_700 + 100 * payloadLen + priorityFee
  }

  /** `u64` arithmetic without overflow checks. */
  function Wrap(x: nat): u64
  {
    x % TWO_64
  }

  function Total(s: seq<Utxo>): nat
  {
    if s == [] then 0 else Total(s[..|s| - 1]) + s[|s| - 1].amount
  }

  // ----- the sort by descending amount -----

  function InsertDescending(e: Utxo, s: seq<Utxo>): (r: seq<Utxo>)
    ensures |r| == |s| + 1
  {
    if s == [] || s[|s| - 1].amount >= e.amount then s + [e]
    else InsertDescending(e, s[..|s| - 1]) + [s[|s| - 1]]
  }

  /** The stable sort by descending amount. */
  function SortDescending(s: seq<Utxo>): (r: seq<Utxo>)
    ensures |r| == |s|
  {
    if s == [] then [] else InsertDescending(s[|s| - 1], SortDescending(s[..|s| - 1]))
  }

  predicate Descending(s: seq<Utxo>)
  {
    forall i, j | 0 <= i < j < |s| :: s[i].amount >= s[j].amount
  }

  lemma {:induction false} InsertDescends(e: Utxo, s: seq<Utxo>)
    requires Descending(s)
    ensures Descending(InsertDescending(e, s))
    ensures multiset(InsertDescending(e, s)) == multiset(s) + multiset{e}
  {
    InsertStep(e, s);
    hide InsertDescending;
    if s != [] && s[|s| - 1].amount < e.amount {
      var init, last := s[..|s| - 1], s[|s| - 1];
      InsertDescends(e, init);
      SplitLast(s);
      var r := InsertDescending(e, init);
      forall i | 0 <= i < |r| ensures r[i].amount >= last.amount {
        assert r[i] in multiset(r);
        assert r[i] == e || r[i] in init;
      }
    }
  }

  lemma {:induction false} SortDescends(s: seq<Utxo>)
    ensures Descending(SortDescending(s)) && multiset(SortDescending(s)) == multiset(s)
  {
    if s != [] {
      SortDescends(s[..|s| - 1]);
      InsertDescends(s[|s| - 1], SortDescending(s[..|s| - 1]));
      assert s == s[..|s| - 1] + [s[|s| - 1]];
    }
  }

  /** The entries of one amount, in the order given. */
  function OfAmount(s: seq<Utxo>, amount: u64): seq<Utxo>
  {
    if s == [] then []
    else OfAmount(s[..|s| - 1], amount) + (if s[|s| - 1].amount == amount then [s[|s| - 1]] else [])
  }

  lemma OfAmountSnoc(s: seq<Utxo>, e: Utxo, amount: u64)
    ensures OfAmount(s + [e], amount) == OfAmount(s, amount) + (if e.amount == amount then [e] else [])
  {
    assert (s + [e])[..|s|] == s;
  }

  lemma {:induction false} InsertKeepsOrder(e: Utxo, s: seq<Utxo>, amount: u64)
    ensures OfAmount(InsertDescending(e, s), amount) == OfAmount(s + [e], amount)
  {
    OfAmountSnoc(s, e, amount);
    if s != [] && s[|s| - 1].amount < e.amount {
      var init, last := s[..|s| - 1], s[|s| - 1];
      InsertKeepsOrder(e, init, amount);
      OfAmountSnoc(init, e, amount);
      OfAmountSnoc(InsertDescending(e, init), last, amount);
    }
  }

  /** Sorting is stable: entries of one amount keep the order they were given in. */
  lemma {:induction false} SortKeepsOrder(s: seq<Utxo>, amount: u64)
    ensures OfAmount(SortDescending(s), amount) == OfAmount(s, amount)
  {
    if s != [] {
      var init, last := s[..|s| - 1], s[|s| - 1];
      SortKeepsOrder(init, amount);
      InsertKeepsOrder(last, SortDescending(init), amount);
      OfAmountSnoc(SortDescending(init), last, amount);
    }
  }

  /** `e`, at position `j` of `s`, is on its way from position `i` to its place among `before`. */
  ghost predicate Sifting(s: seq<Utxo>, before: seq<Utxo>, e: Utxo, i: nat, j: nat)
  {
    && j <= i == |before| < |s| && s[j] == e && s[..j] == before[..j]
    && InsertDescending(e, before[..j]) + s[j + 1..i + 1] == InsertDescending(e, before)
  }

  lemma SiftStart(s: seq<Utxo>, i: nat)
    requires i < |s|
    ensures Sifting(s, s[..i], s[i], i, i)
  {
    hide InsertDescending;
    assert s[..i][..i] == s[..i];
  }

  lemma SiftOn(s: seq<Utxo>, before: seq<Utxo>, e: Utxo, i: nat, j: nat)
    requires 0 < j && Sifting(s, before, e, i, j) && s[j - 1].amount < e.amount
    ensures Sifting(s[j - 1 := s[j]][j := s[j - 1]], before, e, i, j - 1)
  {
    hide InsertDescending;
    assert s[..j][j - 1] == before[..j][j - 1];
    InsertPast(e, before, j, s[j + 1..i + 1]);
    SwapDown(s, s[j - 1 := s[j]][j := s[j - 1]], j, i + 1);
    assert s[..j][..j - 1] == s[..j - 1] && before[..j][..j - 1] == before[..j - 1];
  }

  lemma SiftDone(s: seq<Utxo>, before: seq<Utxo>, e: Utxo, i: nat, j: nat)
    requires Sifting(s, before, e, i, j) && (j > 0 ==> s[j - 1].amount >= e.amount)
    ensures s[..i + 1] == InsertDescending(e, before)
  {
    hide InsertDescending;
    assert j > 0 ==> before[..j][j - 1] == s[..j][j - 1];
    InsertStep(e, before[..j]);
    CutAround(s, j, i + 1);
  }

  /** Moves the entry at position `i` up to its place among the sorted first `i`. */
  method Sift(v: array<Utxo>, i: nat)
    requires i < v.Length
    modifies v
    ensures v[..i + 1] == InsertDescending(old(v[i]), old(v[..i]))
    ensures forall k | i < k < v.Length :: v[k] == old(v[k])
  {
    var j := i;
    ghost var e, before := v[i], v[..][..i];
    SiftStart(v[..], i);
    hide InsertDescending, Sifting;
    while j > 0 && v[j - 1].amount < v[j].amount
      invariant 0 <= j <= i && v[j] == e && Sifting(v[..], before, e, i, j)
      invariant forall k | i < k < v.Length :: v[k] == old(v[k])
    {
      SiftOn(v[..], before, e, i, j);
      ghost var s := v[..];
      v[j], v[j - 1] := v[j - 1], v[j];
      assert v[..] == s[j - 1 := s[j]][j := s[j - 1]];
      j := j - 1;
    }
    SiftDone(v[..], before, e, i, j);
    assert v[..][..i + 1] == v[..i + 1];
  }

  /** Moving `e` past the entry before it: the entry joins the tail. */
  lemma InsertPast(e: Utxo, before: seq<Utxo>, j: nat, tail: seq<Utxo>)
    requires 0 < j <= |before| && before[j - 1].amount < e.amount
    ensures InsertDescending(e, before[..j]) + tail
         == InsertDescending(e, before[..j - 1]) + ([before[j - 1]] + tail)
  {
    InsertStep(e, before[..j]);
    hide InsertDescending;
    assert before[..j][j - 1] == before[j - 1] && before[..j][..j - 1] == before[..j - 1];
    ConcatAssociative(InsertDescending(e, before[..j - 1]), [before[j - 1]], tail);
  }

  lemma InsertStep(e: Utxo, s: seq<Utxo>)
    ensures InsertDescending(e, s)
         == if s == [] || s[|s| - 1].amount >= e.amount then s + [e]
            else InsertDescending(e, s[..|s| - 1]) + [s[|s| - 1]]
  {
  }

  method SortByAmount(v: array<Utxo>)
    modifies v
    ensures v[..] == SortDescending(old(v[..]))
  {
    hide InsertDescending, SortDescending;
    ghost var was := v[..];
    SortNothing();
    for i := 0 to v.Length
      invariant v[..i] == SortDescending(was[..i])
      invariant forall k | i <= k < v.Length :: v[k] == was[k]
    {
      SortStep(was, i);
      Sift(v, i);
    }
    assert v[..] == v[..v.Length] && was[..v.Length] == was;
  }

  lemma SortNothing()
    ensures SortDescending([]) == []
  {
  }

  lemma SortStep(s: seq<Utxo>, i: nat)
    requires i < |s|
    ensures SortDescending(s[..i + 1]) == InsertDescending(s[i], SortDescending(s[..i]))
  {
    assert s[..i + 1][..i] == s[..i];
  }

  // ----- the selection loop -----

  /** The first prefix of `v` longer than `k` whose sum exceeds its own fee. */
  function Greedy(v: seq<Utxo>, k: nat, payloadLen: nat, priorityFee: nat): Result<Selection, SelectionError>
    requires k <= |v|
    decreases |v| - k
  {
    if k == |v| then Err(InsufficientUtxos)
    else
      var n := k + 1;
      var sum, fee := Wrap(Total(v[..n])), Wrap(RequiredFee(n, 1, payloadLen, priorityFee));
      if sum > fee then Ok(Selection(v[..n], sum, fee, sum - fee))
      else Greedy(v, n, payloadLen, priorityFee)
  }

  method PickUtxos(entries: seq<Utxo>, payloadLen: nat, priorityFee: u64)
    returns (r: Result<Selection, SelectionError>)
    ensures r == Greedy(SortDescending(entries), 0, payloadLen, priorityFee)
    ensures SelectionCorrect(entries, payloadLen, priorityFee, r)
       <==> NeverMisled(SortDescending(entries), 0, payloadLen, priorityFee)
  {
    hide SortDescending, NeverMisled, SelectionCorrect, Total, Wrap, RequiredFee;
    TotalNone();
    var v := new Utxo[|entries|](i requires 0 <= i < |entries| => entries[i]);
    assert v[..] == entries;
    SortByAmount(v);
    GreedyIsOptimal(entries, payloadLen, priorityFee);
    ghost var sorted := v[..];
    var picked: seq<Utxo> := [];
    var sum: u64 := 0;
    for k := 0 to v.Length
      invariant v[..] == sorted && picked == sorted[..k] && sum == Wrap(Total(picked))
      invariant Greedy(sorted, 0, payloadLen, priorityFee) == Greedy(sorted, k, payloadLen, priorityFee)
    {
      var e := v[k];
      WrapAdd(Total(picked), e.amount);
      TotalConcat(picked, [e]);
      TotalOne(e);
      sum := Wrap(sum + e.amount);
      picked := picked + [e];
      assert picked[..k] == sorted[..k] && picked == sorted[..k + 1];
      var n := |picked|;
      var fee := Wrap(RequiredFee(n, 1, payloadLen, priorityFee));
      if sum > fee {
        var out := sum - fee;
        if out > 0 {
          return Ok(Selection(picked, sum, fee, out));
        }
      }
    }
    return Err(InsufficientUtxos);
  }

  lemma TotalNone()
    ensures Total([]) == 0 && Wrap(0) == 0
  {
  }

  lemma WrapAdd(x: nat, y: nat)
    ensures Wrap(Wrap(x) + y) == Wrap(x + y)
  {
    var q := x / TWO_64;
    assert x + y == Wrap(x) + y + q * TWO_64;
    ModShift(Wrap(x) + y, q);
  }

  lemma {:induction false} ModShift(x: nat, q: nat)
    ensures (x + q * TWO_64) % TWO_64 == x % TWO_64
  {
    if q > 0 {
      ModShift(x, q - 1);
      assert x + q * TWO_64 == (x + (q - 1) * TWO_64) + TWO_64;
    }
  }

  // ----- what the loop achieves -----

  /** The total of all entries and the fee for all of them fit 64 bits. */
  predicate NoOverflow(entries: seq<Utxo>, payloadLen: nat, priorityFee: nat)
  {
    Total(entries) < TWO_64 && RelayFee(|entries|, payloadLen, priorityFee) < TWO_64
  }

  /** `t` spends entries at most as often as they occur, and pays for itself with something left. */
  ghost predicate Feasible(entries: seq<Utxo>, payloadLen: nat, priorityFee: nat, t: seq<Utxo>)
  {
    |t| > 0 && multiset(t) <= multiset(entries) && Total(t) > RelayFee(|t|, payloadLen, priorityFee)
  }

  /** Failure means nothing was feasible; success is feasible, uses the fewest inputs any feasible
      choice could, the largest sum for that many, and accounts for every sompi. */
  ghost predicate SelectionCorrect(
    entries: seq<Utxo>, payloadLen: nat, priorityFee: nat, r: Result<Selection, SelectionError>)
  {
    match r
    case Err(_) => forall t: seq<Utxo> :: !Feasible(entries, payloadLen, priorityFee, t)
    case Ok(s) =>
      && Feasible(entries, payloadLen, priorityFee, s.picked)
      && s.sum == Total(s.picked) == s.fee + s.out && s.out > 0
      && s.fee == RelayFee(|s.picked|, payloadLen, priorityFee)
      && (forall t: seq<Utxo> | Feasible(entries, payloadLen, priorityFee, t) :: |s.picked| <= |t|)
      && (forall t: seq<Utxo> | Feasible(entries, payloadLen, priorityFee, t) && |t| == |s.picked| ::
            Total(t) <= s.sum)
  }

  lemma {:induction false} TotalConcat(s: seq<Utxo>, t: seq<Utxo>)
    ensures Total(s + t) == Total(s) + Total(t)
  {
    if t == [] {
      assert s + t == s;
    } else {
      assert (s + t)[..|s + t| - 1] == s + t[..|t| - 1];
      TotalConcat(s, t[..|t| - 1]);
    }
  }

  lemma TotalOne(e: Utxo)
    ensures Total([e]) == e.amount
  {
    assert [e][..0] == [];
  }

  lemma SplitLast(v: seq<Utxo>)
    requires v != []
    ensures multiset(v) == multiset(v[..|v| - 1]) + multiset{v[|v| - 1]}
  {
    assert v == v[..|v| - 1] + [v[|v| - 1]];
  }

  lemma CancelOne(a: multiset<Utxo>, b: multiset<Utxo>, x: Utxo)
    ensures a + multiset{x} <= b + multiset{x} ==> a <= b
    ensures a + multiset{x} == b + multiset{x} ==> a == b
    ensures x !in a && a <= b + multiset{x} ==> a <= b
  {
    if a + multiset{x} <= b + multiset{x} {
      forall y | y in a ensures a[y] <= b[y] {
        assert (a + multiset{x})[y] <= (b + multiset{x})[y];
      }
    }
    if a + multiset{x} == b + multiset{x} {
      forall y ensures a[y] == b[y] {
        assert (a + multiset{x})[y] == (b + multiset{x})[y];
      }
    }
  }

  /** The exchange argument: no choice of `|t|` entries sums to more than the first `|t|` of a
      descending list. */
  lemma {:induction false} PrefixIsBest(v: seq<Utxo>, t: seq<Utxo>)
    requires Descending(v) && multiset(t) <= multiset(v)
    ensures |t| <= |v| && Total(t) <= Total(v[..|t|])
    decreases |v|
  {
    if v == [] {
      assert multiset(t) == multiset{};
    } else {
      var init, last := v[..|v| - 1], v[|v| - 1];
      if last in t {
        var t' := TakeOut(v, t);
        PrefixIsBest(init, t');
        LongerPrefix(v, t', last);
      } else {
        SplitLast(v);
        CancelOne(multiset(t), multiset(init), last);
        PrefixIsBest(init, t);
        assert init[..|t|] == v[..|t|];
      }
    }
  }

  /** `t` without one occurrence of the last entry of `v`. */
  lemma TakeOut(v: seq<Utxo>, t: seq<Utxo>) returns (t': seq<Utxo>)
    requires v != [] && v[|v| - 1] in t
    ensures |t'| == |t| - 1 && Total(t) == Total(t') + v[|v| - 1].amount
    ensures multiset(t) <= multiset(v) ==> multiset(t') <= multiset(v[..|v| - 1])
    ensures multiset(t) == multiset(v) ==> multiset(t') == multiset(v[..|v| - 1])
  {
    hide Total;
    var last := v[|v| - 1];
    var j :| 0 <= j < |t| && t[j] == last;
    t' := t[..j] + t[j + 1..];
    Without(t, j);
    SplitLast(v);
    CancelOne(multiset(t'), multiset(v[..|v| - 1]), last);
  }

  lemma LongerPrefix(v: seq<Utxo>, t: seq<Utxo>, last: Utxo)
    requires Descending(v) && |t| < |v| && last == v[|v| - 1]
    requires Total(t) <= Total(v[..|v| - 1][..|t|])
    ensures Total(t) + last.amount <= Total(v[..|t| + 1])
  {
    assert v[..|v| - 1][..|t|] == v[..|t|] == v[..|t| + 1][..|t|];
  }

  lemma Without(t: seq<Utxo>, j: nat)
    requires j < |t|
    ensures var t' := t[..j] + t[j + 1..];
            && multiset(t) == multiset(t') + multiset{t[j]}
            && Total(t) == Total(t') + t[j].amount
  {
    assert t == t[..j] + [t[j]] + t[j + 1..];
    TotalConcat(t[..j] + [t[j]], t[j + 1..]);
    TotalConcat(t[..j], [t[j]]);
    TotalConcat(t[..j], t[j + 1..]);
    TotalOne(t[j]);
  }

  lemma PrefixWithin(v: seq<Utxo>, n: nat)
    requires n <= |v|
    ensures multiset(v[..n]) <= multiset(v) && Total(v[..n]) <= Total(v)
  {
    assert v == v[..n] + v[n..];
    TotalConcat(v[..n], v[n..]);
  }

  lemma {:induction false} TotalOfPermutation(s: seq<Utxo>, v: seq<Utxo>)
    requires multiset(s) == multiset(v)
    ensures Total(s) == Total(v) && |s| == |v|
    decreases |v|
  {
    if v == [] {
      assert multiset(s) == multiset{};
    } else {
      assert v[|v| - 1] in multiset(v);
      var s' := TakeOut(v, s);
      TotalOfPermutation(s', v[..|v| - 1]);
    }
  }

  /** The prefix of length `n` does not pay for itself. */
  predicate FallsShort(v: seq<Utxo>, n: nat, payloadLen: nat, priorityFee: nat)
    requires n <= |v|
  {
    Total(v[..n]) <= RelayFee(n, payloadLen, priorityFee)
  }

  /** No non-empty prefix of length `k` or less pays for itself. */
  predicate AllShort(v: seq<Utxo>, k: nat, payloadLen: nat, priorityFee: nat)
    requires k <= |v|
  {
    forall n | 1 <= n <= k :: FallsShort(v, n, payloadLen, priorityFee)
  }

  /** At prefix length `n` wrapping does not mislead the loop: a prefix that falls short still
      seems to, and a prefix that pays does not wrap. */
  predicate NotMisledAt(v: seq<Utxo>, n: nat, payloadLen: nat, priorityFee: nat)
    requires n <= |v|
  {
    if FallsShort(v, n, payloadLen, priorityFee) then
      Wrap(Total(v[..n])) <= Wrap(RelayFee(n, payloadLen, priorityFee))
    else Total(v[..n]) < TWO_64
  }

  /** Wrapping never misleads the loop, up to and including the first prefix that pays. */
  predicate NeverMisled(v: seq<Utxo>, k: nat, payloadLen: nat, priorityFee: nat)
    requires k <= |v|
  {
    forall n | k < n <= |v| && AllShort(v, n - 1, payloadLen, priorityFee) ::
      NotMisledAt(v, n, payloadLen, priorityFee)
  }

  /** `r` is the first prefix of `v` that pays for itself, with its true sum and fee. */
  ghost predicate FirstPaying(
    v: seq<Utxo>, payloadLen: nat, priorityFee: nat, r: Result<Selection, SelectionError>)
  {
    match r
    case Err(_) => AllShort(v, |v|, payloadLen, priorityFee)
    case Ok(s) =>
      var m := |s.picked|;
      && 1 <= m <= |v| && s.picked == v[..m]
      && AllShort(v, m - 1, payloadLen, priorityFee)
      && s.sum == Total(v[..m]) && s.fee == RelayFee(m, payloadLen, priorityFee)
      && s.sum == s.fee + s.out && s.out > 0
  }

  lemma {:induction false} GreedyShape(v: seq<Utxo>, k: nat, payloadLen: nat, priorityFee: nat)
    requires k <= |v|
    ensures match Greedy(v, k, payloadLen, priorityFee)
            case Err(_) => true
            case Ok(s) => k < |s.picked| <= |v| && s.picked == v[..|s.picked|]
    decreases |v| - k
  {
    hide Total, Wrap, RequiredFee, RelayFee;
    if k < |v| {
      GreedyShape(v, k + 1, payloadLen, priorityFee);
    }
  }

  /** The loop finds the first prefix that pays exactly when wrapping does not mislead it. */
  lemma {:induction false} FirstPayingIff(v: seq<Utxo>, k: nat, payloadLen: nat, priorityFee: nat)
    requires k <= |v| && AllShort(v, k, payloadLen, priorityFee)
    ensures FirstPaying(v, payloadLen, priorityFee, Greedy(v, k, payloadLen, priorityFee))
       <==> NeverMisled(v, k, payloadLen, priorityFee)
    decreases |v| - k
  {
    if k < |v| {
      var n := k + 1;
      GreedyStep(v, k, payloadLen, priorityFee);
      GreedyShape(v, n, payloadLen, priorityFee);
      hide Greedy, NotMisledAt, FallsShort;
      if FallsShort(v, n, payloadLen, priorityFee) {
        FirstPayingIff(v, n, payloadLen, priorityFee);
        assert NeverMisled(v, k, payloadLen, priorityFee) <==>
               NotMisledAt(v, n, payloadLen, priorityFee) && NeverMisled(v, n, payloadLen, priorityFee);
      } else {
        assert NeverMisled(v, k, payloadLen, priorityFee) <==> NotMisledAt(v, n, payloadLen, priorityFee);
      }
    }
  }

  /** One round of the loop, at a prefix all of whose shorter ones fall short. */
  lemma GreedyStep(v: seq<Utxo>, k: nat, payloadLen: nat, priorityFee: nat)
    requires k < |v|
    ensures var n := k + 1;
            var r := Greedy(v, k, payloadLen, priorityFee);
            if NotMisledAt(v, n, payloadLen, priorityFee) then
              if FallsShort(v, n, payloadLen, priorityFee) then r == Greedy(v, n, payloadLen, priorityFee)
              else r.Ok? && r.value.picked == v[..n] && r.value.sum == Total(v[..n])
                   && r.value.fee == RelayFee(n, payloadLen, priorityFee)
                   && r.value.sum == r.value.fee + r.value.out && r.value.out > 0
            else if FallsShort(v, n, payloadLen, priorityFee) then r.Ok? && r.value.picked == v[..n]
            else r == Greedy(v, n, payloadLen, priorityFee)
                 || (r.Ok? && r.value.picked == v[..n] && r.value.sum != Total(v[..n]))
  {
    FeeInNumbers(k + 1, 1, payloadLen, priorityFee);
    hide Total, RequiredFee;
  }

  lemma PrefixFeasible(entries: seq<Utxo>, v: seq<Utxo>, n: nat, payloadLen: nat, priorityFee: nat)
    requires 1 <= n <= |v| && multiset(v) == multiset(entries)
    ensures Feasible(entries, payloadLen, priorityFee, v[..n]) <==> !FallsShort(v, n, payloadLen, priorityFee)
  {
    PrefixWithin(v, n);
    hide Total, RequiredFee, RelayFee;
  }

  /** Being correct is finding the first prefix that pays. */
  lemma CorrectIffFirstPaying(
    entries: seq<Utxo>, v: seq<Utxo>, payloadLen: nat, priorityFee: nat, r: Result<Selection, SelectionError>)
    requires Descending(v) && multiset(v) == multiset(entries)
    requires r.Ok? ==> |r.value.picked| <= |v| && r.value.picked == v[..|r.value.picked|]
    ensures SelectionCorrect(entries, payloadLen, priorityFee, r) <==> FirstPaying(v, payloadLen, priorityFee, r)
  {
    hide Total, RequiredFee, RelayFee, Descending;
    forall t: seq<Utxo> | Feasible(entries, payloadLen, priorityFee, t)
      ensures 1 <= |t| <= |v| && Total(t) <= Total(v[..|t|]) && !FallsShort(v, |t|, payloadLen, priorityFee)
    {
      PrefixIsBest(v, t);
    }
    forall n | 1 <= n <= |v|
      ensures Feasible(entries, payloadLen, priorityFee, v[..n]) <==> !FallsShort(v, n, payloadLen, priorityFee)
    {
      PrefixFeasible(entries, v, n, payloadLen, priorityFee);
    }
    hide Feasible, FallsShort;
  }

  /** Main theorem: the greedy selection is complete and optimal exactly when, up to the first
      prefix that truly pays, wrapping to 64 bits does not change what the loop sees. */
  lemma GreedyIsOptimal(entries: seq<Utxo>, payloadLen: nat, priorityFee: nat)
    ensures var v := SortDescending(entries);
            SelectionCorrect(entries, payloadLen, priorityFee, Greedy(v, 0, payloadLen, priorityFee))
            <==> NeverMisled(v, 0, payloadLen, priorityFee)
  {
    var v := SortDescending(entries);
    SortDescends(entries);
    GreedyShape(v, 0, payloadLen, priorityFee);
    FirstPayingIff(v, 0, payloadLen, priorityFee);
    hide SortDescending, SelectionCorrect, FirstPaying, NeverMisled, Greedy;
    CorrectIffFirstPaying(entries, v, payloadLen, priorityFee, Greedy(v, 0, payloadLen, priorityFee));
  }

  /** In particular when the total of all entries and the fee for all of them fit 64 bits. */
  lemma NoOverflowNeverMisleads(entries: seq<Utxo>, payloadLen: nat, priorityFee: nat)
    requires NoOverflow(entries, payloadLen, priorityFee)
    ensures NeverMisled(SortDescending(entries), 0, payloadLen, priorityFee)
  {
    var v := SortDescending(entries);
    SortDescends(entries);
    TotalOfPermutation(entries, v);
    hide SortDescending, Total, AllShort, NotMisledAt, RelayFee;
    forall n | 1 <= n <= |v| ensures NotMisledAt(v, n, payloadLen, priorityFee) {
      NothingWraps(v, n, payloadLen, priorityFee);
    }
  }

  lemma NothingWraps(v: seq<Utxo>, n: nat, payloadLen: nat, priorityFee: nat)
    requires 1 <= n <= |v| && NoOverflow(v, payloadLen, priorityFee)
    ensures NotMisledAt(v, n, payloadLen, priorityFee)
  {
    PrefixWithin(v, n);
    hide Total;
  }

  lemma SortOne(e: Utxo)
    ensures SortDescending([e]) == [e]
  {
    SortNothing();
    SortStep([e], 0);
    InsertStep(e, []);
    hide SortDescending, InsertDescending;
    assert [e][..1] == [e] && [e][..0] == [];
  }

  /** The other way wrapping misleads: two entries that pay a huge fee sum to 2^64, which wraps to
      nothing, and the loop gives up. */
  lemma OverflowingSumIsMissed() returns (e: Utxo)
    ensures Greedy(SortDescending([e, e]), 0, 0, TWO_64 / 2) == Err(InsufficientUtxos)
    ensures Feasible([e, e], 0, TWO_64 / 2, [e, e])
  {
    e := Utxo([], TWO_64 / 2);
    SortPair(e);
    TotalOne(e);
    TotalConcat([e], [e]);
    assert [e] + [e] == [e, e] && [e, e][..1] == [e] && [e, e][..2] == [e, e];
    hide SortDescending, Total;
    assert Wrap(Total([e])) == TWO_64 / 2 && Wrap(Total([e, e])) == 0;
    assert Wrap(RequiredFee(1, 1, 0, TWO_64 / 2)) == TWO_64 / 2 + 163_500;
    assert Greedy([e, e], 2, 0, TWO_64 / 2).Err?;
    assert Greedy([e, e], 1, 0, TWO_64 / 2) == Greedy([e, e], 2, 0, TWO_64 / 2);
  }

  lemma SortPair(e: Utxo)
    ensures SortDescending([e, e]) == [e, e]
  {
    SortOne(e);
    SortStep([e, e], 1);
    InsertStep(e, [e]);
    hide SortDescending, InsertDescending;
    assert [e, e][..2] == [e, e] && [e, e][..1] == [e];
  }

  /** The condition matters: a huge priority fee wraps, and an unpayable selection is reported as
      paid. */
  lemma OverflowingFeeIsAccepted() returns (e: Utxo)
    ensures Greedy(SortDescending([e]), 0, 0, TWO_64 - 1).Ok?
    ensures !SelectionCorrect([e], 0, TWO_64 - 1, Greedy(SortDescending([e]), 0, 0, TWO_64 - 1))
  {
    e := Utxo([], 200_000);
    SortOne(e);
    TotalOne(e);
    hide SortDescending;
    assert Wrap(RequiredFee(1, 1, 0, TWO_64 - 1)) == 163_499;
    assert Total([e]) < RequiredFee(1, 1, 0, TWO_64 - 1);
    hide RequiredFee, Total;
    assert Greedy([e], 0, 0, TWO_64 - 1).value.picked == [e];
    assert !Feasible([e], 0, TWO_64 - 1, [e]);
  }
}
