/** Splitting a list into a given number of contiguous pieces, the job of
    `split` in pyROS.utils.  That function's body is not part of this model:
    `Split` follows the rule of `numpy.array_split` (the first `n % k` pieces
    hold one item more than the rest), and everything the rest of the model
    relies on is the contract below — `k` contiguous pieces, in order,
    covering the input, with boundaries that depend only on the input's
    length and `k`. */
module Partition {

  /** The pieces joined back together, in order. */
  function Flatten<T>(xss: seq<seq<T>>): seq<T>
  {
    if |xss| == 0 then [] else Flatten(xss[..|xss| - 1]) + xss[|xss| - 1]
  }

  /** `n / k` and `n % k`, by repeated subtraction, so that the solver treats
      them as named quantities instead of re-deriving them. */
  function Quot(n: nat, k: nat): nat
    requires k > 0
  {
    if n < k then 0 else 1 + Quot(n - k, k)
  }

  function Rem(n: nat, k: nat): nat
    requires k > 0
  {
    if n < k then n else Rem(n - k, k)
  }

  /** The number of items in piece `i` of a split of `n` items into `k` pieces. */
  function PieceSize(n: nat, k: nat, i: nat): nat
    requires k > 0
  {
    Quot(n, k) + (if i < Rem(n, k) then 1 else 0)
  }

  /** The position in the input of the first item of piece `i`. */
  function Start(n: nat, k: nat, i: nat): nat
    requires k > 0
  {
    if i == 0 then 0 else Start(n, k, i - 1) + PieceSize(n, k, i - 1)
  }

  /** Python's `n // g`: the quotient rounded toward minus infinity.  Dafny's
      `/` rounds so that the remainder is never negative, which agrees for a
      positive divisor only. */
  function FloorDiv(n: int, g: int): (q: int)
    requires g != 0
    ensures g > 0 ==> g * q <= n < g * q + g
    ensures g < 0 ==> g * q + g < n <= g * q
  {
    if g > 0 then n / g else (-n) / (-g)
  }

  /** The number of groups the query driver asks `split` for,
      `n // g + 1`: one more than the number of whole groups of size `g` in
      `n` items.  A negative group size asks for one group of nothing, or for
      fewer than one group of a non-empty list. */
  function GroupCount(n: nat, g: int): (k: int)
    requires g != 0
    ensures g > 0 ==> (k - 1) * g <= n < k * g
    ensures n == 0 ==> k == 1
    ensures g < 0 && n > 0 ==> k <= 0
  {
    FloorDiv(n, g) + 1
  }

  /** `split(xs, k)`. */
  function Split<T>(xs: seq<T>, k: nat): (r: seq<seq<T>>)
    requires k > 0
    ensures |r| == k
    ensures forall i :: 0 <= i < k ==> |r[i]| == PieceSize(|xs|, k, i)
  {
    StartBounds(|xs|, k);
    seq(k, i requires 0 <= i < k => xs[Start(|xs|, k, i)..Start(|xs|, k, i + 1)])
  }

  // ---------------------------------------------------------------------------
  // Arithmetic of the boundaries

  lemma MulMonotone(a: nat, b: nat, q: nat)
    requires a <= b
    ensures a * q <= b * q
  {
  }

  lemma {:induction false} QuotRem(n: nat, k: nat)
    requires k > 0
    ensures n == k * Quot(n, k) + Rem(n, k) && Rem(n, k) < k
    decreases n
  {
    if n >= k {
      QuotRem(n - k, k);
      assert k * Quot(n, k) == k * Quot(n - k, k) + k;
    }
  }

  /** The closed form of the boundaries. */
  lemma {:induction false} StartClosedForm(n: nat, k: nat, i: nat)
    requires k > 0
    ensures Start(n, k, i) == i * Quot(n, k) + (if i < Rem(n, k) then i else Rem(n, k))
  {
    if i > 0 {
      StartClosedForm(n, k, i - 1);
      assert i * Quot(n, k) == (i - 1) * Quot(n, k) + Quot(n, k);
    }
  }

  lemma StartBounds(n: nat, k: nat)
    requires k > 0
    ensures Start(n, k, k) == n
    ensures forall i :: 0 <= i <= k ==> Start(n, k, i) <= n
  {
    QuotRem(n, k);
    StartClosedForm(n, k, k);
    forall i | 0 <= i <= k
      ensures Start(n, k, i) <= n
    {
      StartClosedForm(n, k, i);
      MulMonotone(i, k, Quot(n, k));
    }
  }

  // ---------------------------------------------------------------------------
  // The contract of the partition

  /** The pieces cover the input exactly once and in order. */
  lemma SplitCovers<T>(xs: seq<T>, k: nat)
    requires k > 0
    ensures Flatten(Split(xs, k)) == xs
  {
    var r := Split(xs, k);
    StartBounds(|xs|, k);
    SplitPrefixCovers(xs, k, k);
    assert r[..k] == r;
  }

  lemma {:induction false} SplitPrefixCovers<T>(xs: seq<T>, k: nat, i: nat)
    requires 0 < k && i <= k
    ensures Start(|xs|, k, i) <= |xs|
    ensures Flatten(Split(xs, k)[..i]) == xs[..Start(|xs|, k, i)]
  {
    StartBounds(|xs|, k);
    if i > 0 {
      SplitPrefixCovers(xs, k, i - 1);
      var r := Split(xs, k);
      var a, b := Start(|xs|, k, i - 1), Start(|xs|, k, i);
      FlattenLast(r[..i]);
      assert r[..i][..i - 1] == r[..i - 1];
      SlicesJoin(xs, a, b);
    }
  }

  lemma FlattenLast<T>(xss: seq<seq<T>>)
    requires |xss| > 0
    ensures Flatten(xss) == Flatten(xss[..|xss| - 1]) + xss[|xss| - 1]
  {
  }

  lemma SlicesJoin<T>(xs: seq<T>, a: nat, b: nat)
    requires a <= b <= |xs|
    ensures xs[..b] == xs[..a] + xs[a..b]
  {
  }

  /** Piece `i` is the stretch of the input from `Start(i)` to `Start(i + 1)`. */
  lemma SplitPiece<T>(xs: seq<T>, k: nat, i: nat)
    requires 0 <= i < k
    ensures Start(|xs|, k, i) <= Start(|xs|, k, i + 1) <= |xs|
    ensures Split(xs, k)[i] == xs[Start(|xs|, k, i)..Start(|xs|, k, i + 1)]
  {
    StartBounds(|xs|, k);
  }

  /** Item `j` of piece `i` is item `Start(i) + j` of the input. */
  lemma PieceItem<T>(xs: seq<T>, k: nat, i: nat, j: nat)
    requires 0 <= i < k && j < |Split(xs, k)[i]|
    ensures Start(|xs|, k, i) + j < |xs|
    ensures Split(xs, k)[i][j] == xs[Start(|xs|, k, i) + j]
  {
    SplitPiece(xs, k, i);
    var lo, hi := Start(|xs|, k, i), Start(|xs|, k, i + 1);
    SliceAt(xs, lo, hi, j);
  }

  lemma SliceAt<T>(xs: seq<T>, lo: nat, hi: nat, j: nat)
    requires lo <= hi <= |xs| && j < hi - lo
    ensures xs[lo..hi][j] == xs[lo + j]
  {
  }

  /** Lists of equal length are cut at the same places: item `j` of piece `i`
      is the same position of the input in both. */
  lemma SplitLockstep<A, B>(xs: seq<A>, ys: seq<B>, k: nat, i: nat, j: nat)
    requires |xs| == |ys| && 0 <= i < k && j < |Split(xs, k)[i]|
    ensures |Split(ys, k)[i]| == |Split(xs, k)[i]|
    ensures Start(|xs|, k, i) + j < |xs|
    ensures Split(xs, k)[i][j] == xs[Start(|xs|, k, i) + j]
    ensures Split(ys, k)[i][j] == ys[Start(|xs|, k, i) + j]
  {
    SplitPiece(xs, k, i);
    SplitPiece(ys, k, i);
    PieceItem(xs, k, i, j);
    PieceItem(ys, k, i, j);
  }

  /** With `k = n / g + 1` pieces, as the query driver asks for, no piece holds
      more than `g` items. */
  lemma PiecesWithinGroupSize(n: nat, g: int)
    requires g > 0
    ensures forall i :: PieceSize(n, GroupCount(n, g), i) <= g
  {
    var k := GroupCount(n, g);
    var q := Quot(n, k);
    assert n == g * (n / g) + n % g;
    assert n < k * g;
    QuotRem(n, k);
    if q >= g {
      MulMonotone(g, q, k);
      assert false;
    }
  }
}
