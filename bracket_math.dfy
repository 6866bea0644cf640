/**
 * Bracket sizes: the elimination generators double a size until it covers the
 * entrants, and read the number of rounds off it as its base-2 logarithm.
 */
module BracketMath {

  predicate IsPowerOfTwo(x: int)
    decreases x
  {
    x == 1 || (x >= 2 && x % 2 == 0 && IsPowerOfTwo(x / 2))
  }

  function Pow2(k: nat): (p: int)
    ensures p >= 1
  {
    if k == 0 then 1 else 2 * Pow2(k - 1)
  }

  /** `Math.log2` of a power of two. */
  function Log2(x: int): (k: nat)
    requires IsPowerOfTwo(x)
    ensures Pow2(k) == x
    decreases x
  {
    if x == 1 then 0 else 1 + Log2(x / 2)
  }

  /** The size reached by doubling `size` while it is below `n`. */
  function BracketSizeFrom(size: int, n: int): int
    requires size >= 1
    decreases n - size
  {
    if size >= n then size else BracketSizeFrom(2 * size, n)
  }

  lemma {:induction false} PowerOfTwoDoubles(x: int)
    requires IsPowerOfTwo(x)
    ensures IsPowerOfTwo(2 * x)
  {
    assert (2 * x) / 2 == x;
  }

  /** Of two powers of two, one larger than half the other is at least the other. */
  lemma {:induction false} PowerOfTwoAboveHalf(p: int, q: int)
    requires IsPowerOfTwo(p) && IsPowerOfTwo(q) && 2 * p > q
    ensures p >= q
    decreases q
  {
    if q > 1 && p > 1 {
      PowerOfTwoAboveHalf(p / 2, q / 2);
    }
  }

  /**
   * Doubling from a power of two `minimum` yields the smallest power of two
   * that is at least both `n` and `minimum`.
   */
  lemma {:induction false} BracketSizeFromIsSmallest(size: int, n: int, minimum: int)
    requires IsPowerOfTwo(size) && IsPowerOfTwo(minimum) && minimum <= size
    requires size == minimum || size < 2 * n
    ensures var bs := BracketSizeFrom(size, n);
      && IsPowerOfTwo(bs) && bs >= n && bs >= minimum
      && forall p :: IsPowerOfTwo(p) && p >= n && p >= minimum ==> p >= bs
    decreases n - size
  {
    if size < n {
      PowerOfTwoDoubles(size);
      BracketSizeFromIsSmallest(2 * size, n, minimum);
    } else {
      forall p | IsPowerOfTwo(p) && p >= n && p >= minimum ensures p >= size {
        if size != minimum {
          PowerOfTwoAboveHalf(p, size);
        }
      }
    }
  }

  /** The bracket size of the elimination generators for `n` entrants. */
  function BracketSize(n: int, minimum: int): (bs: int)
    requires IsPowerOfTwo(minimum)
    ensures IsPowerOfTwo(bs) && bs >= n && bs >= minimum
  {
    BracketSizeFromIsSmallest(minimum, n, minimum);
    BracketSizeFrom(minimum, n)
  }

  /**
   * `bracketSize = minimum; while (bracketSize < numTeams) bracketSize *= 2`
   * yields the smallest power of two covering both.
   */
  method ComputeBracketSize(numTeams: int, minimum: int) returns (bracketSize: int)
    requires IsPowerOfTwo(minimum)
    ensures bracketSize == BracketSize(numTeams, minimum)
    ensures IsPowerOfTwo(bracketSize) && bracketSize >= numTeams && bracketSize >= minimum
    ensures forall p :: IsPowerOfTwo(p) && p >= numTeams && p >= minimum ==> p >= bracketSize
  {
    bracketSize := minimum;
    while bracketSize < numTeams
      invariant IsPowerOfTwo(bracketSize) && minimum <= bracketSize
      invariant bracketSize == minimum || bracketSize < 2 * numTeams
      invariant BracketSizeFrom(bracketSize, numTeams) == BracketSize(numTeams, minimum)
      decreases numTeams - bracketSize
    {
      PowerOfTwoDoubles(bracketSize);
      bracketSize := bracketSize * 2;
    }
    BracketSizeFromIsSmallest(bracketSize, numTeams, minimum);
  }

  /**
   * With at least `minimum` entrants the bracket is less than twice the
   * entry count, so every first-round pair has its first team.
   */
  lemma BracketSizeBounds(n: int, minimum: int)
    requires IsPowerOfTwo(minimum) && n >= minimum
    ensures var bs := BracketSize(n, minimum);
      IsPowerOfTwo(bs) && n <= bs < 2 * n && bs >= minimum
  {
    BracketSizeBoundsFrom(minimum, n);
  }

  lemma {:induction false} BracketSizeBoundsFrom(size: int, n: int)
    requires IsPowerOfTwo(size) && size <= n
    ensures var bs := BracketSizeFrom(size, n);
      IsPowerOfTwo(bs) && n <= bs < 2 * n && bs >= size
    decreases n - size
  {
    if size < n {
      PowerOfTwoDoubles(size);
      if 2 * size < n {
        BracketSizeBoundsFrom(2 * size, n);
      }
    }
  }

  /** A power of two of at least 4 is a multiple of 4, and half of one of at least 2 is whole. */
  lemma {:induction false} PowerOfTwoDivisible(x: int)
    requires IsPowerOfTwo(x) && x >= 2
    ensures x % 2 == 0
    ensures x >= 4 ==> x % 4 == 0 && IsPowerOfTwo(x / 2) && IsPowerOfTwo(x / 4)
    ensures x >= 4 ==> Log2(x) >= 2
  {
    if x >= 4 {
      var h := x / 2;
      assert IsPowerOfTwo(h) && h >= 2;
      PowerOfTwoDivisible(h);
      assert x == 2 * h && h == 2 * (h / 2);
      assert x / 4 == h / 2;
    }
  }
}
