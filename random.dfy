/** The random name suffix generator (pkg/utils/random/random.go): rejection
    sampling of 6-bit chunks of 63-bit random draws, keeping a chunk when it
    indexes one of the 52 letters. The random source is a parameter: the
    finite sequence of values rand.Int63 returns, in order. */
module Random {

  const LetterBytes: string := "abcdefghijklmnopqrstuvwxyzABCDEFGHIJKLMNOPQRSTUVWXYZ"
  /** Bits per letter index. */
  const LetterIdxBits: nat := 6
  /** Chunks of LetterIdxBits bits that fit in one 63-bit draw. */
  const LetterIdxMax: nat := 63 / LetterIdxBits

  /** A value of rand.Int63: 63 random bits, never negative. */
  type Draw = x: int | 0 <= x < 0x8000_0000_0000_0000

  datatype RandomResult =
    | Generated(s: string)
    /** strings.Builder.Grow panics on a negative count. */
    | NegativeCount
    /** The draws ran out before enough letters were accepted; the source would keep drawing. */
    | Exhausted

  /** The letters contributed by the next `remain` chunks of `cache`, lowest
      chunk first; a chunk is kept iff its value is below 52. For non-negative
      values `% 64` and `/ 64` are the source's `& letterIdxMask` and `>>= letterIdxBits`. */
  function ChunkLetters(cache: nat, remain: nat): string
  {
    if remain == 0 then []
    else (if cache % 64 < |LetterBytes| then [LetterBytes[cache % 64]] else []) + ChunkLetters(cache / 64, remain - 1)
  }

  /** All letters one draw yields. */
  function DrawLetters(d: Draw): string
  {
    ChunkLetters(d, LetterIdxMax)
  }

  /** All letters a sequence of draws yields, in order. */
  function Letters(draws: seq<Draw>): string
  {
    LettersUpTo(draws, |draws|)
  }

  /** The letters the first k draws yield. */
  function LettersUpTo(draws: seq<Draw>, k: nat): string
    requires k <= |draws|
  {
    if k == 0 then [] else LettersUpTo(draws, k - 1) + DrawLetters(draws[k - 1])
  }

  lemma {:induction false} ChunkLettersBound(cache: nat, remain: nat)
    ensures |ChunkLetters(cache, remain)| <= remain
    ensures forall i :: 0 <= i < |ChunkLetters(cache, remain)| ==> ChunkLetters(cache, remain)[i] in LetterBytes
  {
    if remain > 0 {
      ChunkLettersBound(cache / 64, remain - 1);
    }
  }

  /** One draw supplies at most letterIdxMax (10) letters, all from letterBytes. */
  lemma DrawLettersBound(d: Draw)
    ensures LetterIdxMax == 10
    ensures |DrawLetters(d)| <= LetterIdxMax
    ensures forall i :: 0 <= i < |DrawLetters(d)| ==> DrawLetters(d)[i] in LetterBytes
  {
    ChunkLettersBound(d, LetterIdxMax);
  }

  /** Every letter the draws yield is one of letterBytes. */
  lemma LettersAlphabet(draws: seq<Draw>)
    ensures forall i :: 0 <= i < |Letters(draws)| ==> Letters(draws)[i] in LetterBytes
    ensures |Letters(draws)| <= LetterIdxMax * |draws|
  {
    LettersUpToAlphabet(draws, |draws|);
  }

  lemma {:induction false} LettersUpToAlphabet(draws: seq<Draw>, k: nat)
    requires k <= |draws|
    ensures forall i :: 0 <= i < |LettersUpTo(draws, k)| ==> LettersUpTo(draws, k)[i] in LetterBytes
    ensures |LettersUpTo(draws, k)| <= LetterIdxMax * k
  {
    if k > 0 {
      LettersUpToAlphabet(draws, k - 1);
      DrawLettersBound(draws[k - 1]);
    }
  }

  /** The letters of the first k draws are a prefix of the letters of all draws. */
  lemma {:induction false} LettersPrefix(draws: seq<Draw>, k: nat)
    requires k <= |draws|
    ensures LettersUpTo(draws, k) <= Letters(draws)
    decreases |draws| - k
  {
    if k < |draws| {
      LettersPrefix(draws, k + 1);
    }
  }

  /** A first chunk of 26 yields the upper-case 'A': the output is not limited to
      lower-case letters and digits, whatever the package's test expects. */
  lemma UpperCaseCanAppear()
    ensures |Letters([26])| >= 1 && Letters([26])[0] == 'A'
  {
    assert LettersUpTo([26], 1) == LettersUpTo([26], 0) + DrawLetters(26);
    assert DrawLetters(26) == ['A'] + ChunkLetters(0, LetterIdxMax - 1);
  }

  /** One chunk of the cache: the letter it contributes, if any, then the rest. */
  lemma ChunkLettersStep(sb: string, cache: nat, remain: nat)
    requires remain > 0
    ensures sb + ChunkLetters(cache, remain)
         == (if cache % 64 < |LetterBytes| then sb + [LetterBytes[cache % 64]] else sb) + ChunkLetters(cache / 64, remain - 1)
  {
  }

  /** Random(n): the first n letters the draws yield. */
  method Random(n: int, draws: seq<Draw>) returns (r: RandomResult)
    ensures n < 0 ==> r == NegativeCount
    ensures 0 <= n <= |Letters(draws)| ==> r == Generated(Letters(draws)[..n])
    ensures n >= 0 && n > |Letters(draws)| ==> r == Exhausted
  {
    if n < 0 {
      return NegativeCount;
    }
    if |draws| == 0 {
      // The loop header draws once even for n == 0, but that draw never
      // reaches the result; an empty supply only fails when a letter is needed.
      return if n == 0 then Generated("") else Exhausted;
    }
    var sb: string := "";
    var i: int, cache: nat, remain: nat := n - 1, draws[0], LetterIdxMax;
    var k := 1;
    assert sb + ChunkLetters(cache, remain) == LettersUpTo(draws, 1);
    while i >= 0
      invariant 1 <= k <= |draws| && remain <= LetterIdxMax && -1 <= i < n
      invariant |sb| == n - 1 - i
      invariant sb + ChunkLetters(cache, remain) == LettersUpTo(draws, k)
      decreases |draws| - k, remain
    {
      if remain == 0 {
        if k == |draws| {
          assert sb == Letters(draws);
          return Exhausted;
        }
        assert sb == LettersUpTo(draws, k);
        assert sb + DrawLetters(draws[k]) == LettersUpTo(draws, k + 1);
        cache, remain := draws[k], LetterIdxMax;
        k := k + 1;
      }
      var idx := cache % 64;
      assert sb + ChunkLetters(cache, remain)
          == (if idx < |LetterBytes| then sb + [LetterBytes[idx]] else sb) + ChunkLetters(cache / 64, remain - 1) by {
        ChunkLettersStep(sb, cache, remain);
      }
      if idx < |LetterBytes| {
        sb := sb + [LetterBytes[idx]];
        i := i - 1;
      }
      cache := cache / 64;
      remain := remain - 1;
    }
    assert sb == Letters(draws)[..n] by {
      LettersPrefix(draws, k);
    }
    return Generated(sb);
  }
}
