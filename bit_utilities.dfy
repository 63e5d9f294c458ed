/** Fixed-width word helpers of the emulator: the byte swap used by the image
    loader and the two's-complement sign extension used by every instruction
    that carries an immediate or offset field. */
module BitUtilities {

  /** A 16-bit machine word (the source's uint16_t). Dafny's bv16 arithmetic
      wraps modulo 2^16, exactly like a store of an int back into uint16_t. */
  type Word = bv16

  /** 16-bit addition, wrapping modulo 2^16 like uint16_t arithmetic. */
  function WordAdd(a: Word, b: Word): Word
  {
    a + b
  }

  /** Bitwise and of two words. */
  function WordAnd(a: Word, b: Word): Word
  {
    a & b
  }

  /** Converting a word to an integer and back gives the word. */
  lemma WordIntRoundTrip(w: Word)
    ensures (w as int) as Word == w
  {
  }

  /** Distinct words are distinct memory indices. */
  lemma WordIndexInjective(a: Word, b: Word)
    requires a != b
    ensures a as int != b as int
  {
    WordIntRoundTrip(a);
    WordIntRoundTrip(b);
  }

  /** swap16: the low byte of x becomes the high byte of the result and the
      high byte becomes the low byte (big-endian to host order). */
  function Swap16(x: Word): (r: Word)
    ensures r & 0xFF == x >> 8
    ensures r >> 8 == x & 0xFF
  {
    (x << 8) | (x >> 8)
  }

  /** Swapping twice gives back the original word. */
  lemma Swap16Involution(x: Word)
    ensures Swap16(Swap16(x)) == x
  {
  }

  /** sign_extend: when bit (bitCount - 1) of x is set, every bit from
      bitCount up to 15 of the result is set; otherwise x is returned
      unchanged. The width is an int in the source; here it is a word
      restricted to 1..16, which covers the widths the decoder uses (5, and
      6, 9 and 11 for the other handlers). For a width of 16 with bit 15 set
      the source shifts 0xFFFF left by 16 in int arithmetic, which overflows;
      the model returns x unchanged in that case. */
  function SignExtend(x: Word, bitCount: Word): (r: Word)
    requires 1 <= bitCount <= 16
    ensures (x >> (bitCount - 1)) & 1 == 0 ==> r == x
    ensures (x >> (bitCount - 1)) & 1 == 1 ==> r >> bitCount == 0xFFFF >> bitCount
  {
    if (x >> (bitCount - 1)) & 1 == 1 then x | (0xFFFF << bitCount) else x
  }

  /** The result differs from x in no bit below bitCount. */
  lemma SignExtendLowBits(x: Word, bitCount: Word)
    requires 1 <= bitCount <= 16
    ensures (SignExtend(x, bitCount) ^ x) << (16 - bitCount) == 0
  {
    if (x >> (bitCount - 1)) & 1 == 1 {
      HighMaskKeepsLowBits(x, bitCount);
    }
  }

  lemma HighMaskKeepsLowBits(x: Word, n: Word)
    requires 1 <= n <= 16
    ensures ((x | (0xFFFF << n)) ^ x) << (16 - n) == 0
  {
  }

  /** Extending an already extended value with the same width changes nothing. */
  lemma SignExtendIdempotent(x: Word, bitCount: Word)
    requires 1 <= bitCount <= 16
    ensures SignExtend(SignExtend(x, bitCount), bitCount) == SignExtend(x, bitCount)
  {
  }

  /** Bit 0 of w, as the integer 0 or 1. */
  function Lsb(w: Word): int
  {
    if w & 1 == 1 then 1 else 0
  }

  /** The integer whose k-bit two's-complement representation is the low k
      bits of w: the bit weights 1, 2, 4, ... with the weight of bit k-1
      negated. */
  function TwosComplement(w: Word, k: Word): int
    requires 1 <= k <= 16
    decreases k
  {
    if k == 1 then -Lsb(w) else Lsb(w) + 2 * TwosComplement(w >> 1, k - 1)
  }

  /** 2 to the power k. */
  function Pow2(k: Word): (p: nat)
    ensures p >= 1
    decreases k
  {
    if k == 0 then 1 else 2 * Pow2(k - 1)
  }

  /** A k-bit two's-complement value lies in -2^(k-1) .. 2^(k-1) - 1. */
  lemma {:induction false} TwosComplementRange(w: Word, k: Word)
    requires 1 <= k <= 16
    ensures -(Pow2(k - 1) as int) <= TwosComplement(w, k) < Pow2(k - 1)
    decreases k
  {
    if k > 1 {
      TwosComplementRange(w >> 1, k - 1);
    }
  }

  /** The word read as a signed 16-bit integer. */
  function Signed(w: Word): int
  {
    TwosComplement(w, 16)
  }

  /** For a field x of bitCount bits, the extended word read as a signed
      16-bit integer is the field's own two's-complement value. */
  lemma SignExtendValue(x: Word, bitCount: Word)
    requires 1 <= bitCount <= 16
    requires x >> bitCount == 0
    ensures Signed(SignExtend(x, bitCount)) == TwosComplement(x, bitCount)
  {
    SignExtendLowBits(x, bitCount);
    SignExtendTop(x, bitCount);
    ExtendedValue(SignExtend(x, bitCount), x, bitCount);
  }

  /** A word e that agrees with x below bit n and whose bits n-1 .. 15 are all
      equal has, as a 16-bit value, the n-bit value of x. */
  lemma ExtendedValue(e: Word, x: Word, n: Word)
    requires 1 <= n <= 16
    requires (e ^ x) << (16 - n) == 0
    requires e >> (n - 1) == 0 || e >> (n - 1) == 0xFFFF >> (n - 1)
    ensures TwosComplement(e, 16) == TwosComplement(x, n)
  {
    FillToTop(e, n);
    SameLowBits(e, x, n);
  }

  /** Bits n-1 .. 15 of an extended n-bit field are all copies of its sign bit. */
  lemma SignExtendTop(x: Word, n: Word)
    requires 1 <= n <= 16
    requires x >> n == 0
    ensures SignExtend(x, n) >> (n - 1) == 0 || SignExtend(x, n) >> (n - 1) == 0xFFFF >> (n - 1)
  {
    if (x >> (n - 1)) & 1 == 1 {
      HighMaskFillsTop(x, n);
    } else {
      ClearSignBitTop(x, n);
    }
  }

  lemma HighMaskFillsTop(x: Word, n: Word)
    requires 1 <= n <= 16
    requires (x >> (n - 1)) & 1 == 1
    ensures (x | (0xFFFF << n)) >> (n - 1) == 0xFFFF >> (n - 1)
  {
  }

  lemma ClearSignBitTop(x: Word, n: Word)
    requires 1 <= n <= 16
    requires x >> n == 0
    requires (x >> (n - 1)) & 1 == 0
    ensures x >> (n - 1) == 0
  {
  }

  /** Repeating the sign bit one position higher does not change the value. */
  lemma {:induction false} Widen(w: Word, k: Word)
    requires 1 <= k < 16
    requires (w >> k) & 1 == (w >> (k - 1)) & 1
    ensures TwosComplement(w, k + 1) == TwosComplement(w, k)
    decreases k
  {
    if k > 1 {
      assert ((w >> 1) >> (k - 1)) & 1 == ((w >> 1) >> (k - 2)) & 1;
      Widen(w >> 1, k - 1);
    }
  }

  /** When bits k-1 .. 15 of w are all equal, its 16-bit value is its k-bit value. */
  lemma {:induction false} FillToTop(w: Word, k: Word)
    requires 1 <= k <= 16
    requires w >> (k - 1) == 0 || w >> (k - 1) == 0xFFFF >> (k - 1)
    ensures TwosComplement(w, 16) == TwosComplement(w, k)
    decreases 16 - k
  {
    if k < 16 {
      assert (w >> k) & 1 == (w >> (k - 1)) & 1;
      assert w >> k == 0 || w >> k == 0xFFFF >> k;
      Widen(w, k);
      FillToTop(w, k + 1);
    }
  }

  /** The k-bit value depends only on the low k bits. */
  lemma {:induction false} SameLowBits(w: Word, x: Word, k: Word)
    requires 1 <= k <= 16
    requires (w ^ x) << (16 - k) == 0
    ensures TwosComplement(w, k) == TwosComplement(x, k)
    decreases k
  {
    DropLowBit(w, x, k);
    if k > 1 {
      SameLowBits(w >> 1, x >> 1, k - 1);
    }
  }

  lemma DropLowBit(w: Word, x: Word, k: Word)
    requires 1 <= k <= 16
    requires (w ^ x) << (16 - k) == 0
    ensures w & 1 == x & 1
    ensures ((w >> 1) ^ (x >> 1)) << (16 - (k - 1)) == 0
  {
  }
}
