/** The four 32-bit words the key decoder rewrites, most significant first, read as nibbles or bits. */
module KeyWords {
  import opened Bytes
  import opened Digits
  import opened KeyTables

  type Words = w: seq<U32> | |w| == 4 witness [0, 0, 0, 0]

  lemma WordWidths()
    ensures Pow(16, 8) == U32_SIZE && Pow(2, 32) == U32_SIZE
  {
    assert Pow(2, 8) == 0x100;
    assert Pow(2, 16) == 0x1_0000;
    assert Pow(2, 24) == 0x100_0000;
  }

  /** Nibble n of the words, nibble 0 being the lowest of the last word. */
  function Nib(w: Words, n: nat): Nibble
    requires n < 32
  {
    DigitBound(w[3 - n / 8], 16, n % 8);
    DigitAt(w[3 - n / 8], 16, n % 8)
  }

  function SetNib(w: Words, n: nat, v: Nibble): Words
    requires n < 32
  {
    WordWidths();
    SetDigitBound(w[3 - n / 8], 16, n % 8, v, 8);
    w[3 - n / 8 := SetDigit(w[3 - n / 8], 16, n % 8, v)]
  }

  type Binary = x: int | 0 <= x < 2

  function Bit(w: Words, k: nat): Binary
    requires k < 128
  {
    DigitBound(w[3 - k / 32], 2, k % 32);
    DigitAt(w[3 - k / 32], 2, k % 32)
  }

  function SetBit(w: Words, k: nat, v: Binary): Words
    requires k < 128
  {
    WordWidths();
    SetDigitBound(w[3 - k / 32], 2, k % 32, v, 32);
    w[3 - k / 32 := SetDigit(w[3 - k / 32], 2, k % 32, v)]
  }

  lemma SetNibReads(w: Words, n: nat, v: Nibble, m: nat)
    requires n < 32 && m < 32
    ensures Nib(SetNib(w, n, v), m) == if m == n then v else Nib(w, m)
  {
    hide DigitAt, SetDigit;
    SetDigitReads(w[3 - n / 8], 16, n % 8, v, m % 8);
  }

  lemma SetNibUndone(w: Words, n: nat, v: Nibble)
    requires n < 32
    ensures SetNib(SetNib(w, n, v), n, Nib(w, n)) == w
  {
    hide DigitAt, SetDigit;
    SetDigitUndone(w[3 - n / 8], 16, n % 8, v);
  }

  lemma SetBitReads(w: Words, k: nat, v: Binary, m: nat)
    requires k < 128 && m < 128
    ensures Bit(SetBit(w, k, v), m) == if m == k then v else Bit(w, m)
  {
    hide DigitAt, SetDigit;
    SetDigitReads(w[3 - k / 32], 2, k % 32, v, m % 32);
  }

  /** Words are determined by their bits. */
  lemma SameBits(w: Words, u: Words)
    requires forall k: nat :: k < 128 ==> Bit(w, k) == Bit(u, k)
    ensures w == u
  {
    hide DigitAt, Pow;
    WordWidths();
    forall i: nat | i < 4 ensures w[i] == u[i] {
      forall j: nat | j < 32 ensures DigitAt(w[i], 2, j) == DigitAt(u[i], 2, j) {
        assert Bit(w, 32 * (3 - i) + j) == Bit(u, 32 * (3 - i) + j);
      }
      SameDigits(w[i], u[i], 2, 32);
    }
  }
}
