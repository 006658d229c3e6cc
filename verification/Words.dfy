/** The 64-bit words that the queues count with: unsigned arithmetic modulo 2^64, the signed
    view of a difference, and the power-of-two mask that stands for a remainder. */
module Words {
  import opened Arith

  const WORD: int := 0x1_0000_0000_0000_0000
  const WORD32: nat := 0x1_0000_0000
  const HALF: int := 0x8000_0000_0000_0000

  type Word = w: nat | w < WORD

  function Wrap(x: int): Word { x % WORD }

  function Plus(a: Word, b: nat): Word { Wrap(a + b) }

  /** The subtraction of two unsigned words, read as a signed word. */
  function SignedDifference(a: Word, b: Word): int {
    var d := Wrap(a - b);
    if d < HALF then d else d - WORD
  }

  function Pow2(k: nat): nat {
    if k == 0 then 1 else 2 * Pow2(k - 1)
  }

  /** Bitwise and. */
  function BitAnd(x: nat, m: nat): nat
    decreases x, m
  {
    if x == 0 || m == 0 then 0 else (x % 2) * (m % 2) + 2 * BitAnd(x / 2, m / 2)
  }

  lemma {:induction false} MaskIsRemainder(x: nat, k: nat)
    ensures 0 < Pow2(k) && BitAnd(x, Pow2(k) - 1) == x % Pow2(k)
    decreases k
  {
    if k == 0 {
      assert x % 1 == 0;
    } else {
      MaskIsRemainder(x / 2, k - 1);
      var n := Pow2(k - 1);
      HalfRemainder(x, n);
    }
  }

  lemma HalfRemainder(x: nat, n: nat)
    requires 0 < n
    ensures x % (2 * n) == 2 * ((x / 2) % n) + x % 2
    ensures (2 * n - 1) / 2 == n - 1 && (2 * n - 1) % 2 == 1
  {
    var h := x / 2;
    assert h == n * (h / n) + h % n;
    assert x == (2 * n) * (h / n) + (2 * (h % n) + x % 2);
    DivisionOf(2 * n, x, h / n, 2 * (h % n) + x % 2);
    DivisionOf(2, 2 * n - 1, n - 1, 1);
  }

  lemma {:induction false} Pow2Splits(j: nat, k: nat)
    ensures Pow2(j + k) == Pow2(j) * Pow2(k)
    decreases j
  {
    if j == 0 {
    } else {
      Pow2Splits(j - 1, k);
      assert Pow2(j + k) == 2 * Pow2(j - 1 + k);
      assert 2 * (Pow2(j - 1) * Pow2(k)) == (2 * Pow2(j - 1)) * Pow2(k);
    }
  }

  lemma Pow2Word(k: nat)
    requires k <= 63
    ensures Pow2(k) <= HALF
  {
    WordIsPow2();
    Pow2Splits(k, 63 - k);
    MaskIsRemainder(0, 63 - k);
    MulStep(Pow2(k), 0, Pow2(63 - k));
  }

  lemma WordIsPow2()
    ensures WORD == Pow2(64) && HALF == Pow2(63)
  {
    assert Pow2(8) == 256;
    Pow2Splits(8, 8);
    Pow2Splits(16, 16);
    Pow2Splits(32, 32);
    assert Pow2(64) == 2 * Pow2(63);
  }

  /** The masked word of a position is its slot, also after the counter has wrapped. */
  lemma MaskedWordIsSlot(pos: int, k: nat)
    requires k <= 63
    ensures 0 < Pow2(k) && BitAnd(Wrap(pos), Pow2(k) - 1) == pos % Pow2(k)
  {
    MaskIsRemainder(Wrap(pos), k);
    WordIsPow2();
    Pow2Splits(k, 64 - k);
    MaskIsRemainder(0, 64 - k);
    RemainderOfRemainder(Pow2(k), Pow2(64 - k), pos);
  }

  lemma WrapShift(x: int, y: int)
    ensures Wrap(Wrap(x) + y) == Wrap(x + y)
    ensures Wrap(Wrap(x) - Wrap(y)) == Wrap(x - y)
  {
    WrapAdd(x, y);
    WrapAdd(x, 0 - Wrap(y));
    var q := y / WORD;
    assert y == WORD * q + Wrap(y);
    assert x - y == WORD * ((x - y) / WORD) + Wrap(x - y);
    assert WORD * ((x - y) / WORD) + WORD * q == WORD * ((x - y) / WORD + q);
    DivisionOf(WORD, x - Wrap(y), (x - y) / WORD + q, Wrap(x - y));
  }

  lemma WrapAdd(x: int, y: int)
    ensures Wrap(Wrap(x) + y) == Wrap(x + y)
  {
    var q, r := x / WORD, (Wrap(x) + y) / WORD;
    DivisionOf(WORD, x + y, q + r, Wrap(Wrap(x) + y));
  }

  /** The signed difference of two wrapped counters is their true difference as long as that
      one lies in the signed range. */
  lemma SignedDifferenceIsTrue(a: int, b: int)
    requires -HALF <= a - b < HALF
    ensures SignedDifference(Wrap(a), Wrap(b)) == a - b
  {
    WrapShift(a, b);
  }

  /** Comparing wrapped counters compares the counters, while they are less than one lap apart. */
  lemma WrapInjective(a: int, b: int)
    requires -WORD < a - b < WORD
    ensures Wrap(a) == Wrap(b) <==> a == b
  {
    var q, r := a / WORD, b / WORD;
    assert a == WORD * q + Wrap(a) && b == WORD * r + Wrap(b);
  }
}
