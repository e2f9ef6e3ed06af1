/**
 Unsigned 64-bit machine words and Go's bitwise operators on them, bit by bit. A word is the
 natural it denotes, and bit j of it is its j-th binary digit.
 */
module Words {
  const ALL_ONES: nat := 0xffff_ffff_ffff_ffff

  type Word = w: nat | w <= ALL_ONES

  datatype BitOp = And | Or | Xor

  predicate Apply(op: BitOp, x: bool, y: bool) {
    match op
    case And => x && y
    case Or => x || y
    case Xor => x != y
  }

  function Bitwise(op: BitOp, a: nat, b: nat): nat
    decreases a + b
  {
    if a == 0 && b == 0 then 0
    else (if Apply(op, a % 2 == 1, b % 2 == 1) then 1 else 0) + 2 * Bitwise(op, a / 2, b / 2)
  }

  predicate Bit(w: nat, j: nat)
    decreases j
  {
    if j == 0 then w % 2 == 1 else Bit(w / 2, j - 1)
  }

  function Pow2(n: nat): (p: nat)
    ensures p > 0
  {
    if n == 0 then 1 else 2 * Pow2(n - 1)
  }

  /** The word 1 << n: shifting by 64 or more leaves nothing. */
  function ShiftedOne(n: nat): nat {
    if n < 64 then Pow2(n) else 0
  }

  lemma BitwiseStep(op: BitOp, a: nat, b: nat)
    ensures Bitwise(op, a, b) / 2 == Bitwise(op, a / 2, b / 2)
    ensures Bitwise(op, a, b) % 2 == 1 <==> Apply(op, a % 2 == 1, b % 2 == 1)
  {
  }

  /** A bitwise operator acts on each bit separately. */
  lemma {:induction false} BitwiseBit(op: BitOp, a: nat, b: nat, k: nat)
    ensures Bit(Bitwise(op, a, b), k) <==> Apply(op, Bit(a, k), Bit(b, k))
  {
    BitwiseStep(op, a, b);
    if k > 0 {
      BitwiseBit(op, a / 2, b / 2, k - 1);
    }
  }

  lemma {:induction false} BitwiseFits(op: BitOp, a: nat, b: nat, n: nat)
    requires a < Pow2(n) && b < Pow2(n)
    ensures Bitwise(op, a, b) < Pow2(n)
  {
    if n > 0 {
      BitwiseFits(op, a / 2, b / 2, n - 1);
    }
  }

  lemma {:induction false} ZeroBit(k: nat)
    ensures !Bit(0, k)
  {
    if k > 0 {
      ZeroBit(k - 1);
    }
  }

  lemma {:induction false} NonZeroHasBit(w: nat) returns (k: nat)
    requires w != 0
    ensures Bit(w, k)
  {
    if w % 2 == 1 {
      k := 0;
    } else {
      k := NonZeroHasBit(w / 2);
      k := k + 1;
    }
  }

  lemma {:induction false} Pow2Bit(n: nat, k: nat)
    ensures Bit(Pow2(n), k) <==> n == k
  {
    if n == 0 && k > 0 {
      ZeroBit(k - 1);
    } else if n > 0 && k > 0 {
      Pow2Bit(n - 1, k - 1);
    }
  }

  lemma {:induction false} Pow2Monotone(m: nat, n: nat)
    requires m <= n
    ensures Pow2(m) <= Pow2(n)
    decreases n - m
  {
    if m < n {
      Pow2Monotone(m + 1, n);
    }
  }

  lemma WordWidth()
    ensures Pow2(64) == ALL_ONES + 1
  {
    assert Pow2(8) == 0x100;
    assert Pow2(16) == 0x1_0000;
    assert Pow2(24) == 0x100_0000;
    assert Pow2(32) == 0x1_0000_0000;
    assert Pow2(40) == 0x100_0000_0000;
    assert Pow2(48) == 0x1_0000_0000_0000;
    assert Pow2(56) == 0x100_0000_0000_0000;
  }

  lemma {:induction false} OnesBit(n: nat, k: nat)
    requires k < n
    ensures Bit(Pow2(n) - 1, k)
  {
    if k > 0 {
      OnesBit(n - 1, k - 1);
    }
  }

  lemma {:induction false} AllBitsSet(w: nat, n: nat)
    requires w < Pow2(n)
    requires forall k: nat :: k < n ==> Bit(w, k)
    ensures w == Pow2(n) - 1
  {
    if n > 0 {
      assert Bit(w, 0);
      forall k: nat | k < n - 1 ensures Bit(w / 2, k) {
        assert Bit(w, k + 1);
      }
      AllBitsSet(w / 2, n - 1);
    }
  }

  lemma AllOnesBit(k: nat)
    requires k < 64
    ensures Bit(ALL_ONES, k)
  {
    WordWidth();
    OnesBit(64, k);
  }

  /** Only the all-ones word has all of its 64 bits set. */
  lemma FullWord(w: Word)
    requires forall k: nat :: k < 64 ==> Bit(w, k)
    ensures w == ALL_ONES
  {
    WordWidth();
    AllBitsSet(w, 64);
  }

  function AndWord(a: Word, b: Word): Word {
    BitwiseWord(And, a, b);
    Bitwise(And, a, b)
  }

  function OrWord(a: Word, b: Word): Word {
    BitwiseWord(Or, a, b);
    Bitwise(Or, a, b)
  }

  function XorWord(a: Word, b: Word): Word {
    BitwiseWord(Xor, a, b);
    Bitwise(Xor, a, b)
  }

  function FlagWord(n: nat): Word {
    FlagFits(n);
    ShiftedOne(n)
  }

  lemma BitwiseWord(op: BitOp, a: Word, b: Word)
    ensures Bitwise(op, a, b) <= ALL_ONES
  {
    WordWidth();
    BitwiseFits(op, a, b, 64);
  }

  lemma FlagFits(n: nat)
    ensures ShiftedOne(n) <= ALL_ONES
  {
    WordWidth();
    if n < 64 {
      Pow2Monotone(n, 63);
    }
  }

  /** w & (1 << j) != 0 tests bit j. */
  lemma TestBit(w: Word, j: nat)
    requires j < 64
    ensures AndWord(w, FlagWord(j)) != 0 <==> Bit(w, j)
  {
    var v := AndWord(w, FlagWord(j));
    if v != 0 {
      var k := NonZeroHasBit(v);
      BitwiseBit(And, w, Pow2(j), k);
      Pow2Bit(j, k);
    } else {
      BitwiseBit(And, w, Pow2(j), j);
      Pow2Bit(j, j);
      ZeroBit(j);
    }
  }

  /** w | 1 << j adds exactly bit j. */
  lemma SetBit(w: Word, j: nat, k: nat)
    requires j < 64
    ensures Bit(OrWord(w, FlagWord(j)), k) <==> k == j || Bit(w, k)
  {
    BitwiseBit(Or, w, Pow2(j), k);
    Pow2Bit(j, k);
  }

  /** w & (ALL_ONES ^ 1 << j) removes exactly bit j. */
  lemma ClearBit(w: Word, j: nat, k: nat)
    requires j < 64 && k < 64
    ensures Bit(AndWord(w, XorWord(ALL_ONES, FlagWord(j))), k) <==> k != j && Bit(w, k)
  {
    BitwiseBit(And, w, XorWord(ALL_ONES, FlagWord(j)), k);
    BitwiseBit(Xor, ALL_ONES, Pow2(j), k);
    AllOnesBit(k);
    Pow2Bit(j, k);
  }

  /** A flag shifted past the word is empty: it tests, adds and removes nothing. */
  lemma EmptyFlag(w: Word, k: nat)
    ensures forall n: nat :: n >= 64 ==> FlagWord(n) == 0
    ensures AndWord(w, 0) == 0
    ensures Bit(OrWord(w, 0), k) <==> Bit(w, k)
    ensures k < 64 ==> (Bit(AndWord(w, XorWord(ALL_ONES, 0)), k) <==> Bit(w, k))
  {
    if AndWord(w, 0) != 0 {
      var b := NonZeroHasBit(AndWord(w, 0));
      BitwiseBit(And, w, 0, b);
      ZeroBit(b);
    }
    ZeroBit(k);
    BitwiseBit(Or, w, 0, k);
    BitwiseBit(And, w, XorWord(ALL_ONES, 0), k);
    BitwiseBit(Xor, ALL_ONES, 0, k);
    if k < 64 {
      AllOnesBit(k);
    }
  }
}
