/**
 pkg/lib/bitmap/bitmap.go: a growable bitmap of 64-bit words, refining a finite set of naturals.
 Positions are Go ints. Go's / and % truncate toward zero, and uint() of a negative remainder is
 a shift past the word, so a position in -63..-1 addresses word 0 with an empty flag; a position
 below -63 indexes bits[] with a negative number and panics.
 */
module Bitmap64s {
  import opened Words

  function GoQuot(pos: int): int {
    if pos >= 0 then pos / 64 else -((-pos) / 64)
  }

  /** uint(pos % 64): a negative remainder wraps to 2^64 + remainder. */
  function Offset(pos: int): nat {
    var r := pos - 64 * GoQuot(pos);
    if r >= 0 then r else 0x1_0000_0000_0000_0000 + r
  }

  /** The naturals a position stands for: itself, or nothing when it is negative. */
  function Index(pos: int): set<nat> {
    if pos >= 0 then {pos} else {}
  }

  ghost predicate Has(bits: seq<Word>, p: nat) {
    p / 64 < |bits| && Bit(bits[p / 64], p % 64)
  }

  ghost function SetOf(bits: seq<Word>): set<nat> {
    set p: nat | p < 64 * |bits| && Has(bits, p)
  }

  /** Writing one flag into its word adds or removes one member of the set. */
  lemma WriteWord(bits: seq<Word>, pos: int)
    requires 0 <= GoQuot(pos) < |bits|
    ensures var idx, f := GoQuot(pos), FlagWord(Offset(pos));
            && SetOf(bits[idx := OrWord(bits[idx], f)]) == SetOf(bits) + Index(pos)
            && SetOf(bits[idx := AndWord(bits[idx], XorWord(ALL_ONES, f))]) == SetOf(bits) - Index(pos)
  {
    var idx, f := GoQuot(pos), FlagWord(Offset(pos));
    var w := bits[idx];
    forall p: nat | p < 64 * |bits| && p / 64 == idx
      ensures Bit(OrWord(w, f), p % 64) <==> p == pos || Bit(w, p % 64)
      ensures Bit(AndWord(w, XorWord(ALL_ONES, f)), p % 64) <==> p != pos && Bit(w, p % 64)
    {
      if pos >= 0 {
        SetBit(w, pos % 64, p % 64);
        ClearBit(w, pos % 64, p % 64);
      } else {
        EmptyFlag(w, p % 64);
      }
    }
  }

  lemma GrowByZero(bits: seq<Word>)
    ensures SetOf(bits + [0]) == SetOf(bits)
  {
    forall p: nat | p / 64 == |bits| ensures !Bit(0, p % 64) {
      ZeroBit(p % 64);
    }
  }

  class Bitmap64 {
    var bits: seq<Word>
    /** The set of masked positions. */
    ghost var masked: set<nat>

    ghost predicate Valid()
      reads this
    {
      masked == SetOf(bits)
    }

    constructor ()
      ensures Valid() && bits == [] && masked == {}
    {
      bits, masked := [], {};
    }

    /** Least missing natural: no free bit hides behind the all-ones word skip. */
    method FindNextAndSet() returns (r: nat)
      requires Valid()
      modifies this
      ensures Valid()
      ensures r !in old(masked) && masked == old(masked) + {r}
      ensures forall p: nat :: p < r ==> p in old(masked)
    {
      for i := 0 to |bits|
        invariant bits == old(bits) && masked == old(masked)
        invariant forall p: nat :: p < 64 * i ==> p in masked
      {
        if bits[i] != ALL_ONES {
          for j := 0 to 64
            invariant bits == old(bits) && masked == old(masked)
            invariant forall p: nat :: p < 64 * i + j ==> p in masked
          {
            var idx := i * 64 + j;
            var masked := IsMasked(idx);
            if !masked {
              Mask(idx);
              return idx;
            }
          }
          SkippedWord(i);
        } else {
          SkippedWord(i);
        }
      }
      r := 64 * |bits|;
      Mask(r);
    }

    /** The word skip is exact: a word is all ones just when its 64 positions are masked. */
    lemma SkippedWord(i: nat)
      requires Valid() && i < |bits|
      ensures bits[i] == ALL_ONES <==> forall p: nat :: 64 * i <= p < 64 * (i + 1) ==> p in masked
    {
      if bits[i] == ALL_ONES {
        forall p: nat | 64 * i <= p < 64 * (i + 1) ensures p in masked {
          AllOnesBit(p % 64);
        }
      } else if forall p: nat :: 64 * i <= p < 64 * (i + 1) ==> p in masked {
        forall j: nat | j < 64 ensures Bit(bits[i], j) {
          assert 64 * i + j in masked;
        }
        FullWord(bits[i]);
      }
    }

    method IsMasked(pos: int) returns (r: bool)
      requires Valid() && GoQuot(pos) >= 0
      ensures r <==> pos >= 0 && pos in masked
    {
      var idx, offset := GoQuot(pos), Offset(pos);
      if idx < |bits| {
        if pos >= 0 {
          TestBit(bits[idx], offset);
        } else {
          EmptyFlag(bits[idx], 0);
        }
      }
      r := idx < |bits| && AndWord(bits[idx], FlagWord(offset)) != 0;
    }

    method Mask(pos: int)
      requires Valid() && GoQuot(pos) >= 0
      modifies this
      ensures Valid() && masked == old(masked) + Index(pos)
      ensures |bits| == if GoQuot(pos) < old(|bits|) then old(|bits|) else GoQuot(pos) + 1
    {
      var idx, offset := GoQuot(pos), Offset(pos);
      var i := |bits|;
      while i <= idx
        invariant i == |bits|
        invariant old(|bits|) <= |bits| && (|bits| == old(|bits|) || |bits| <= idx + 1)
        invariant Valid() && masked == old(masked)
      {
        GrowByZero(bits);
        bits := bits + [0];
        i := i + 1;
      }
      WriteWord(bits, pos);
      bits := bits[idx := OrWord(bits[idx], FlagWord(offset))];
      masked := masked + Index(pos);
    }

    method Unmask(pos: int)
      requires Valid() && 0 <= GoQuot(pos) < |bits|
      modifies this
      ensures Valid() && masked == old(masked) - Index(pos)
      ensures |bits| == old(|bits|)
    {
      var idx, offset := GoQuot(pos), Offset(pos);
      WriteWord(bits, pos);
      bits := bits[idx := AndWord(bits[idx], XorWord(ALL_ONES, FlagWord(offset)))];
      masked := masked - Index(pos);
    }

    method Clear()
      modifies this
      ensures Valid() && bits == [] && masked == {}
    {
      bits, masked := [], {};
    }
  }
}
