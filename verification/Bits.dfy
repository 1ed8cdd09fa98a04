/** 64-bit words, bit by bit: shifts, masks and the two bit scans of the occupancy bitmap. */
module Bits {

  const FULL: bv64 := 0xFFFF_FFFF_FFFF_FFFF

  function Or(a: bv64, b: bv64): bv64 {
    a | b
  }

  function And(a: bv64, b: bv64): bv64 {
    a & b
  }

  function AndNot(a: bv64, b: bv64): bv64 {
    a & !b
  }

  function Half(w: bv64): bv64 {
    w >> 1
  }

  function Double(w: bv64): bv64 {
    w << 1
  }

  function Less(w: bv64): bv64 {
    w - 1
  }

  /** w >> n. */
  function Shr(w: bv64, n: nat): bv64 {
    if n == 0 then w else Half(Shr(w, n - 1))
  }

  /** w << n. */
  function Shl(w: bv64, n: nat): bv64 {
    if n == 0 then w else Double(Shl(w, n - 1))
  }

  predicate Odd(w: bv64) {
    w & 1 == 1
  }

  predicate Bit(w: bv64, i: nat) {
    Odd(Shr(w, i))
  }

  // ---------------------------------------------------------------- one place at a time

  lemma OddOr(a: bv64, b: bv64)
    ensures Odd(Or(a, b)) <==> Odd(a) || Odd(b)
  {
  }

  lemma OddAnd(a: bv64, b: bv64)
    ensures Odd(And(a, b)) <==> Odd(a) && Odd(b)
  {
  }

  lemma OddAndNot(a: bv64, b: bv64)
    ensures Odd(AndNot(a, b)) <==> Odd(a) && !Odd(b)
  {
  }

  lemma HalfOr(a: bv64, b: bv64)
    ensures Half(Or(a, b)) == Or(Half(a), Half(b))
  {
  }

  lemma HalfAnd(a: bv64, b: bv64)
    ensures Half(And(a, b)) == And(Half(a), Half(b))
  {
  }

  lemma HalfAndNot(a: bv64, b: bv64)
    ensures Half(AndNot(a, b)) == AndNot(Half(a), Half(b))
  {
  }

  lemma {:induction false} ShrParts(a: bv64, b: bv64, n: nat)
    ensures Shr(Or(a, b), n) == Or(Shr(a, n), Shr(b, n))
    ensures Shr(And(a, b), n) == And(Shr(a, n), Shr(b, n))
    ensures Shr(AndNot(a, b), n) == AndNot(Shr(a, n), Shr(b, n))
  {
    hide Or, And, AndNot, Half;
    if n > 0 {
      ShrParts(a, b, n - 1);
      HalfOr(Shr(a, n - 1), Shr(b, n - 1));
      HalfAnd(Shr(a, n - 1), Shr(b, n - 1));
      HalfAndNot(Shr(a, n - 1), Shr(b, n - 1));
    }
  }

  /** The word operators act on every bit separately. */
  lemma BitParts(a: bv64, b: bv64, i: nat)
    ensures Bit(Or(a, b), i) <==> Bit(a, i) || Bit(b, i)
    ensures Bit(And(a, b), i) <==> Bit(a, i) && Bit(b, i)
    ensures Bit(AndNot(a, b), i) <==> Bit(a, i) && !Bit(b, i)
  {
    hide Or, And, AndNot, Half, Odd, Shr;
    ShrParts(a, b, i);
    OddOr(Shr(a, i), Shr(b, i));
    OddAnd(Shr(a, i), Shr(b, i));
    OddAndNot(Shr(a, i), Shr(b, i));
  }

  // ---------------------------------------------------------------- eight places at a time

  function Shr8(w: bv64): bv64 {
    w >> 8
  }

  lemma Eight(x: bv64)
    ensures Half(Half(Half(Half(Half(Half(Half(Half(x)))))))) == Shr8(x)
  {
  }

  lemma ShrFour(w: bv64, n: nat)
    ensures Shr(w, n + 4) == Half(Half(Half(Half(Shr(w, n)))))
  {
    hide Half;
    assert Shr(w, n + 2) == Half(Shr(w, n + 1));
    assert Shr(w, n + 3) == Half(Shr(w, n + 2));
  }

  lemma ShrByte(w: bv64, n: nat)
    ensures Shr(w, n + 8) == Shr8(Shr(w, n))
  {
    hide Half, Shr, Shr8;
    ShrFour(w, n);
    ShrFour(w, n + 4);
    Eight(Shr(w, n));
  }

  lemma EightBytes(w: bv64)
    ensures Shr8(Shr8(Shr8(Shr8(Shr8(Shr8(Shr8(w))))))) == w >> 56
    ensures Shr8(w >> 56) == 0
  {
  }

  lemma ShrWord(w: bv64)
    ensures Shr(w, 56) == w >> 56 && Shr(w, 64) == 0
  {
    hide Shr8, Half;
    ShrByte(w, 0);
    ShrByte(w, 8);
    ShrByte(w, 16);
    ShrByte(w, 24);
    ShrByte(w, 32);
    ShrByte(w, 40);
    ShrByte(w, 48);
    ShrByte(w, 56);
    EightBytes(w);
  }

  // ---------------------------------------------------------------- zero and all ones

  lemma NothingLeft(x: bv64)
    requires Half(x) == 0 && !Odd(x)
    ensures x == 0
  {
  }

  lemma {:induction false} NoBitsFrom(w: bv64, i: nat)
    requires i <= 64 && forall j :: i <= j < 64 ==> !Bit(w, j)
    ensures Shr(w, i) == 0
    decreases 64 - i
  {
    if i == 64 {
      ShrWord(w);
    } else {
      NoBitsFrom(w, i + 1);
      assert !Bit(w, i);
      NothingLeft(Shr(w, i));
    }
  }

  lemma {:induction false} ZeroBit(i: nat)
    ensures Shr(0, i) == 0 && !Bit(0, i)
  {
    if i > 0 {
      ZeroBit(i - 1);
    }
  }

  /** A word is zero exactly when it has no bit. */
  lemma ZeroIsEmpty(w: bv64)
    ensures w == 0 <==> forall j :: 0 <= j < 64 ==> !Bit(w, j)
  {
    if forall j :: 0 <= j < 64 ==> !Bit(w, j) {
      NoBitsFrom(w, 0);
    } else if w == 0 {
      var j :| 0 <= j < 64 && Bit(w, j);
      ZeroBit(j);
    }
  }

  predicate Packed(x: bv64) {
    Half(x) & x == Half(x)
  }

  lemma PackedHalf(x: bv64)
    requires Packed(x)
    ensures Packed(Half(x)) && (Odd(Half(x)) ==> Odd(x))
  {
  }

  lemma {:induction false} FullPacked(n: nat)
    ensures Packed(Shr(FULL, n))
  {
    if n > 0 {
      FullPacked(n - 1);
      PackedHalf(Shr(FULL, n - 1));
    }
  }

  lemma {:induction false} FullBit(i: nat)
    requires i < 64
    ensures Bit(FULL, i)
    decreases 64 - i
  {
    if i == 63 {
      ShrWord(FULL);
      LastByte();
    } else {
      FullBit(i + 1);
      FullPacked(i);
      PackedHalf(Shr(FULL, i));
    }
  }

  lemma LastByte()
    requires Shr(FULL, 56) == FULL >> 56
    ensures Shr(FULL, 63) == 1
  {
  }

  // ---------------------------------------------------------------- left shifts

  lemma UpDown(y: bv64)
    ensures Half(Double(y)) == And(y, Half(FULL))
    ensures !Odd(Double(y))
  {
  }

  lemma {:induction false} ShrOfDouble(y: bv64, j: nat)
    requires j > 0
    ensures Shr(Double(y), j) == And(Shr(y, j - 1), Shr(FULL, j))
  {
    hide Double, Half, And;
    if j == 1 {
      UpDown(y);
    } else {
      ShrOfDouble(y, j - 1);
      HalfAnd(Shr(y, j - 2), Shr(FULL, j - 1));
    }
  }

  lemma DoubleBit(y: bv64, j: nat)
    requires j < 64
    ensures Bit(Double(y), j) <==> j > 0 && Bit(y, j - 1)
  {
    hide Double, Half, And, Odd;
    UpDown(y);
    if j > 0 {
      ShrOfDouble(y, j);
      FullBit(j);
      OddAnd(Shr(y, j - 1), Shr(FULL, j));
    }
  }

  lemma {:induction false} ShlBit(w: bv64, n: nat, j: nat)
    requires j < 64
    ensures Bit(Shl(w, n), j) <==> n <= j && Bit(w, j - n)
  {
    if n > 0 {
      DoubleBit(Shl(w, n - 1), j);
      if j > 0 {
        ShlBit(w, n - 1, j - 1);
      }
    }
  }

  lemma OneBit(j: nat)
    ensures Bit(1, j) <==> j == 0
  {
    if j > 0 {
      OneShr(j);
    }
  }

  lemma {:induction false} OneShr(j: nat)
    requires j > 0
    ensures Shr(1, j) == 0
  {
    if j > 1 {
      OneShr(j - 1);
    }
  }

  // ---------------------------------------------------------------- the masks of the bitmap

  /** 1 << i is the word whose only bit is i. */
  lemma MaskBit(i: nat, j: nat)
    requires j < 64
    ensures Bit(Shl(1, i), j) <==> i == j
  {
    ShlBit(1, i, j);
    if i <= j {
      OneBit(j - i);
    }
  }

  /** The bits up to f; a shift by 64 is undefined, so the top position is a case of its own. */
  function LowMask(f: nat): bv64 {
    if f == 63 then FULL else Less(Shl(1, f + 1))
  }

  lemma LessOne(x: bv64)
    ensures Less(Double(x)) == Or(Double(Less(x)), 1)
  {
  }

  lemma LessIsZero()
    ensures Less(1) == 0
  {
  }

  lemma {:induction false} LowerBits(n: nat, j: nat)
    requires j < 64
    ensures Bit(Less(Shl(1, n)), j) <==> j < n
  {
    hide Double, Less, Or, Bit;
    if n == 0 {
      LessIsZero();
      ZeroBit(j);
    } else {
      var x := Shl(1, n - 1);
      LessOne(x);
      BitParts(Double(Less(x)), 1, j);
      OneBit(j);
      DoubleBit(Less(x), j);
      if j > 0 {
        LowerBits(n - 1, j - 1);
      }
    }
  }

  lemma HighMaskBit(f: nat, j: nat)
    requires f < 64 && j < 64
    ensures Bit(Shl(FULL, f), j) <==> f <= j
  {
    ShlBit(FULL, f, j);
    if f <= j {
      FullBit(j - f);
    }
  }

  lemma LowMaskBit(f: nat, j: nat)
    requires f < 64 && j < 64
    ensures Bit(LowMask(f), j) <==> j <= f
  {
    hide Less, Bit, Shl;
    if f == 63 {
      FullBit(j);
    } else {
      LowerBits(f + 1, j);
    }
  }

  // ---------------------------------------------------------------- bit scans

  /** The lowest bit at or above i (count trailing zeros when i is 0), or 64. */
  function LowestFrom(w: bv64, i: nat): (r: nat)
    requires i <= 64
    ensures i <= r <= 64 && (r < 64 ==> Bit(w, r)) && forall j :: i <= j < r ==> !Bit(w, j)
    decreases 64 - i
  {
    if i == 64 || Bit(w, i) then i else LowestFrom(w, i + 1)
  }

  /** One more than the highest bit below i (64 less the leading zeros when i is 64), or 0. */
  function HighestBelow(w: bv64, i: nat): (r: nat)
    requires i <= 64
    ensures r <= i && (0 < r ==> Bit(w, r - 1)) && forall j :: r <= j < i ==> !Bit(w, j)
  {
    if i == 0 || Bit(w, i - 1) then i else HighestBelow(w, i - 1)
  }
}
