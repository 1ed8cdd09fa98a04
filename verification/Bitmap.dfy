/** Occupancy bitmaps: 64 prices per word, and the word scans that find the next occupied price. */
module Bitmap {
  import opened Types
  import opened Bits

  const BITMAP_WORDS: nat := (MAX_PRICE_LEVELS + 63) / 64

  type Words = seq<bv64>

  predicate Marked(ws: Words, p: Price)
    requires p < 64 * |ws|
  {
    Bit(ws[p / 64], p % 64)
  }

  lemma MarkedAt(ws: Words, word: nat, j: nat)
    requires word < |ws| && j < 64
    ensures Marked(ws, 64 * word + j) <==> Bit(ws[word], j)
  {
  }

  /** bitmap[price >> 6] |= 1 << (price & 63) marks that price and no other. */
  function SetBit(ws: Words, p: Price): (r: Words)
    requires p < 64 * |ws|
    ensures |r| == |ws| && forall q :: 0 <= q < 64 * |ws| ==> (Marked(r, q) <==> q == p || Marked(ws, q))
  {
    hide Bit, Shl, Or;
    var r := ws[p / 64 := Or(ws[p / 64], Shl(1, p % 64))];
    assert forall q :: 0 <= q < 64 * |ws| ==> (Marked(r, q) <==> q == p || Marked(ws, q)) by {
      forall q | 0 <= q < 64 * |ws|
        ensures Marked(r, q) <==> q == p || Marked(ws, q)
      {
        BitParts(ws[p / 64], Shl(1, p % 64), q % 64);
        MaskBit(p % 64, q % 64);
      }
    }
    r
  }

  /** bitmap[price >> 6] &= ~(1 << (price & 63)) unmarks that price and no other. */
  function ClearBit(ws: Words, p: Price): (r: Words)
    requires p < 64 * |ws|
    ensures |r| == |ws| && forall q :: 0 <= q < 64 * |ws| ==> (Marked(r, q) <==> q != p && Marked(ws, q))
  {
    hide Bit, Shl, AndNot;
    var r := ws[p / 64 := AndNot(ws[p / 64], Shl(1, p % 64))];
    assert forall q :: 0 <= q < 64 * |ws| ==> (Marked(r, q) <==> q != p && Marked(ws, q)) by {
      forall q | 0 <= q < 64 * |ws|
        ensures Marked(r, q) <==> q != p && Marked(ws, q)
      {
        BitParts(ws[p / 64], Shl(1, p % 64), q % 64);
        MaskBit(p % 64, q % 64);
      }
    }
    r
  }

  // ---------------------------------------------------------------- upward scan

  /** bits holds the marks of one word at or above from. */
  ghost predicate UpperPart(ws: Words, word: nat, from: Price, bits: bv64)
    requires word < |ws|
  {
    forall j :: 0 <= j < 64 ==> (Bit(bits, j) <==> from <= 64 * word + j && Bit(ws[word], j))
  }

  lemma FirstUpper(ws: Words, from: Price)
    requires from < 64 * |ws|
    ensures UpperPart(ws, from / 64, from, And(ws[from / 64], Shl(FULL, from % 64)))
  {
    hide Bit, Shl, And;
    var word, f := from / 64, from % 64;
    assert from == 64 * word + f;
    forall j | 0 <= j < 64
      ensures Bit(And(ws[word], Shl(FULL, f)), j) <==> from <= 64 * word + j && Bit(ws[word], j)
    {
      BitParts(ws[word], Shl(FULL, f), j);
      HighMaskBit(f, j);
    }
  }

  lemma NoneUpTo(ws: Words, word: nat, from: Price, bits: bv64, n: nat)
    requires word < |ws| && UpperPart(ws, word, from, bits) && n <= 64 && forall j :: 0 <= j < n ==> !Bit(bits, j)
    ensures forall q :: 64 * word <= q < 64 * word + n && from <= q ==> !Marked(ws, q)
  {
  }

  /** The least marked price at or above from, or the invalid marker. */
  method NextOccupiedAsc(ws: Words, from: Price) returns (p: Price)
    requires |ws| == BITMAP_WORDS
    ensures p == INVALID_PRICE || (from <= p < MAX_PRICE_LEVELS && Marked(ws, p))
    ensures forall q :: from <= q < MAX_PRICE_LEVELS && (p == INVALID_PRICE || q < p) ==> !Marked(ws, q)
  {
    hide Bit, Shl, And, Marked;
    if from >= MAX_PRICE_LEVELS {
      return INVALID_PRICE;
    }
    var word := from / 64;
    var bits := And(ws[word], Shl(FULL, from % 64));
    FirstUpper(ws, from);
    while true
      invariant from / 64 <= word < BITMAP_WORDS
      invariant forall q :: from <= q < 64 * word ==> !Marked(ws, q)
      invariant UpperPart(ws, word, from, bits)
      decreases BITMAP_WORDS - word
    {
      ZeroIsEmpty(bits);
      if bits != 0 {
        var bit := LowestFrom(bits, 0);
        NoneUpTo(ws, word, from, bits, bit);
        MarkedAt(ws, word, bit);
        p := 64 * word + bit;
        return if p < MAX_PRICE_LEVELS then p else INVALID_PRICE;
      }
      NoneUpTo(ws, word, from, bits, 64);
      word := word + 1;
      if word >= BITMAP_WORDS {
        return INVALID_PRICE;
      }
      bits := ws[word];
    }
  }

  // ---------------------------------------------------------------- downward scan

  /** bits holds the marks of one word at or below from. */
  ghost predicate LowerPart(ws: Words, word: nat, from: Price, bits: bv64)
    requires word < |ws|
  {
    forall j :: 0 <= j < 64 ==> (Bit(bits, j) <==> 64 * word + j <= from && Bit(ws[word], j))
  }

  lemma FirstLower(ws: Words, from: Price)
    requires from < 64 * |ws|
    ensures LowerPart(ws, from / 64, from, And(ws[from / 64], LowMask(from % 64)))
  {
    hide Bit, LowMask, And;
    var word, f := from / 64, from % 64;
    assert from == 64 * word + f;
    forall j | 0 <= j < 64
      ensures Bit(And(ws[word], LowMask(f)), j) <==> 64 * word + j <= from && Bit(ws[word], j)
    {
      BitParts(ws[word], LowMask(f), j);
      LowMaskBit(f, j);
    }
  }

  lemma NoneDownTo(ws: Words, word: nat, from: Price, bits: bv64, n: nat)
    requires word < |ws| && LowerPart(ws, word, from, bits) && n <= 64 && forall j :: n <= j < 64 ==> !Bit(bits, j)
    ensures forall q :: 64 * word + n <= q < 64 * word + 64 && q <= from ==> !Marked(ws, q)
  {
  }

  /** The greatest marked price at or below from, or the invalid marker. */
  method NextOccupiedDesc(ws: Words, from: Price) returns (p: Price)
    requires |ws| == BITMAP_WORDS
    ensures p == INVALID_PRICE || (p <= from && p < MAX_PRICE_LEVELS && Marked(ws, p))
    ensures forall q :: 0 <= q <= from && q < MAX_PRICE_LEVELS && (p == INVALID_PRICE || p < q) ==> !Marked(ws, q)
  {
    hide Bit, LowMask, And, Marked;
    var start := if from >= MAX_PRICE_LEVELS then MAX_PRICE_LEVELS - 1 else from;
    var word: int := start / 64;
    var bits := And(ws[word], LowMask(start % 64));
    FirstLower(ws, start);
    while true
      invariant 0 <= word <= start / 64
      invariant forall q :: 64 * word + 64 <= q <= start ==> !Marked(ws, q)
      invariant LowerPart(ws, word, start, bits)
      decreases word
    {
      ZeroIsEmpty(bits);
      if bits != 0 {
        var bit := HighestBelow(bits, 64) - 1;
        NoneDownTo(ws, word, start, bits, bit + 1);
        MarkedAt(ws, word, bit);
        return 64 * word + bit;
      }
      NoneDownTo(ws, word, start, bits, 0);
      word := word - 1;
      if word < 0 {
        return INVALID_PRICE;
      }
      bits := ws[word];
    }
  }
}
