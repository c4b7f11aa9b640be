/** The layout of the source framebuffer: a monochrome bitmap stored row after row, one bit
    per pixel, 32 pixels to a word, the leftmost pixel of a word in its most significant bit.
    `Pack` builds that layout from a grid of pixels; it is the reference the renderer's
    sampler is proved against. */
module Bitmap {
  import opened Bits

  /** The value of a word whose bits are listed most significant first. */
  function WordOf(bits: seq<bool>): nat
    decreases |bits|
  {
    if bits == [] then 0
    else 2 * WordOf(bits[..|bits| - 1]) + (if bits[|bits| - 1] then 1 else 0)
  }

  /** n bits hold a value below 2^n. */
  lemma {:induction false} WordOfBound(bits: seq<bool>)
    ensures WordOf(bits) < Pow2(|bits|)
    decreases |bits|
  {
    if bits != [] {
      WordOfBound(bits[..|bits| - 1]);
    }
  }

  /** The i-th listed bit is the bit of weight 2^(|bits| - 1 - i). */
  lemma {:induction false} WordOfBit(bits: seq<bool>, i: nat)
    requires i < |bits|
    ensures BitSet(WordOf(bits), |bits| - 1 - i) <==> bits[i]
    decreases |bits|
  {
    var n := |bits|;
    var init := bits[..n - 1];
    var b := if bits[n - 1] then 1 else 0;
    var k := n - 1 - i;
    if i < n - 1 {
      // Shifting right by k drops the last bit, then k - 1 more places within init.
      assert Pow2(k) == 2 * Pow2(k - 1);
      DivDouble(WordOf(init), b, Pow2(k - 1));
      WordOfBit(init, i);
    }
  }

  /** One bitmap row of `s` words packed into 32-bit words. */
  function PackRow(row: seq<bool>, s: nat): (ws: seq<u32>)
    requires |row| == 32 * s
    ensures |ws| == s
    decreases s
  {
    if s == 0 then []
    else
      Pow2Of32();
      WordOfBound(row[..32]);
      [WordOf(row[..32])] + PackRow(row[32..], s - 1)
  }

  lemma {:induction false} PackRowAt(row: seq<bool>, s: nat, k: nat)
    requires |row| == 32 * s && k < s
    ensures PackRow(row, s)[k] == WordOf(row[32 * k .. 32 * k + 32])
    decreases s
  {
    if k > 0 {
      var rest := row[32..];
      PackRowAt(rest, s - 1, k - 1);
      var j := 32 * (k - 1);
      assert 32 + j == 32 * k;
      assert rest[j .. j + 32] == row[32 + j .. 32 + j + 32];
    }
  }

  /** Pixel x sits at bit x % 32 of word x / 32. */
  lemma WordOfPixel(x: nat, s: nat)
    requires x < 32 * s
    ensures x / 32 < s && 32 * (x / 32) + x % 32 == x
  {
  }

  /** Every row is a whole number `stride` of words wide. */
  predicate Rectangular(rows: seq<seq<bool>>, stride: nat) {
    forall y :: 0 <= y < |rows| ==> |rows[y]| == 32 * stride
  }

  /** The framebuffer holding `rows`, top row first, `stride` words to a row. */
  function Pack(rows: seq<seq<bool>>, stride: nat): (fb: seq<u32>)
    requires Rectangular(rows, stride)
    ensures |fb| == |rows| * stride
    decreases |rows|
  {
    if rows == [] then []
    else
      MulPred(|rows|, stride);
      PackRow(rows[0], stride) + Pack(rows[1..], stride)
  }

  /** Word i of the framebuffer, with i = y * stride + k, is word k of row y. */
  lemma {:induction false} PackAt(rows: seq<seq<bool>>, stride: nat, y: nat, k: nat, i: nat)
    requires Rectangular(rows, stride) && y < |rows| && k < stride && i == y * stride + k
    ensures i < |Pack(rows, stride)|
    ensures Pack(rows, stride)[i] == PackRow(rows[y], stride)[k]
    decreases y
  {
    RowIndexBound(y, |rows|, stride, k);
    if y > 0 {
      MulPred(y, stride);
      PackTail(rows, stride, i);
      PackAt(rows[1..], stride, y - 1, k, i - stride);
      assert rows[1..][y - 1] == rows[y];
    }
  }

  /** Past the first row, the framebuffer continues with the rest of the rows. */
  lemma PackTail(rows: seq<seq<bool>>, stride: nat, i: nat)
    requires Rectangular(rows, stride) && rows != [] && stride <= i < |Pack(rows, stride)|
    ensures Rectangular(rows[1..], stride)
    ensures Pack(rows, stride)[i] == Pack(rows[1..], stride)[i - stride]
  {
    RestRectangular(rows, stride);
    var head, tail := PackRow(rows[0], stride), Pack(rows[1..], stride);
    assert Pack(rows, stride) == head + tail;
    assert |head| == stride;
  }

  lemma RestRectangular(rows: seq<seq<bool>>, stride: nat)
    requires Rectangular(rows, stride) && rows != []
    ensures Rectangular(rows[1..], stride)
  {
    var rest := rows[1..];
    forall j | 0 <= j < |rest| ensures |rest[j]| == 32 * stride {
      assert rest[j] == rows[j + 1];
    }
  }

  /** Word k of row y lies inside a buffer of n rows of s words. */
  lemma RowIndexBound(y: nat, n: nat, s: nat, k: nat)
    requires y < n && k < s
    ensures y * s + k < n * s
  {
    assert y * s <= (n - 1) * s by {
      MulLe(y, n - 1, s);
    }
    MulPred(n, s);
  }

  lemma MulPred(y: nat, s: nat)
    requires y > 0
    ensures y * s == s + (y - 1) * s && (y - 1) * s >= 0
  {
  }

  /** The bit for pixel (x, y) of a framebuffer with `stride` words per row is set:
      bit 31 - x % 32 of word x / 32 of row y. */
  predicate PixelLit(fb: seq<u32>, stride: nat, x: nat, y: nat) {
    var i := y * stride + x / 32;
    i < |fb| && BitSet(fb[i], 31 - x % 32)
  }

  /** Packing a grid and reading a pixel back gives the pixel of the grid. */
  lemma PackedPixel(rows: seq<seq<bool>>, stride: nat, x: nat, y: nat)
    requires Rectangular(rows, stride) && y < |rows| && x < 32 * stride
    ensures y * stride + x / 32 < |Pack(rows, stride)|
    ensures PixelLit(Pack(rows, stride), stride, x, y) <==> rows[y][x]
  {
    WordOfPixel(x, stride);
    PackedBit(rows, stride, y, x / 32, x % 32);
  }

  /** Bit 31 - r of word k of row y is pixel 32 * k + r of that row. */
  lemma PackedBit(rows: seq<seq<bool>>, stride: nat, y: nat, k: nat, r: nat)
    requires Rectangular(rows, stride) && y < |rows| && k < stride && r < 32
    ensures y * stride + k < |Pack(rows, stride)|
    ensures BitSet(Pack(rows, stride)[y * stride + k], 31 - r) <==> rows[y][32 * k + r]
  {
    PackAt(rows, stride, y, k, y * stride + k);
    PackRowAt(rows[y], stride, k);
    var bits := rows[y][32 * k .. 32 * k + 32];
    WordOfBit(bits, r);
    assert bits[r] == rows[y][32 * k + r];
  }
}
