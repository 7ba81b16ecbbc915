/** Nearest-neighbour scaling of NV12 images with 16.16 fixed-point steps. */
module Nv12Rescale {
  import opened Machine

  const ONE: nat := 65536

  /** The fixed-point distance between samples, one unit too long. */
  function Ratio(s: nat, d: nat): nat
    requires d > 0
  {
    s * ONE / d + 1
  }

  /** The source coordinate sampled for destination coordinate x. */
  function Sample(x: nat, s: nat, d: nat): nat
    requires d > 0
  {
    x * Ratio(s, d) / ONE
  }

  // ---------- the samples ----------

  lemma RatioBounds(s: nat, d: nat)
    requires d > 0
    ensures s * ONE < Ratio(s, d) * d <= s * ONE + d
  {
    var q := s * ONE / d;
    assert q * d <= s * ONE < q * d + d;
    assert (q + 1) * d == q * d + d;
  }

  /** The sample is the rounded-down quotient of x * s by d, or the one after it, or one more
      for every 65536 samples. */
  lemma SampleIsNear(x: nat, s: nat, d: nat)
    requires x < d
    ensures x * s / d <= Sample(x, s, d) <= x * s / d + x / 65536 + 1
  {
    var r, f := Ratio(s, d), x * s / d;
    RatioBounds(s, d);
    assert f * d <= x * s < f * d + d;
    Multiply(s * ONE, r * d, x);
    Multiply(r * d, s * ONE + d, x);
    assert x * r * d == r * d * x;
    assert x * s * ONE == s * ONE * x;
    assert (s * ONE + d) * x == x * s * ONE + x * d;
    assert (f * ONE) * d <= x * r * d < ((f + 1) * ONE + x) * d by {
      assert (f * ONE) * d == (f * d) * ONE;
      assert ((f + 1) * ONE + x) * d == (f * d + d) * ONE + x * d;
    }
    assert (f * ONE - 1) * d == (f * ONE) * d - d;
    Cancel(f * ONE - 1, x * r, d);
    Cancel(x * r, (f + 1) * ONE + x, d);
  }

  /** For destinations that are not too large it is one of the first two. */
  lemma SampleIsFloorOrNext(x: nat, s: nat, d: nat)
    requires x < d <= ONE
    ensures x * s / d <= Sample(x, s, d) <= x * s / d + 1
  {
    SampleIsNear(x, s, d);
    hide Sample;
  }

  /** With the destination not too large, every sample lies in the source. */
  lemma SampleInRange(x: nat, s: nat, d: nat)
    requires x < d && d * (d - 1) < ONE * s
    ensures Sample(x, s, d) < s
  {
    var r := Ratio(s, d);
    RatioBounds(s, d);
    Multiply(r * d, s * ONE + d, x);
    Multiply(x, d - 1, s * ONE + d);
    assert x * r * d == r * d * x;
    assert x * (s * ONE + d) == (s * ONE + d) * x;
    assert (d - 1) * (s * ONE + d) == (s * ONE) * d - s * ONE + d * (d - 1);
    Cancel(x * r, s * ONE, d);
  }

  lemma SamplesGrow(x: nat, y: nat, s: nat, d: nat)
    requires x <= y && d > 0
    ensures Sample(x, s, d) <= Sample(y, s, d)
  {
    Multiply(x, y, Ratio(s, d));
  }

  /** All the first n samples lie in the source exactly when the last one does. */
  lemma SamplesInRangeIff(n: nat, s: nat, d: nat)
    requires n > 0 && d > 0
    ensures (n - 1) * Ratio(s, d) < ONE * s <==> forall x: nat :: x < n ==> Sample(x, s, d) < s
  {
    forall x: nat | x < n
      ensures Sample(x, s, d) <= Sample(n - 1, s, d)
    {
      SamplesGrow(x, n - 1, s, d);
    }
    assert Sample(n - 1, s, d) < s <==> (n - 1) * Ratio(s, d) < ONE * s;
  }

  /** With equal sizes each coordinate samples itself. */
  lemma SampleOfEqualSizes(x: nat, n: nat)
    requires x < n <= ONE
    ensures Sample(x, n, n) == x
  {
    DivisionIs(n * ONE, ONE, 0, n);
    var q := n * ONE / n;
    assert q * n == ONE * n;
    assert q < ONE ==> (ONE - q) * n > 0;
    assert q > ONE ==> (q - ONE) * n > 0;
    assert x * (ONE + 1) == x * ONE + x;
  }

  // ---------- the images ----------

  /** An NV12 image of the given width and height: the rows of luma, and below them half as
      many rows of chroma, a U and a V byte for each pair of columns. */
  function ImageSize(width: nat, height: nat): nat {
    Index(height + height / 2, 0, width)
  }

  function Index(row: nat, col: nat, width: nat): nat {
    row * width + col
  }

  lemma IndexInImage(row: nat, col: nat, width: nat, rows: nat)
    requires row < rows && col < width
    ensures Index(row, col, width) < Index(rows, 0, width)
  {
    Multiply(row + 1, rows, width);
  }

  lemma IndexIsInjective(row: nat, col: nat, width: nat, row': nat, col': nat)
    requires col < width && col' < width && Index(row, col, width) == Index(row', col', width)
    ensures row == row' && col == col'
  {
    if row < row' {
      Multiply(row + 1, row', width);
    } else if row' < row {
      Multiply(row' + 1, row, width);
    }
  }

  datatype Geometry = Geometry(sw: nat, sh: nat, dw: nat, dh: nat)

  /** What the scaling needs: sizes whose steps fit a signed 32-bit word, even source sizes,
      and no sample beyond the source. */
  predicate Scalable(g: Geometry) {
    && g.sw < 0x8000 && g.sh < 0x8000 && 0 < g.dw && 0 < g.dh && g.sw % 2 == 0 && g.sh % 2 == 0
    && (forall x: nat :: x < Rounded(g.dw) ==> Sample(x, g.sw, g.dw) < g.sw)
    && (forall y: nat :: y < Rounded(g.dh) ==> Sample(y, g.sh, g.dh) < g.sh)
  }

  /** n rounded down to a multiple of eight. */
  function Rounded(n: nat): (r: nat)
    ensures r <= n && r % 8 == 0 && n < r + 8
  {
    n - n % 8
  }

  /** The luma pixel at which the byte at a row and column of the destination is written. */
  function Writer(g: Geometry, row: nat, col: nat): (nat, nat) {
    if row < g.dh then (row, col) else (2 * (row - g.dh), col - col % 2)
  }

  /** The byte of the source that belongs at a row and column of the destination. */
  function SourceIndex(g: Geometry, row: nat, col: nat): nat
    requires g.dw > 0 && g.dh > 0
  {
    if row < g.dh then Index(Sample(row, g.sh, g.dh), Sample(col, g.sw, g.dw), g.sw)
    else
      Index(g.sh + Sample(2 * (row - g.dh), g.sh, g.dh) / 2,
            Sample(col - col % 2, g.sw, g.dw) / 2 * 2 + col % 2, g.sw)
  }

  /** The byte is among those that the loops write. */
  predicate Written(g: Geometry, row: nat, col: nat) {
    Writer(g, row, col).0 < Rounded(g.dh) && col < Rounded(g.dw)
  }

  /** Every read of a written byte is in the image, luma from luma and chroma from chroma. */
  lemma SourceInImage(g: Geometry, row: nat, col: nat)
    requires Scalable(g) && Written(g, row, col)
    ensures SourceIndex(g, row, col) < ImageSize(g.sw, g.sh)
    ensures row < g.dh <==> SourceIndex(g, row, col) < Index(g.sh, 0, g.sw)
  {
    hide Sample, Rounded, Index;
    var y, x := Writer(g, row, col).0, Writer(g, row, col).1;
    var srcy, srcx := Sample(y, g.sh, g.dh), Sample(x, g.sw, g.dw);
    assert srcy < g.sh && srcx < g.sw;
    if row < g.dh {
      IndexInImage(srcy, srcx, g.sw, g.sh);
      LaterRow(g.sh, 0, g.sh + g.sh / 2, g.sw);
    } else {
      assert srcy / 2 < g.sh / 2 && srcx / 2 * 2 + col % 2 < g.sw;
      IndexInImage(g.sh + srcy / 2, srcx / 2 * 2 + col % 2, g.sw, g.sh + g.sh / 2);
      LaterRow(g.sh, srcx / 2 * 2 + col % 2, g.sh + srcy / 2, g.sw);
    }
  }

  lemma LaterRow(row: nat, col: nat, later: nat, width: nat)
    requires row <= later
    ensures Index(row, 0, width) <= Index(later, col, width)
  {
    Multiply(row, later, width);
  }

  /** Lexicographic order of the loops. */
  predicate Before(p: (nat, nat), y: nat, x: nat) {
    p.0 < y || (p.0 == y && p.1 < x)
  }

  /** The destination while the loops stand at (y, x). */
  ghost predicate ScaledUpTo(g: Geometry, src: seq<byte>, was: seq<byte>, dst: seq<byte>, y: nat, x: nat)
    requires Scalable(g) && |src| == ImageSize(g.sw, g.sh) && |was| == |dst| == ImageSize(g.dw, g.dh)
  {
    forall row, col :: 0 <= row < g.dh + g.dh / 2 && 0 <= col < g.dw ==>
                         ScaledAt(g, src, was, dst, row, col, Before(Writer(g, row, col), y, x))
  }

  ghost predicate ScaledAt(g: Geometry, src: seq<byte>, was: seq<byte>, dst: seq<byte>, row: nat, col: nat, done: bool)
    requires Scalable(g) && |src| == ImageSize(g.sw, g.sh) && |was| == |dst| == ImageSize(g.dw, g.dh)
    requires row < g.dh + g.dh / 2 && col < g.dw
  {
    IndexInImage(row, col, g.dw, g.dh + g.dh / 2);
    var i := Index(row, col, g.dw);
    if done && Written(g, row, col) then
      SourceInImage(g, row, col);
      dst[i] == src[SourceIndex(g, row, col)]
    else dst[i] == was[i]
  }

  /** The bytes that one turn of the inner loop writes. */
  ghost predicate PixelScaled(g: Geometry, src: seq<byte>, was: seq<byte>, dst: seq<byte>, y: nat, x: nat)
    requires Scalable(g) && |src| == ImageSize(g.sw, g.sh) && |was| == |dst| == ImageSize(g.dw, g.dh)
  {
    forall row, col :: 0 <= row < g.dh + g.dh / 2 && 0 <= col < g.dw ==>
                         ScaledAt(g, src, was, dst, row, col, Writer(g, row, col) == (y, x))
  }

  lemma PixelAdvances(g: Geometry, src: seq<byte>, was: seq<byte>, mid: seq<byte>, dst: seq<byte>, y: nat, x: nat)
    requires Scalable(g) && |src| == ImageSize(g.sw, g.sh) && |was| == |mid| == |dst| == ImageSize(g.dw, g.dh)
    requires ScaledUpTo(g, src, was, mid, y, x) && PixelScaled(g, src, mid, dst, y, x)
    ensures ScaledUpTo(g, src, was, dst, y, x + 1)
  {
    forall row: nat, col: nat | row < g.dh + g.dh / 2 && col < g.dw
      ensures ScaledAt(g, src, was, dst, row, col, Before(Writer(g, row, col), y, x + 1))
    {
      assert ScaledAt(g, src, was, mid, row, col, Before(Writer(g, row, col), y, x));
      assert ScaledAt(g, src, mid, dst, row, col, Writer(g, row, col) == (y, x));
      hide Scalable, Written, Writer;
    }
  }

  /** At the end of a row the loops stand at the start of the next. */
  lemma RowAdvances(g: Geometry, src: seq<byte>, was: seq<byte>, dst: seq<byte>, y: nat)
    requires Scalable(g) && |src| == ImageSize(g.sw, g.sh) && |was| == |dst| == ImageSize(g.dw, g.dh)
    requires ScaledUpTo(g, src, was, dst, y, Rounded(g.dw))
    ensures ScaledUpTo(g, src, was, dst, y + 1, 0)
  {
    forall row: nat, col: nat | row < g.dh + g.dh / 2 && col < g.dw
      ensures ScaledAt(g, src, was, dst, row, col, Before(Writer(g, row, col), y + 1, 0))
    {
      assert ScaledAt(g, src, was, dst, row, col, Before(Writer(g, row, col), y, Rounded(g.dw)));
    }
  }

  /** The whole scaling: every byte of the written region comes from its source byte, and
      no other byte changes. */
  ghost predicate Scaled(g: Geometry, src: seq<byte>, was: seq<byte>, dst: seq<byte>)
    requires Scalable(g) && |src| == ImageSize(g.sw, g.sh) && |was| == |dst| == ImageSize(g.dw, g.dh)
  {
    forall row, col :: 0 <= row < g.dh + g.dh / 2 && 0 <= col < g.dw ==> ScaledAt(g, src, was, dst, row, col, true)
  }

  lemma AllScaled(g: Geometry, src: seq<byte>, was: seq<byte>, dst: seq<byte>)
    requires Scalable(g) && |src| == ImageSize(g.sw, g.sh) && |was| == |dst| == ImageSize(g.dw, g.dh)
    requires ScaledUpTo(g, src, was, dst, Rounded(g.dh), 0)
    ensures Scaled(g, src, was, dst)
  {
    forall row: nat, col: nat | row < g.dh + g.dh / 2 && col < g.dw
      ensures ScaledAt(g, src, was, dst, row, col, true)
    {
      assert ScaledAt(g, src, was, dst, row, col, Before(Writer(g, row, col), Rounded(g.dh), 0));
    }
  }

  method NearestScale(src: array<byte>, dst: array<byte>, g: Geometry)
    requires Scalable(g) && src != dst && src.Length == ImageSize(g.sw, g.sh) && dst.Length == ImageSize(g.dw, g.dh)
    modifies dst
    ensures Scaled(g, src[..], old(dst[..]), dst[..])
  {
    ghost var was := dst[..];
    var y := 0;
    while y < Rounded(g.dh)
      invariant y <= Rounded(g.dh)
      invariant ScaledUpTo(g, src[..], was, dst[..], y, 0)
    {
      var srcy := Sample(y, g.sh, g.dh);
      var x := 0;
      while x < Rounded(g.dw)
        invariant x <= Rounded(g.dw)
        invariant ScaledUpTo(g, src[..], was, dst[..], y, x)
      {
        ghost var mid := dst[..];
        ScalePixel(src, dst, g, y, x, srcy);
        PixelAdvances(g, src[..], was, mid, dst[..], y, x);
        x := x + 1;
      }
      RowAdvances(g, src[..], was, dst[..], y);
      y := y + 1;
    }
    AllScaled(g, src[..], was, dst[..]);
  }

  /** One turn of the inner loop. */
  method ScalePixel(src: array<byte>, dst: array<byte>, g: Geometry, y: nat, x: nat, srcy: nat)
    requires Scalable(g) && src != dst && src.Length == ImageSize(g.sw, g.sh) && dst.Length == ImageSize(g.dw, g.dh)
    requires y < Rounded(g.dh) && x < Rounded(g.dw) && srcy == Sample(y, g.sh, g.dh)
    modifies dst
    ensures PixelScaled(g, src[..], old(dst[..]), dst[..], y, x)
  {
    PixelIndices(g, y, x);
    ghost var was := dst[..];
    var srcx := Sample(x, g.sw, g.dw);
    hide Scalable, Written, Writer, Sample, Index;
    dst[Index(y, x, g.dw)] := src[Index(srcy, srcx, g.sw)];
    if y % 2 == 0 {
      if x % 2 == 0 {
        var srcIndex := srcx / 2 * 2;
        var sp := Index(g.dh + y / 2, x, g.dw);
        var dp := Index(g.sh + srcy / 2, srcIndex, g.sw);
        dst[sp] := src[dp];
        sp, dp := sp + 1, dp + 1;
        dst[sp] := src[dp];
      }
    }
    assert dst[..] == PixelBytes(g, src[..], was, y, x);
    PixelBytesAreScaled(g, src[..], was, y, x);
  }

  lemma NextColumn(row: nat, col: nat, width: nat)
    ensures Index(row, col + 1, width) == Index(row, col, width) + 1
  {
  }

  predicate LumaIndices(g: Geometry, y: nat, x: nat)
    requires g.dw > 0 && g.dh > 0
  {
    && Index(y, x, g.dw) < ImageSize(g.dw, g.dh)
    && Index(Sample(y, g.sh, g.dh), Sample(x, g.sw, g.dw), g.sw) == SourceIndex(g, y, x) < ImageSize(g.sw, g.sh)
  }

  predicate ChromaIndices(g: Geometry, y: nat, x: nat)
    requires g.dw > 0 && g.dh > 0
  {
    var row := g.dh + y / 2;
    && Index(row, x + 1, g.dw) == Index(row, x, g.dw) + 1 < ImageSize(g.dw, g.dh)
    && ChromaIndex(g, y, x, 0) == SourceIndex(g, row, x)
    && SourceIndex(g, row, x + 1) == SourceIndex(g, row, x) + 1 < ImageSize(g.sw, g.sh)
  }

  /** The chroma pair of a luma pixel at even coordinates is written. */
  lemma ChromaWritten(g: Geometry, y: nat, x: nat, k: nat)
    requires y < Rounded(g.dh) && x < Rounded(g.dw) && y % 2 == 0 && x % 2 == 0 && k < 2
    ensures g.dh + y / 2 < g.dh + g.dh / 2 && x + k < Rounded(g.dw) && Written(g, g.dh + y / 2, x + k)
    ensures 2 * (g.dh + y / 2 - g.dh) == y && x + k - (x + k) % 2 == x && (x + k) % 2 == k
  {
    EvenBelow(g.dh, y);
    EvenBelow(g.dw, x);
    var h := x / 2;
    assert x == 2 * h;
    DivisionIs(x + k, h, k, 2);
    hide Rounded;
  }

  lemma EvenBelow(n: nat, x: nat)
    requires x < Rounded(n) && x % 2 == 0
    ensures x + 1 < Rounded(n) && x / 2 < n / 2 && 2 * (x / 2) == x
  {
    var h, m := x / 2, n / 8;
    assert x == 2 * h && Rounded(n) == 8 * m;
    assert h < 4 * m && 8 * m <= n;
  }

  /** It comes from the pair of the sampled pixel. */
  lemma ChromaSource(g: Geometry, y: nat, x: nat, k: nat)
    requires g.dw > 0 && g.dh > 0 && k < 2
    requires 2 * (g.dh + y / 2 - g.dh) == y && x + k - (x + k) % 2 == x && (x + k) % 2 == k
    ensures SourceIndex(g, g.dh + y / 2, x + k) == ChromaIndex(g, y, x, k)
  {
    hide Sample, Index;
  }

  /** The k-th byte of the chroma pair of the pixel sampled for (y, x). */
  function ChromaIndex(g: Geometry, y: nat, x: nat, k: nat): nat
    requires g.dw > 0 && g.dh > 0
  {
    Index(g.sh + Sample(y, g.sh, g.dh) / 2, Sample(x, g.sw, g.dw) / 2 * 2 + k, g.sw)
  }

  /** Where that pair goes and comes from. */
  lemma ChromaIndicesHold(g: Geometry, y: nat, x: nat)
    requires Scalable(g) && y < Rounded(g.dh) && x < Rounded(g.dw) && y % 2 == 0 && x % 2 == 0
    ensures ChromaIndices(g, y, x)
  {
    assert g.dw > 0 && g.dh > 0;
    hide Sample, Index, ImageSize, SourceIndex, Scalable, Written;
    var row := g.dh + y / 2;
    ChromaWritten(g, y, x, 0);
    ChromaWritten(g, y, x, 1);
    ChromaSource(g, y, x, 0);
    ChromaSource(g, y, x, 1);
    ImageRows(g.dw, g.dh);
    IndexInImage(row, x + 1, g.dw, g.dh + g.dh / 2);
    SourceInImage(g, row, x + 1);
    NextColumn(row, x, g.dw);
    NextColumn(g.sh + Sample(y, g.sh, g.dh) / 2, Sample(x, g.sw, g.dw) / 2 * 2, g.sw);
  }

  lemma ImageRows(width: nat, height: nat)
    ensures ImageSize(width, height) == Index(height + height / 2, 0, width)
  {
  }

  /** Where the bytes of a luma pixel and of its chroma pair, if it has one, go and come
      from. */
  lemma PixelIndices(g: Geometry, y: nat, x: nat)
    requires Scalable(g) && y < Rounded(g.dh) && x < Rounded(g.dw)
    ensures LumaIndices(g, y, x) && (y % 2 == 0 && x % 2 == 0 ==> ChromaIndices(g, y, x))
  {
    hide Sample, Index, ImageSize;
    ImageRows(g.dw, g.dh);
    IndexInImage(y, x, g.dw, g.dh + g.dh / 2);
    SourceInImage(g, y, x);
    if y % 2 == 0 && x % 2 == 0 {
      ChromaIndicesHold(g, y, x);
    }
  }

  /** The destination after one turn. */
  ghost function PixelBytes(g: Geometry, src: seq<byte>, was: seq<byte>, y: nat, x: nat): (dst: seq<byte>)
    requires Scalable(g) && |src| == ImageSize(g.sw, g.sh) && |was| == ImageSize(g.dw, g.dh)
    requires y < Rounded(g.dh) && x < Rounded(g.dw)
    ensures |dst| == |was|
  {
    PixelIndices(g, y, x);
    var dst := was[Index(y, x, g.dw) := src[SourceIndex(g, y, x)]];
    if y % 2 == 0 && x % 2 == 0 then
      var row := g.dh + y / 2;
      var one := dst[Index(row, x, g.dw) := src[SourceIndex(g, row, x)]];
      one[Index(row, x + 1, g.dw) := src[SourceIndex(g, row, x + 1)]]
    else dst
  }

  lemma PixelBytesAreScaled(g: Geometry, src: seq<byte>, was: seq<byte>, y: nat, x: nat)
    requires Scalable(g) && |src| == ImageSize(g.sw, g.sh) && |was| == ImageSize(g.dw, g.dh)
    requires y < Rounded(g.dh) && x < Rounded(g.dw)
    ensures PixelScaled(g, src, was, PixelBytes(g, src, was, y, x), y, x)
  {
    forall row: nat, col: nat | row < g.dh + g.dh / 2 && col < g.dw
      ensures ScaledAt(g, src, was, PixelBytes(g, src, was, y, x), row, col, Writer(g, row, col) == (y, x))
    {
      ByteIsScaled(g, src, was, y, x, row, col);
    }
  }

  lemma ByteIsScaled(g: Geometry, src: seq<byte>, was: seq<byte>, y: nat, x: nat, row: nat, col: nat)
    requires Scalable(g) && |src| == ImageSize(g.sw, g.sh) && |was| == ImageSize(g.dw, g.dh)
    requires y < Rounded(g.dh) && x < Rounded(g.dw) && row < g.dh + g.dh / 2 && col < g.dw
    ensures ScaledAt(g, src, was, PixelBytes(g, src, was, y, x), row, col, Writer(g, row, col) == (y, x))
  {
    hide Sample, Index, SourceIndex, Scalable, ImageSize;
    PixelIndices(g, y, x);
    ImageRows(g.dw, g.dh);
    IndexInImage(row, col, g.dw, g.dh + g.dh / 2);
    SameIndexSamePlace(row, col, g.dw, y, x);
    SameIndexSamePlace(row, col, g.dw, g.dh + y / 2, x);
    if x % 2 == 0 {
      SameIndexSamePlace(row, col, g.dw, g.dh + y / 2, x + 1);
    }
    WriterIs(g, row, col, y, x);
    hide Writer;
  }

  /** The bytes that a turn writes. */
  lemma WriterIs(g: Geometry, row: nat, col: nat, y: nat, x: nat)
    requires y < g.dh
    ensures Writer(g, row, col) == (y, x)
            <==> (|| (row == y && col == x)
                  || (y % 2 == 0 && x % 2 == 0 && row == g.dh + y / 2 && (col == x || col == x + 1)))
  {
  }

  lemma SameIndexSamePlace(row: nat, col: nat, width: nat, row': nat, col': nat)
    requires col < width && col' < width
    ensures Index(row, col, width) == Index(row', col', width) <==> row == row' && col == col'
  {
    if Index(row, col, width) == Index(row', col', width) {
      IndexIsInjective(row, col, width, row', col');
    }
  }

  // ---------- what follows ----------

  /** The luma byte at (y, x) is the source's at (sy, sx). */
  predicate LumaFrom(g: Geometry, src: seq<byte>, dst: seq<byte>, y: nat, x: nat, sy: nat, sx: nat) {
    y * g.dw + x < |dst| && sy * g.sw + sx < |src| && dst[y * g.dw + x] == src[sy * g.sw + sx]
  }

  /** The chroma pair of (y, x), U before V, is that of the source's pixel (sy, sx). */
  predicate ChromaFrom(g: Geometry, src: seq<byte>, dst: seq<byte>, y: nat, x: nat, sy: nat, sx: nat) {
    var at, from := (g.dh + y / 2) * g.dw + x, (g.sh + sy / 2) * g.sw + sx / 2 * 2;
    at + 1 < |dst| && from + 1 < |src| && dst[at] == src[from] && dst[at + 1] == src[from + 1]
  }

  /** Coordinate sx is the proportional place, or the next, or one more for every 65536. */
  predicate Near(sx: nat, x: nat, s: nat, d: nat)
    requires d > 0
  {
    x * s / d <= sx <= x * s / d + x / 65536 + 1 && sx < s
  }

  /** For all sizes: the pixel written at (y, x) is the source's pixel near the proportional
      place, and the chroma pair of an even (y, x) is the pair of that same source pixel. */
  lemma ScaledPixel(g: Geometry, src: seq<byte>, was: seq<byte>, dst: seq<byte>, y: nat, x: nat)
    returns (sy: nat, sx: nat)
    requires Scalable(g) && |src| == ImageSize(g.sw, g.sh) && |was| == |dst| == ImageSize(g.dw, g.dh)
    requires Scaled(g, src, was, dst) && y < g.dh / 8 * 8 && x < g.dw / 8 * 8
    ensures Near(sy, y, g.sh, g.dh) && Near(sx, x, g.sw, g.dw)
    ensures LumaFrom(g, src, dst, y, x, sy, sx)
    ensures y % 2 == 0 && x % 2 == 0 ==> ChromaFrom(g, src, dst, y, x, sy, sx)
  {
    sy, sx := Sample(y, g.sh, g.dh), Sample(x, g.sw, g.dw);
    RoundedDown(g.dh, y);
    RoundedDown(g.dw, x);
    SampleIsNear(y, g.sh, g.dh);
    SampleIsNear(x, g.sw, g.dw);
    assert sy < g.sh && sx < g.sw;
    hide Sample, Rounded, Index, ImageSize, Scaled, Scalable, SourceIndex, LumaFrom, ChromaFrom;
    LumaScaled(g, src, was, dst, y, x);
    if y % 2 == 0 && x % 2 == 0 {
      ChromaScaled(g, src, was, dst, y, x);
    }
  }

  lemma RoundedDown(n: nat, x: nat)
    ensures x < n / 8 * 8 <==> x < Rounded(n)
  {
  }

  lemma LumaScaled(g: Geometry, src: seq<byte>, was: seq<byte>, dst: seq<byte>, y: nat, x: nat)
    requires Scalable(g) && |src| == ImageSize(g.sw, g.sh) && |was| == |dst| == ImageSize(g.dw, g.dh)
    requires Scaled(g, src, was, dst) && y < Rounded(g.dh) && x < Rounded(g.dw)
    ensures LumaFrom(g, src, dst, y, x, Sample(y, g.sh, g.dh), Sample(x, g.sw, g.dw))
  {
    IndicesAre(g, y, x);
    hide Sample, Index, Rounded, SourceIndex;
    ImageRows(g.dw, g.dh);
    IndexInImage(y, x, g.dw, g.dh + g.dh / 2);
    assert ScaledAt(g, src, was, dst, y, x, true);
    SourceInImage(g, y, x);
  }

  lemma IndicesAre(g: Geometry, y: nat, x: nat)
    requires g.dw > 0 && g.dh > 0 && y < g.dh
    ensures Index(y, x, g.dw) == y * g.dw + x
    ensures SourceIndex(g, y, x) == Sample(y, g.sh, g.dh) * g.sw + Sample(x, g.sw, g.dw)
  {
    hide Sample;
  }

  lemma ChromaScaled(g: Geometry, src: seq<byte>, was: seq<byte>, dst: seq<byte>, y: nat, x: nat)
    requires Scalable(g) && |src| == ImageSize(g.sw, g.sh) && |was| == |dst| == ImageSize(g.dw, g.dh)
    requires Scaled(g, src, was, dst) && y < Rounded(g.dh) && x < Rounded(g.dw) && y % 2 == 0 && x % 2 == 0
    ensures ChromaFrom(g, src, dst, y, x, Sample(y, g.sh, g.dh), Sample(x, g.sw, g.dw))
  {
    var row := g.dh + y / 2;
    var from := ChromaIndex(g, y, x, 0);
    assert from == (g.sh + Sample(y, g.sh, g.dh) / 2) * g.sw + Sample(x, g.sw, g.dw) / 2 * 2;
    assert Index(row, x, g.dw) == row * g.dw + x;
    hide Sample, Index, Rounded, SourceIndex, ImageSize, Scalable, ChromaIndex;
    ChromaIndicesHold(g, y, x);
    ChromaWritten(g, y, x, 0);
    ChromaWritten(g, y, x, 1);
    assert ScaledAt(g, src, was, dst, row, x, true);
    assert ScaledAt(g, src, was, dst, row, x + 1, true);
  }

  /** The bytes of pixels and pairs that lie beyond the last multiple of eight stay. */
  lemma RestStays(g: Geometry, src: seq<byte>, was: seq<byte>, dst: seq<byte>, row: nat, col: nat)
    requires Scalable(g) && |src| == ImageSize(g.sw, g.sh) && |was| == |dst| == ImageSize(g.dw, g.dh)
    requires Scaled(g, src, was, dst) && row < g.dh + g.dh / 2 && col < g.dw
    requires col >= g.dw / 8 * 8 || (if row < g.dh then row else 2 * (row - g.dh)) >= g.dh / 8 * 8
    ensures row * g.dw + col < |dst| && dst[row * g.dw + col] == was[row * g.dw + col]
  {
    IndexInImage(row, col, g.dw, g.dh + g.dh / 2);
    assert ScaledAt(g, src, was, dst, row, col, true);
    assert !Written(g, row, col);
    hide Sample, SourceIndex, Scalable, ScaledAt, Scaled;
  }

  /** Even source sizes and destinations that are not too large meet what the scaling needs. */
  lemma ModerateSizesAreScalable(g: Geometry)
    requires 0 < g.dw && 0 < g.dh && g.sw < 0x8000 && g.sh < 0x8000 && g.sw % 2 == 0 && g.sh % 2 == 0
    requires g.dw * (g.dw - 1) < ONE * g.sw && g.dh * (g.dh - 1) < ONE * g.sh
    ensures Scalable(g)
  {
    forall x: nat | x < Rounded(g.dw)
      ensures Sample(x, g.sw, g.dw) < g.sw
    {
      SampleInRange(x, g.sw, g.dw);
    }
    forall y: nat | y < Rounded(g.dh)
      ensures Sample(y, g.sh, g.dh) < g.sh
    {
      SampleInRange(y, g.sh, g.dh);
    }
  }

  lemma EqualSizesSource(g: Geometry, row: nat, col: nat)
    requires g.sw == g.dw < ONE && g.sh == g.dh < ONE && Written(g, row, col)
    ensures SourceIndex(g, row, col) == Index(row, col, g.dw)
  {
    hide Sample, Index, Rounded;
    var p := Writer(g, row, col);
    SampleOfEqualSizes(p.0, g.dh);
    SampleOfEqualSizes(p.1, g.dw);
  }

  /** Between equal sizes the written region is copied exactly. */
  lemma EqualSizesCopy(g: Geometry, src: seq<byte>, was: seq<byte>, dst: seq<byte>, row: nat, col: nat)
    requires Scalable(g) && |src| == ImageSize(g.sw, g.sh) && |was| == |dst| == ImageSize(g.dw, g.dh)
    requires Scaled(g, src, was, dst) && g.sw == g.dw && g.sh == g.dh
    requires row < g.dh + g.dh / 2 && col < g.dw
    ensures Index(row, col, g.dw) < |dst| == |src| == |was|
    ensures dst[Index(row, col, g.dw)]
            == if Written(g, row, col) then src[Index(row, col, g.dw)] else was[Index(row, col, g.dw)]
  {
    hide Sample, Index, Rounded, SourceIndex, Written;
    IndexInImage(row, col, g.dw, g.dh + g.dh / 2);
    assert ScaledAt(g, src, was, dst, row, col, true);
    if Written(g, row, col) {
      EqualSizesSource(g, row, col);
    }
  }
}
