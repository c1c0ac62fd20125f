/**
 Reading a 24-bit BMP file, the size of its padded rows, and the viewer's flip of
 the bottom-up rows onto the screen.
 */
module Bitmap {
  import opened Framing
  import opened Framebuffer
  import opened Arithmetic

  const FILE_HEADER: nat := 14
  const INFO_HEADER: nat := 40
  const BM: int := 0x4D42

  datatype Image = Image(width: int, height: int, data: seq<byte>)

  datatype Loading =
    | Loaded(image: Image)
    | ShortFileHeader
    | NotABitmap
    | ShortInfoHeader
    | WrongDepth
    | Compressed
    | NoMemory
    | ShortData

  // --------------------------------------------------------------- the file

  function Field16(file: seq<byte>, at: nat): int
    requires at + 2 <= |file|
  {
    file[at] as int + 256 * (file[at + 1] as int)
  }

  function Field32(file: seq<byte>, at: nat): int
    requires at + 4 <= |file|
  {
    IntOf(file[at..at + 4])
  }

  /** C's division rounds toward zero. */
  function CDiv(a: int, b: nat): int
    requires b > 0
  {
    if a >= 0 then a / b else -((-a) / b)
  }

  function PaddedRow(width: int): int {
    CDiv(width * 3 + 3, 4) * 4
  }

  /** An unsigned offset. */
  function DataStart(file: seq<byte>): (n: int)
    requires |file| >= FILE_HEADER
    ensures n >= 0
  {
    var n := Field32(file, 10);
    if n < 0 then n + INT_RANGE else n
  }

  /** The file is a complete, uncompressed 24-bit bitmap. */
  predicate WellFormed(file: seq<byte>) {
    && |file| >= FILE_HEADER && Field16(file, 0) == BM
    && |file| >= FILE_HEADER + INFO_HEADER && Field16(file, 28) == 24 && Field32(file, 30) == 0
    && (var total := PaddedRow(Field32(file, 18)) * Field32(file, 22);
        0 <= total && (total == 0 || DataStart(file) + total <= |file|))
  }

  /** The size of the pixel data in memory; `readBmp` allocates exactly this much. */
  predicate HasData(image: Image) {
    |image.data| == PaddedRow(image.width) * image.height
  }

  /**
   `readBmp`: loads exactly the well-formed files whose data fits the memory that can be
   allocated, and then yields the header's dimensions and the bytes that start at the
   header's offset. Each failure has its one reason.
   */
  method ReadBmp(file: seq<byte>, memory: nat) returns (r: Loading)
    ensures r.Loaded? <==> WellFormed(file) && PaddedRow(Field32(file, 18)) * Field32(file, 22) <= memory
    ensures r.ShortFileHeader? <==> |file| < 14
    ensures r.NotABitmap? <==> |file| >= 14 && !(file[0] == 66 && file[1] == 77)
    ensures r.ShortInfoHeader? <==> 14 <= |file| < 54 && file[0] == 66 && file[1] == 77
    ensures |file| >= 54 && file[0] == 66 && file[1] == 77 ==>
              var total := PaddedRow(Field32(file, 18)) * Field32(file, 22);
              && (r.WrongDepth? <==> Field16(file, 28) != 24)
              && (r.Compressed? <==> Field16(file, 28) == 24 && Field32(file, 30) != 0)
              && (r.NoMemory? <==> Field16(file, 28) == 24 && Field32(file, 30) == 0 && !(0 <= total <= memory))
    ensures r.Loaded? ==>
              && HasData(r.image)
              && r.image.width == Field32(file, 18) && r.image.height == Field32(file, 22)
              && (r.image.data != [] ==>
                    r.image.data == file[DataStart(file)..DataStart(file) + |r.image.data|])
  {
    if |file| < FILE_HEADER {
      return ShortFileHeader;
    }
    if Field16(file, 0) != BM {
      return NotABitmap;
    }
    if |file| < FILE_HEADER + INFO_HEADER {
      return ShortInfoHeader;
    }
    if Field16(file, 28) != 24 {
      return WrongDepth;
    }
    if Field32(file, 30) != 0 {
      return Compressed;
    }
    var cols, rows := Field32(file, 18), Field32(file, 22);
    var start := DataStart(file);
    var paddedRowSize := CDiv(cols * 3 + 3, 4) * 4;
    var total := paddedRowSize * rows;
    if total < 0 || total > memory {
      // a negative product is more than the address space as a size_t
      return NoMemory;
    }
    if total != 0 && start + total > |file| {
      return ShortData;
    }
    var data := if total == 0 then [] else file[start..start + total];
    return Loaded(Image(cols, rows, data));
  }

  /** A bitmap file as one writes it: both headers, then the rows. */
  function Store(image: Image): seq<byte>
    requires 0 <= image.width <= INT_MAX && 0 <= image.height <= INT_MAX
  {
    [66, 77] + IntBytes(0) + IntBytes(0) + IntBytes(54)
    + IntBytes(40) + IntBytes(image.width) + IntBytes(image.height)
    + [1, 0] + [24, 0] + IntBytes(0) + IntBytes(0) + IntBytes(0) + IntBytes(0) + IntBytes(0) + IntBytes(0)
    + image.data
  }

  lemma {:induction false} StoreLayout(image: Image)
    requires 0 <= image.width <= INT_MAX && 0 <= image.height <= INT_MAX
    ensures var f := Store(image);
            && |f| == 54 + |image.data|
            && Field16(f, 0) == BM && Field16(f, 28) == 24 && Field32(f, 30) == 0
            && Field32(f, 10) == 54 && Field32(f, 18) == image.width && Field32(f, 22) == image.height
            && f[54..] == image.data
  {
    var f := Store(image);
    IntRoundTrip(0);
    IntRoundTrip(54);
    IntRoundTrip(image.width);
    IntRoundTrip(image.height);
    assert f[10..14] == IntBytes(54);
    assert f[18..22] == IntBytes(image.width);
    assert f[22..26] == IntBytes(image.height);
    assert f[30..34] == IntBytes(0);
  }

  /** Reading back a stored bitmap yields the same bitmap. */
  method ReadStored(image: Image, memory: nat) returns (r: Loading)
    requires 0 <= image.width <= INT_MAX && 0 <= image.height <= INT_MAX && HasData(image)
    ensures r == if |image.data| <= memory then Loaded(image) else NoMemory
  {
    StoreLayout(image);
    var file := Store(image);
    assert DataStart(file) == 54;
    r := ReadBmp(file, memory);
    if r.Loaded? {
      assert |r.image.data| == |image.data|;
      assert file[54..54 + |image.data|] == image.data;
    }
  }

  // ---------------------------------------------------------------- strides

  /**
   For a positive width the padded row is the least multiple of four that holds three
   bytes per pixel, and the scan-line size of section 2.2.2.9 of [MS-WMF].
   */
  lemma PaddedRowIsLeast(width: int)
    requires width > 0
    ensures PaddedRow(width) % 4 == 0 && 3 * width <= PaddedRow(width) < 3 * width + 4
    ensures forall m: int :: m % 4 == 0 && 3 * width <= m ==> PaddedRow(width) <= m
    ensures PaddedRow(width) == (width * 24 + 31) / 32 * 32 / 8
    ensures PaddedRow(width) == 3 * width <==> width % 4 == 0
  {
    var p := PaddedRow(width);
    assert p == (3 * width + 3) / 4 * 4;
    assert (width * 24 + 31) / 32 == (3 * width + 3) / 4;
    forall m: int | m % 4 == 0 && 3 * width <= m ensures p <= m {
      assert m == m / 4 * 4;
    }
  }

  // ----------------------------------------------------------------- viewer

  /** The 16-bit pixel of the three bytes blue, green, red at `at`. */
  function PixelAt(data: seq<byte>, at: int): bv16
    requires 0 <= at && at + 3 <= |data|
  {
    MakePixel(data[at + 2] as bv8, data[at + 1] as bv8, data[at] as bv8)
  }

  /** The 5-6-5 pixel of the bytes at `o`: blue comes first, red last. */
  predicate HasColours(p: bv16, data: seq<byte>, o: int)
    requires 0 <= o && o + 3 <= |data|
  {
    && p >> 11 == (data[o + 2] as bv8 >> 3) as bv16
    && (p >> 5) & 0x3F == (data[o + 1] as bv8 >> 2) as bv16
    && p & 0x1F == (data[o] as bv8 >> 3) as bv16
  }

  lemma PixelHasColours(data: seq<byte>, o: int)
    requires 0 <= o && o + 3 <= |data|
    ensures HasColours(PixelAt(data, o), data, o)
  {
    hide MakePixel;
    ChannelsAreSeparate(data[o + 2] as bv8, data[o + 1] as bv8, data[o] as bv8);
  }

  /** Where the viewer reads screen pixel `(x, y)`: it takes the rows as unpadded. */
  function ViewerOffset(w: int, h: int, x: int, y: int): int {
    (h - 1 - y) * w * 3 + x * 3
  }

  /** Where the file has column `x` of the row that belongs on line `y`. */
  function StoredOffset(w: int, h: int, x: int, y: int): int {
    (h - 1 - y) * PaddedRow(w) + x * 3
  }

  predicate InImage(w: int, h: int, x: int, y: int) {
    0 <= x < w && 0 <= y < h
  }

  /** Every read of the viewer, and every correct one, stays inside the pixel data. */
  lemma OffsetsInside(w: int, h: int, x: int, y: int)
    requires InImage(w, h, x, y)
    ensures 0 <= ViewerOffset(w, h, x, y) <= StoredOffset(w, h, x, y)
    ensures StoredOffset(w, h, x, y) + 3 <= PaddedRow(w) * h
  {
    var p, n := PaddedRow(w), h - 1 - y;
    PaddedRowIsLeast(w);
    Scale(n, 3 * w, p);
    assert n * w * 3 == n * (3 * w);
    Scale2(n, h - 1, p);
    assert (h - 1) * p + p == p * h;
    assert n * (3 * w) >= 0;
  }

  lemma Scale(n: int, a: int, b: int)
    requires 0 <= n && 0 <= a <= b
    ensures 0 <= n * a <= n * b
  {
  }

  lemma Scale2(n: int, m: int, p: int)
    requires 0 <= n <= m && 0 <= p
    ensures n * p <= m * p
  {
  }

  /** The pixel the viewer computes for a point of the image; black elsewhere. */
  function Dot(image: Image, x: int, y: int): bv16
    requires HasData(image)
  {
    if InImage(image.width, image.height, x, y) then
      OffsetsInside(image.width, image.height, x, y);
      PixelAt(image.data, ViewerOffset(image.width, image.height, x, y))
    else 0
  }

  /** The viewer's picture of the image, as large as the screen. */
  function Picture(image: Image, fbw: nat, n: nat): (p: seq<bv16>)
    requires HasData(image) && fbw > 0
    ensures |p| == n
  {
    seq(n, k requires 0 <= k < n => Dot(image, k % fbw, k / fbw))
  }

  /** The points of the image that are on the screen, up to row `y` and column `x` of it. */
  ghost function Seen(fbw: nat, fbh: nat, w: int, y: int, x: int): iset<(int, int)> {
    iset p: (int, int) | OnScreen(fbw, fbh, p.0, p.1) && p.0 < w && (p.1 < y || (p.1 == y && p.0 < x))
  }

  /** The conversion buffer, whose points off the image keep what they held. */
  ghost function Converted(image: Image, before: seq<bv16>, fbw: nat): (after: seq<bv16>)
    requires HasData(image) && fbw > 0
    ensures |after| == |before|
  {
    Blend(before, Picture(image, fbw, |before|), fbw, Rectangle(0, 0, image.width, image.height))
  }

  /**
   The viewer's conversion and copy. The whole buffer goes to the screen, so where the
   image does not reach the screen shows what the buffer happened to hold.
   */
  method Show(image: Image, fbw: nat, fbh: nat, buffer: array<bv16>, screen: array<bv16>)
    requires HasData(image) && fbw > 0 && buffer.Length == screen.Length == fbw * fbh && buffer != screen
    modifies buffer, screen
    ensures screen[..] == Converted(image, old(buffer[..]), fbw)
  {
    hide Converted;
    Convert(image, fbw, fbh, buffer);
    forall k | 0 <= k < screen.Length {
      screen[k] := buffer[k];
    }
    assert screen[..] == buffer[..];
  }

  /** The conversion loop: every point of the image that fits the screen is filled in. */
  method Convert(image: Image, fbw: nat, fbh: nat, buffer: array<bv16>)
    requires HasData(image) && fbw > 0 && buffer.Length == fbw * fbh
    modifies buffer
    ensures buffer[..] == Converted(image, old(buffer[..]), fbw)
  {
    hide Blend, Picture;
    ghost var before, picture := buffer[..], Picture(image, fbw, buffer.Length);
    var w, h := image.width, image.height;
    var y := 0;
    BlendNothing(before, picture, fbw);
    assert Seen(fbw, fbh, w, 0, 0) == iset{};
    while y < h
      invariant 0 <= y && (y <= h || y == 0)
      invariant buffer[..] == Blend(before, picture, fbw, Seen(fbw, fbh, w, y, 0))
    {
      var k := (h - 1 - y) * w * 3;
      var t := y * fbw;
      var x := 0;
      while x < w
        invariant 0 <= x && (x <= w || x == 0)
        invariant buffer[..] == Blend(before, picture, fbw, Seen(fbw, fbh, w, y, x))
      {
        if 0 <= x < fbw && 0 <= y < fbh {
          OffsetsInside(w, h, x, y);
          IndexReadsBack(fbw, fbh, x, y);
          PictureAt(image, fbw, fbh, x, y);
          BlendMore(before, picture, fbw, fbh, Seen(fbw, fbh, w, y, x), x, y);
          buffer[t + x] := PixelAt(image.data, k + x * 3);
          assert Seen(fbw, fbh, w, y, x) + iset{(x, y)} == Seen(fbw, fbh, w, y, x + 1);
        } else {
          assert Seen(fbw, fbh, w, y, x) == Seen(fbw, fbh, w, y, x + 1);
        }
        x := x + 1;
      }
      assert Seen(fbw, fbh, w, y, x) == Seen(fbw, fbh, w, y + 1, 0);
      y := y + 1;
    }
    SeenAll(before, picture, fbw, fbh, w, h, y);
  }

  lemma PictureAt(image: Image, fbw: nat, fbh: nat, x: int, y: int)
    requires HasData(image) && fbw > 0 && OnScreen(fbw, fbh, x, y)
    ensures 0 <= x + y * fbw < fbw * fbh
    ensures Picture(image, fbw, fbw * fbh)[x + y * fbw] == Dot(image, x, y)
  {
    IndexReadsBack(fbw, fbh, x, y);
  }

  lemma SeenAll(before: seq<bv16>, picture: seq<bv16>, fbw: nat, fbh: nat, w: int, h: int, y: int)
    requires fbw > 0 && |before| == |picture| == fbw * fbh && (y == h || (y == 0 && h <= 0))
    ensures Blend(before, picture, fbw, Seen(fbw, fbh, w, y, 0)) == Blend(before, picture, fbw, Rectangle(0, 0, w, h))
  {
    forall k | 0 <= k < |before|
      ensures (k % fbw, k / fbw) in Seen(fbw, fbh, w, y, 0) <==> (k % fbw, k / fbw) in Rectangle(0, 0, w, h)
    {
      PixelOfIndex(fbw, fbh, k);
    }
  }

  /**
   The screen afterwards, pixel by pixel: the image's where it covers the screen, the
   buffer's first content elsewhere.
   */
  lemma ConvertedAt(image: Image, before: seq<bv16>, fbw: nat, fbh: nat, x: int, y: int)
    requires HasData(image) && fbw > 0 && |before| == fbw * fbh && OnScreen(fbw, fbh, x, y)
    ensures 0 <= x + y * fbw < |before|
    ensures Converted(image, before, fbw)[x + y * fbw]
            == if InImage(image.width, image.height, x, y) then Dot(image, x, y) else before[x + y * fbw]
  {
    hide Blend, Picture, Dot, HasData;
    PictureAt(image, fbw, fbh, x, y);
    BlendAt(before, Picture(image, fbw, |before|), fbw, fbh, Rectangle(0, 0, image.width, image.height), x, y);
  }

  /**
   The colours the viewer shows: at a point of the image on the screen, those of the three
   bytes it reads, red from the last of them and blue from the first.
   */
  lemma ShowsColours(image: Image, before: seq<bv16>, fbw: nat, fbh: nat, x: int, y: int)
    requires HasData(image) && fbw > 0 && |before| == fbw * fbh && OnScreen(fbw, fbh, x, y)
    requires InImage(image.width, image.height, x, y)
    ensures 0 <= x + y * fbw < |before|
    ensures var o := (image.height - 1 - y) * image.width * 3 + x * 3;
            && 0 <= o && o + 3 <= |image.data|
            && HasColours(Converted(image, before, fbw)[x + y * fbw], image.data, o)
  {
    hide Converted, PixelAt, PaddedRow, HasColours;
    ConvertedAt(image, before, fbw, fbh, x, y);
    OffsetsInside(image.width, image.height, x, y);
    PixelHasColours(image.data, ViewerOffset(image.width, image.height, x, y));
  }

  /** With unpadded rows the screen shows the stored rows the right way up. */
  lemma ShowsStoredRows(image: Image, before: seq<bv16>, fbw: nat, fbh: nat, x: int, y: int)
    requires HasData(image) && fbw > 0 && |before| == fbw * fbh && OnScreen(fbw, fbh, x, y)
    requires InImage(image.width, image.height, x, y) && RowsUnpadded(image.width, image.height)
    ensures 0 <= x + y * fbw < |before|
    ensures 0 <= StoredOffset(image.width, image.height, x, y) && StoredOffset(image.width, image.height, x, y) + 3 <= |image.data|
    ensures Converted(image, before, fbw)[x + y * fbw]
            == PixelAt(image.data, StoredOffset(image.width, image.height, x, y))
  {
    hide Converted, PixelAt, PaddedRow, ViewerOffset, StoredOffset, RowsUnpadded;
    ConvertedAt(image, before, fbw, fbh, x, y);
    OffsetsInside(image.width, image.height, x, y);
    SameOffset(image.width, image.height, x, y);
  }

  // ---------------------------------------------------- when the flip is right

  /** Every visible pixel is that of the stored row it belongs to. */
  ghost predicate FlipIsRight(image: Image, fbw: nat, fbh: nat)
    requires HasData(image)
  {
    forall x, y {:trigger Dot(image, x, y)} ::
      InImage(image.width, image.height, x, y) && OnScreen(fbw, fbh, x, y) ==> RightAt(image, x, y)
  }

  predicate RightAt(image: Image, x: int, y: int)
    requires HasData(image) && InImage(image.width, image.height, x, y)
  {
    OffsetsInside(image.width, image.height, x, y);
    Dot(image, x, y) == PixelAt(image.data, StoredOffset(image.width, image.height, x, y))
  }

  /** The width, or having a single row, decides whether the viewer reads the right rows. */
  predicate RowsUnpadded(w: int, h: int) {
    w % 4 == 0 || h == 1
  }

  lemma SameOffset(w: int, h: int, x: int, y: int)
    requires InImage(w, h, x, y) && RowsUnpadded(w, h)
    ensures ViewerOffset(w, h, x, y) == StoredOffset(w, h, x, y)
  {
    hide PaddedRow;
    PaddedRowIsLeast(w);
    if w % 4 == 0 {
      assert (h - 1 - y) * w * 3 == (h - 1 - y) * (3 * w);
    }
  }

  lemma UnpaddedIsRight(image: Image, fbw: nat, fbh: nat)
    requires image.width > 0 && image.height > 0 && HasData(image) && RowsUnpadded(image.width, image.height)
    ensures FlipIsRight(image, fbw, fbh)
  {
    hide PixelAt, PaddedRow, ViewerOffset, StoredOffset, HasData, RowsUnpadded;
    var w, h := image.width, image.height;
    forall x, y | InImage(w, h, x, y) && OnScreen(fbw, fbh, x, y) ensures RightAt(image, x, y) {
      OffsetsInside(w, h, x, y);
      SameOffset(w, h, x, y);
    }
  }

  /** All zeros but for one byte, which the viewer takes for the blue of its first pixel. */
  function Misread(w: int, h: int): Image
    requires w > 0 && h > 0
  {
    PaddedRowIsLeast(w);
    OffsetsInside(w, h, 0, 0);
    var n := PaddedRow(w) * h;
    Image(w, h, seq(n, k requires 0 <= k < n => if k == ViewerOffset(w, h, 0, 0) then 255 else 0))
  }

  lemma PaddedIsWrong(w: int, h: int, fbw: nat, fbh: nat)
    requires w > 0 && h > 0 && fbw > 0 && fbh > 0 && !RowsUnpadded(w, h)
    ensures !FlipIsRight(Misread(w, h), fbw, fbh)
  {
    hide MakePixel, PaddedRow;
    var image := Misread(w, h);
    PaddedRowIsLeast(w);
    OffsetsInside(w, h, 0, 0);
    OffsetsApart(w, h);
    assert Dot(image, 0, 0) == MakePixel(0, 0, 255);
    assert PixelAt(image.data, StoredOffset(w, h, 0, 0)) == MakePixel(0, 0, 0);
    BlueShows();
    assert !RightAt(image, 0, 0);
    assert OnScreen(fbw, fbh, 0, 0) && InImage(image.width, image.height, 0, 0);
  }

  lemma OffsetsApart(w: int, h: int)
    requires w > 0 && h > 0 && !RowsUnpadded(w, h)
    ensures ViewerOffset(w, h, 0, 0) < StoredOffset(w, h, 0, 0)
  {
    hide PaddedRow;
    PaddedRowIsLeast(w);
    var p := PaddedRow(w);
    assert (h - 1) * w * 3 == (h - 1) * (3 * w);
    assert (h - 1) * p == (h - 1) * (3 * w) + (h - 1) * (p - 3 * w);
    MultipleIsLarge(h - 1, p - 3 * w);
  }

  lemma BlueShows()
    ensures MakePixel(0, 0, 255) != MakePixel(0, 0, 0)
  {
  }

  /**
   The viewer puts every stored row on its own line, whatever the pixel data, exactly
   when the rows need no padding or there is just one.
   */
  lemma FlipIsRightIff(w: int, h: int, fbw: nat, fbh: nat)
    requires w > 0 && h > 0 && fbw > 0 && fbh > 0
    ensures (forall data :: HasData(Image(w, h, data)) ==> FlipIsRight(Image(w, h, data), fbw, fbh))
            <==> RowsUnpadded(w, h)
  {
    if RowsUnpadded(w, h) {
      forall data | HasData(Image(w, h, data)) ensures FlipIsRight(Image(w, h, data), fbw, fbh) {
        UnpaddedIsRight(Image(w, h, data), fbw, fbh);
      }
    } else {
      PaddedIsWrong(w, h, fbw, fbh);
      var data := Misread(w, h).data;
      assert HasData(Image(w, h, data));
    }
  }
}
