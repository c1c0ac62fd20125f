/**
 A 16-bit framebuffer seen both as the device file's bytes and as the words of its
 mapping, and the two ways of filling a rectangle.
 */
module Framebuffer {
  import opened Arithmetic

  /** `makepixel`: five bits of red, six of green, five of blue. */
  function MakePixel(r: bv8, g: bv8, b: bv8): bv16 {
    ((r as bv16 >> 3) << 11) | ((g as bv16 >> 2) << 5) | (b as bv16 >> 3)
  }

  /** The three channels do not overlap: each is read back from its own bits. */
  lemma ChannelsAreSeparate(r: bv8, g: bv8, b: bv8)
    ensures MakePixel(r, g, b) >> 11 == r as bv16 >> 3
    ensures (MakePixel(r, g, b) >> 5) & 0x3F == g as bv16 >> 2
    ensures MakePixel(r, g, b) & 0x1F == b as bv16 >> 3
  {
  }

  // ---------------------------------------------------------------- indices

  predicate OnScreen(xres: nat, yres: nat, x: int, y: int) {
    0 <= x < xres && 0 <= y < yres
  }

  /** Row-major index; distinct pixels have distinct indices, and each can be read back. */
  lemma IndexReadsBack(xres: nat, yres: nat, x: int, y: int)
    requires OnScreen(xres, yres, x, y)
    ensures 0 <= x + y * xres < xres * yres
    ensures (x + y * xres) % xres == x && (x + y * xres) / xres == y
  {
    RowInside(xres, yres, y);
    DivModUnique(xres, y, x);
  }

  lemma RowInside(xres: nat, yres: nat, y: int)
    requires 0 <= y < yres
    ensures 0 <= y * xres && y * xres + xres <= xres * yres
  {
    MultipleIsLarge(yres - y, xres);
    assert (yres - y) * xres == xres * yres - y * xres;
    MultipleIsLarger(xres, 0, y);
  }

  lemma PixelOfIndex(xres: nat, yres: nat, k: nat)
    requires xres > 0 && k < xres * yres
    ensures OnScreen(xres, yres, k % xres, k / xres)
    ensures k % xres + k / xres * xres == k
  {
    var a := k / xres - yres + 1;
    assert a * xres == k / xres * xres - yres * xres + xres;
    MultipleIsLarge(a, xres);
  }

  // ------------------------------------------------------------------ words

  /** The little-endian word that two bytes of the device hold. */
  function Word(lo: bv8, hi: bv8): bv16 {
    (hi as bv16 << 8) | lo as bv16
  }

  function LowByte(w: bv16): bv8 {
    (w & 0xFF) as bv8
  }

  function HighByte(w: bv16): bv8 {
    (w >> 8) as bv8
  }

  lemma WordOfBytes(w: bv16)
    ensures Word(LowByte(w), HighByte(w)) == w
  {
  }

  /** The bytes of the device file as the words of its mapping. */
  function Words(bytes: seq<bv8>): (ws: seq<bv16>)
    ensures |ws| == |bytes| / 2
  {
    seq(|bytes| / 2, i requires 0 <= i < |bytes| / 2 => Word(bytes[2 * i], bytes[2 * i + 1]))
  }

  /** `lseek` and a `write` of the two bytes of a pixel, the low byte first. */
  method WritePixel(file: array<bv8>, offset: nat, pixel: bv16)
    requires offset % 2 == 0 && offset + 2 <= file.Length
    modifies file
    ensures Words(file[..]) == old(Words(file[..]))[offset / 2 := pixel]
    ensures file[offset] == (pixel & 0xFF) as bv8 && file[offset + 1] == (pixel >> 8) as bv8
  {
    ghost var before := file[..];
    file[offset] := LowByte(pixel);
    file[offset + 1] := HighByte(pixel);
    WordOfBytes(pixel);
    assert file[..] == before[offset := LowByte(pixel)][offset + 1 := HighByte(pixel)];
  }

  // --------------------------------------------------------------- painting

  /** The image with one colour at the given points; points off the screen do nothing. */
  ghost function Paint(img: seq<bv16>, xres: nat, points: iset<(int, int)>, colour: bv16): (out: seq<bv16>)
    requires xres > 0
    ensures |out| == |img|
  {
    seq(|img|, k requires 0 <= k < |img| => if (k % xres, k / xres) in points then colour else img[k])
  }

  lemma PaintTwice(img: seq<bv16>, xres: nat, a: iset<(int, int)>, b: iset<(int, int)>, colour: bv16)
    requires xres > 0
    ensures Paint(Paint(img, xres, a, colour), xres, b, colour) == Paint(img, xres, a + b, colour)
  {
  }

  lemma PaintNothing(img: seq<bv16>, xres: nat, colour: bv16)
    requires xres > 0
    ensures Paint(img, xres, iset{}, colour) == img
  {
  }

  lemma PaintOne(img: seq<bv16>, xres: nat, yres: nat, x: int, y: int, colour: bv16)
    requires xres > 0 && |img| == xres * yres
    ensures OnScreen(xres, yres, x, y) ==>
              0 <= x + y * xres < |img| && Paint(img, xres, iset{(x, y)}, colour) == img[x + y * xres := colour]
    ensures !OnScreen(xres, yres, x, y) ==> Paint(img, xres, iset{(x, y)}, colour) == img
  {
    var out := Paint(img, xres, iset{(x, y)}, colour);
    if OnScreen(xres, yres, x, y) {
      IndexReadsBack(xres, yres, x, y);
    }
    forall k | 0 <= k < |img|
      ensures out[k] == if OnScreen(xres, yres, x, y) && k == x + y * xres then colour else img[k]
    {
      PixelOfIndex(xres, yres, k);
    }
  }

  /** The image with the points of another picture of the same screen copied in. */
  ghost function Blend(img: seq<bv16>, picture: seq<bv16>, xres: nat, points: iset<(int, int)>): (out: seq<bv16>)
    requires xres > 0 && |picture| == |img|
    ensures |out| == |img|
  {
    seq(|img|, k requires 0 <= k < |img| => if (k % xres, k / xres) in points then picture[k] else img[k])
  }

  lemma BlendMore(img: seq<bv16>, picture: seq<bv16>, xres: nat, yres: nat, points: iset<(int, int)>, x: int, y: int)
    requires xres > 0 && |img| == |picture| == xres * yres && OnScreen(xres, yres, x, y)
    ensures 0 <= x + y * xres < |img|
    ensures Blend(img, picture, xres, points)[x + y * xres := picture[x + y * xres]]
            == Blend(img, picture, xres, points + iset{(x, y)})
  {
    IndexReadsBack(xres, yres, x, y);
    var out := Blend(img, picture, xres, points)[x + y * xres := picture[x + y * xres]];
    forall k | 0 <= k < |img|
      ensures out[k] == if (k % xres, k / xres) in points + iset{(x, y)} then picture[k] else img[k]
    {
      PixelOfIndex(xres, yres, k);
    }
  }

  lemma BlendNothing(img: seq<bv16>, picture: seq<bv16>, xres: nat)
    requires xres > 0 && |picture| == |img|
    ensures Blend(img, picture, xres, iset{}) == img
  {
  }

  lemma BlendAt(img: seq<bv16>, picture: seq<bv16>, xres: nat, yres: nat, points: iset<(int, int)>, x: int, y: int)
    requires xres > 0 && |img| == |picture| == xres * yres && OnScreen(xres, yres, x, y)
    ensures 0 <= x + y * xres < |img|
    ensures Blend(img, picture, xres, points)[x + y * xres]
            == if (x, y) in points then picture[x + y * xres] else img[x + y * xres]
  {
    IndexReadsBack(xres, yres, x, y);
  }

  /** `drawpoint`: paints the point if it is on the screen. */
  method DrawPoint(file: array<bv8>, xres: nat, yres: nat, x: int, y: int, r: bv8, g: bv8, b: bv8)
    requires xres > 0 && file.Length == 2 * (xres * yres)
    modifies file
    ensures Words(file[..]) == Paint(old(Words(file[..])), xres, iset{(x, y)}, MakePixel(r, g, b))
  {
    var pixel := MakePixel(r, g, b);
    PaintOne(Words(file[..]), xres, yres, x, y, pixel);
    if x < 0 || x >= xres || y < 0 || y >= yres {
      return;
    }
    WritePixel(file, (x + y * xres) * 2, pixel);
  }

  // ------------------------------------------------------------- rectangles

  /** An end coordinate of 0 stands for the screen's edge. */
  function EndOr(end: int, edge: nat): int {
    if end == 0 then edge else end
  }

  ghost function Rectangle(x0: int, y0: int, x1: int, y1: int): iset<(int, int)> {
    iset x, y | x0 <= x < x1 && y0 <= y < y1 :: (x, y)
  }

  /** Where the fills put a point, on the screen or not: beyond the right edge the rows run on. */
  function Index(xres: nat, p: (int, int)): int {
    p.0 + p.1 * xres
  }

  ghost function Indices(xres: nat, points: iset<(int, int)>): iset<int> {
    iset p | p in points :: Index(xres, p)
  }

  /** The image with the colour at these indices. */
  ghost function Stain(img: seq<bv16>, indices: iset<int>, colour: bv16): (out: seq<bv16>)
    ensures |out| == |img|
  {
    seq(|img|, k requires 0 <= k < |img| => if k in indices then colour else img[k])
  }

  lemma StainOne(img: seq<bv16>, xres: nat, points: iset<(int, int)>, p: (int, int), colour: bv16)
    requires 0 <= Index(xres, p) < |img|
    ensures Stain(img, Indices(xres, points), colour)[Index(xres, p) := colour]
            == Stain(img, Indices(xres, points + iset{p}), colour)
  {
    hide Index;
    assert Indices(xres, points + iset{p}) == Indices(xres, points) + iset{Index(xres, p)};
  }

  lemma StainBeyond(img: seq<bv16>, xres: nat, points: iset<(int, int)>, p: (int, int), colour: bv16)
    requires Index(xres, p) >= |img|
    ensures Stain(img, Indices(xres, points + iset{p}), colour) == Stain(img, Indices(xres, points), colour)
  {
    hide Index;
    assert Indices(xres, points + iset{p}) == Indices(xres, points) + iset{Index(xres, p)};
  }

  lemma StainNothing(img: seq<bv16>, xres: nat, colour: bv16)
    ensures Stain(img, Indices(xres, iset{}), colour) == img
  {
  }

  /** The first and the last point, if there are any, have indices inside the device. */
  predicate InDevice(xres: nat, yres: nat, x0: int, y0: int, endX: int, endY: int) {
    x0 < endX && y0 < endY ==> 0 <= Index(xres, (x0, y0)) && Index(xres, (endX - 1, endY - 1)) < xres * yres
  }

  lemma IndexGrows(xres: nat, x: int, y: int, x': int, y': int)
    requires x <= x' && y <= y'
    ensures Index(xres, (x, y)) <= Index(xres, (x', y'))
  {
    MultipleIsLarger(xres, y, y');
  }

  lemma MultipleIsLarger(xres: nat, y: int, y': int)
    requires y <= y'
    ensures y * xres <= y' * xres
  {
  }

  /** Then so have all the others. */
  lemma AllInDevice(xres: nat, yres: nat, x0: int, y0: int, endX: int, endY: int, x: int, y: int)
    requires InDevice(xres, yres, x0, y0, endX, endY) && x0 <= x < endX && y0 <= y < endY
    ensures 0 <= Index(xres, (x, y)) < xres * yres
  {
    hide Index;
    IndexGrows(xres, x0, y0, x, y);
    IndexGrows(xres, x, y, endX - 1, endY - 1);
  }

  ghost function Filled(img: seq<bv16>, xres: nat, yres: nat, x0: int, y0: int, x1: int, y1: int, pixel: bv16): seq<bv16> {
    Stain(img, Indices(xres, Rectangle(x0, y0, EndOr(x1, xres), EndOr(y1, yres))), pixel)
  }

  /** No store goes before the start of the device. */
  predicate StartsInDevice(xres: nat, x0: int, y0: int, endX: int, endY: int) {
    x0 < endX && y0 < endY ==> 0 <= Index(xres, (x0, y0))
  }

  lemma NoneBefore(xres: nat, x0: int, y0: int, endX: int, endY: int, x: int, y: int)
    requires StartsInDevice(xres, x0, y0, endX, endY) && x0 <= x < endX && y0 <= y < endY
    ensures 0 <= Index(xres, (x, y))
  {
    hide Index;
    IndexGrows(xres, x0, y0, x, y);
  }

  /** One `lseek` and `write` of the column-by-column fill; past the end of the device nothing is written. */
  method StorePoint(file: array<bv8>, xres: nat, yres: nat, x: int, y: int, pixel: bv16, ghost img: seq<bv16>, ghost done: iset<(int, int)>)
    requires file.Length == 2 * (xres * yres) && 0 <= Index(xres, (x, y))
    requires |img| == xres * yres && Words(file[..]) == Stain(img, Indices(xres, done), pixel)
    modifies file
    ensures Words(file[..]) == Stain(img, Indices(xres, done + iset{(x, y)}), pixel)
  {
    hide Words, Stain, Indices;
    if x + y * xres < xres * yres {
      StainOne(img, xres, done, (x, y), pixel);
      WritePixel(file, (x + y * xres) * 2, pixel);
    } else {
      StainBeyond(img, xres, done, (x, y), pixel);
    }
  }

  /** `drawface`: column by column, two bytes at a time through the device file. */
  method DrawFace(file: array<bv8>, xres: nat, yres: nat, x0: int, y0: int, x1: int, y1: int, r: bv8, g: bv8, b: bv8)
    requires file.Length == 2 * (xres * yres) && StartsInDevice(xres, x0, y0, EndOr(x1, xres), EndOr(y1, yres))
    modifies file
    ensures Words(file[..]) == Filled(old(Words(file[..])), xres, yres, x0, y0, x1, y1, MakePixel(r, g, b))
  {
    hide Words, Stain, Indices, Index, MakePixel, StartsInDevice;
    var pixel := MakePixel(r, g, b);
    ghost var img := Words(file[..]);
    var endX, endY := EndOr(x1, xres), EndOr(y1, yres);
    var x := x0;
    StainNothing(img, xres, pixel);
    assert Rectangle(x0, y0, x, endY) == iset{};
    while x < endX
      invariant x0 <= x && (x <= endX || x == x0)
      invariant Words(file[..]) == Stain(img, Indices(xres, Rectangle(x0, y0, x, endY)), pixel)
    {
      var y := y0;
      ghost var done := Rectangle(x0, y0, x, endY);
      assert done + Rectangle(x, y0, x + 1, y) == done;
      while y < endY
        invariant y0 <= y && (y <= endY || y == y0)
        invariant Words(file[..]) == Stain(img, Indices(xres, done + Rectangle(x, y0, x + 1, y)), pixel)
      {
        NoneBefore(xres, x0, y0, endX, endY, x, y);
        StorePoint(file, xres, yres, x, y, pixel, img, done + Rectangle(x, y0, x + 1, y));
        assert done + Rectangle(x, y0, x + 1, y) + iset{(x, y)} == done + Rectangle(x, y0, x + 1, y + 1);
        y := y + 1;
      }
      assert done + Rectangle(x, y0, x + 1, y) == Rectangle(x0, y0, x + 1, endY);
      x := x + 1;
    }
    assert Rectangle(x0, y0, x, endY) == Rectangle(x0, y0, endX, endY);
  }

  /**
   `drawfacemmap`: row by row, a word at a time through the mapping. The row offset is an
   unsigned product, so no row may be negative.
   */
  method DrawFaceMmap(map16: array<bv16>, xres: nat, yres: nat, x0: int, y0: int, x1: int, y1: int, r: bv8, g: bv8, b: bv8)
    requires map16.Length == xres * yres && InDevice(xres, yres, x0, y0, EndOr(x1, xres), EndOr(y1, yres))
    requires x0 < EndOr(x1, xres) && y0 < EndOr(y1, yres) ==> y0 >= 0
    modifies map16
    ensures map16[..] == Filled(old(map16[..]), xres, yres, x0, y0, x1, y1, MakePixel(r, g, b))
  {
    hide Stain, Indices, MakePixel, InDevice;
    var pixel := MakePixel(r, g, b);
    ghost var img := map16[..];
    var endX, endY := EndOr(x1, xres), EndOr(y1, yres);
    var y := y0;
    StainNothing(img, xres, pixel);
    assert Rectangle(x0, y0, endX, y) == iset{};
    while y < endY
      invariant y0 <= y && (y <= endY || y == y0)
      invariant map16[..] == Stain(img, Indices(xres, Rectangle(x0, y0, endX, y)), pixel)
    {
      var x := x0;
      ghost var done := Rectangle(x0, y0, endX, y);
      assert done + Rectangle(x0, y, x, y + 1) == done;
      while x < endX
        invariant x0 <= x && (x <= endX || x == x0)
        invariant map16[..] == Stain(img, Indices(xres, done + Rectangle(x0, y, x, y + 1)), pixel)
      {
        AllInDevice(xres, yres, x0, y0, endX, endY, x, y);
        StainOne(img, xres, done + Rectangle(x0, y, x, y + 1), (x, y), pixel);
        assert done + Rectangle(x0, y, x, y + 1) + iset{(x, y)} == done + Rectangle(x0, y, x + 1, y + 1);
        map16[x + y * xres] := pixel;
        x := x + 1;
      }
      assert done + Rectangle(x0, y, x, y + 1) == Rectangle(x0, y0, endX, y + 1);
      y := y + 1;
    }
    assert Rectangle(x0, y0, endX, y) == Rectangle(x0, y0, endX, endY);
  }

  // ------------------------------------------------------ what a fill changes

  lemma OffByRows(xres: nat, x: int, y: int)
    requires xres > 0 && Index(xres, (x, y)) >= 0
    ensures x < 0 ==> Index(xres, (x, y)) / xres < y
    ensures x >= xres ==> Index(xres, (x, y)) / xres > y
  {
    var k := Index(xres, (x, y));
    DivModOf(k, xres);
    if x < 0 && k / xres >= y {
      MultipleIsLarger(xres, y, k / xres);
    }
    if x >= xres && k / xres <= y {
      MultipleIsLarger(xres, k / xres, y);
    }
  }

  lemma DivModOf(k: nat, n: nat)
    requires n > 0
    ensures k == k / n * n + k % n
  {
  }

  /** The pixels at these indices are exactly the points of the rectangle. */
  ghost predicate FillsItsRectangle(xres: nat, yres: nat, x0: int, y0: int, endX: int, endY: int)
    requires xres > 0
  {
    var points := Rectangle(x0, y0, endX, endY);
    forall k {:trigger k in Indices(xres, points)} :: 0 <= k < xres * yres ==>
      (k in Indices(xres, points) <==> (k % xres, k / xres) in points)
  }

  lemma ColumnsInside(xres: nat, yres: nat, x0: int, y0: int, endX: int, endY: int)
    requires xres > 0 && 0 <= x0 && endX <= xres
    ensures FillsItsRectangle(xres, yres, x0, y0, endX, endY)
  {
    var points := Rectangle(x0, y0, endX, endY);
    forall k | 0 <= k < xres * yres ensures k in Indices(xres, points) <==> (k % xres, k / xres) in points {
      DivModOf(k, xres);
      if (k % xres, k / xres) in points {
        assert Index(xres, (k % xres, k / xres)) == k;
      }
      if k in Indices(xres, points) {
        var p :| p in points && Index(xres, p) == k;
        DivModUnique(xres, p.1, p.0);
      }
    }
  }

  /**
   A fill that stays inside the device changes exactly the pixels of its rectangle if
   and only if the rectangle does not reach past the left or right edge; there the
   columns beyond the edge land on the rows next to it.
   */
  lemma FillsItsRectangleIff(xres: nat, yres: nat, x0: int, y0: int, endX: int, endY: int)
    requires xres > 0 && InDevice(xres, yres, x0, y0, endX, endY) && x0 < endX && y0 < endY
    ensures FillsItsRectangle(xres, yres, x0, y0, endX, endY) <==> 0 <= x0 && endX <= xres
  {
    hide Index;
    var points := Rectangle(x0, y0, endX, endY);
    if 0 <= x0 && endX <= xres {
      ColumnsInside(xres, yres, x0, y0, endX, endY);
    } else {
      var p := if x0 < 0 then (x0, y0) else (endX - 1, endY - 1);
      AllInDevice(xres, yres, x0, y0, endX, endY, p.0, p.1);
      OffByRows(xres, p.0, p.1);
      assert p in points && Index(xres, p) in Indices(xres, points);
    }
  }

  /**
   The fills of `main`: with ends 0 they colour every pixel from the start point to the
   right and lower edges, and no other.
   */
  lemma FilledToTheEdges(img: seq<bv16>, xres: nat, yres: nat, x0: nat, y0: nat, pixel: bv16, x: int, y: int)
    requires xres > 0 && |img| == xres * yres && OnScreen(xres, yres, x, y)
    ensures 0 <= x + y * xres < |img|
    ensures Filled(img, xres, yres, x0, y0, 0, 0, pixel)[x + y * xres]
            == if x0 <= x && y0 <= y then pixel else img[x + y * xres]
  {
    hide Filled;
    FilledAt(img, xres, yres, x0, y0, 0, 0, pixel, x, y);
  }

  /** With ends other than 0 they stop just before these. */
  lemma FilledToTheEnds(img: seq<bv16>, xres: nat, yres: nat, x0: nat, y0: nat, x1: int, y1: int, pixel: bv16, x: int, y: int)
    requires xres > 0 && |img| == xres * yres && OnScreen(xres, yres, x, y) && x1 != 0 && y1 != 0 && x1 <= xres
    ensures 0 <= x + y * xres < |img|
    ensures Filled(img, xres, yres, x0, y0, x1, y1, pixel)[x + y * xres]
            == if x0 <= x < x1 && y0 <= y < y1 then pixel else img[x + y * xres]
  {
    hide Filled;
    FilledAt(img, xres, yres, x0, y0, x1, y1, pixel, x, y);
  }

  /** Which pixels a fill between the edges changes: those of the rectangle, and no others. */
  lemma FilledAt(img: seq<bv16>, xres: nat, yres: nat, x0: int, y0: int, x1: int, y1: int, pixel: bv16, x: int, y: int)
    requires xres > 0 && |img| == xres * yres && OnScreen(xres, yres, x, y)
    requires 0 <= x0 && EndOr(x1, xres) <= xres
    ensures 0 <= x + y * xres < |img|
    ensures Filled(img, xres, yres, x0, y0, x1, y1, pixel)[x + y * xres] ==
            if x0 <= x < EndOr(x1, xres) && y0 <= y < EndOr(y1, yres) then pixel else img[x + y * xres]
  {
    hide Indices;
    IndexReadsBack(xres, yres, x, y);
    ColumnsInside(xres, yres, x0, y0, EndOr(x1, xres), EndOr(y1, yres));
  }
}
