/**
 `display_frame`: a YUYV image written into a centred window of the framebuffer.
 The conversion of a colour is a parameter.
 */
module YuvWindow {
  import opened Framing
  import opened Framebuffer
  import opened Arithmetic

  /** Where the window of a frame starts on the screen. */
  function Centre(screen: nat, size: nat): nat
    requires size <= screen
  {
    (screen - size) / 2
  }

  /** The margins before and after the window differ by at most one pixel. */
  lemma CentreIsCentred(screen: nat, size: nat)
    requires size <= screen
    ensures var before := Centre(screen, size);
            var after := screen - size - before;
            0 <= before <= after <= before + 1
  {
  }

  /** Two bytes a sample: a luminance and, alternately, one chrominance of the pair. */
  lemma SampleInside(w: nat, h: nat, x: nat, y: nat, n: nat)
    requires x < w && y < h && n >= w * h * 2
    ensures (y * w + x) * 2 + 1 < n
  {
    MultipleIsLarge(h - y, w);
    assert (h - y) * w == h * w - y * w;
  }

  /** A pixel's own luminance with the two chrominances of its pair. */
  function FramePixel(data: seq<byte>, w: nat, h: nat, x: nat, y: nat, convert: (byte, byte, byte) -> bv16): bv16
    requires w % 2 == 0 && |data| >= w * h * 2
  {
    if x < w && y < h then
      var even := x - x % 2;
      SampleInside(w, h, x, y, |data|);
      SampleInside(w, h, even, y, |data|);
      SampleInside(w, h, even + 1, y, |data|);
      convert(data[(y * w + x) * 2], data[(y * w + even) * 2 + 1], data[(y * w + even + 1) * 2 + 1])
    else 0
  }

  /** The frame's picture, as large as the screen. */
  function Picture(data: seq<byte>, w: nat, h: nat, xres: nat, yres: nat, convert: (byte, byte, byte) -> bv16): (p: seq<bv16>)
    requires w % 2 == 0 && |data| >= w * h * 2 && w <= xres && h <= yres && xres > 0
    ensures |p| == xres * yres
  {
    var xo, yo := Centre(xres, w), Centre(yres, h);
    seq(xres * yres, k requires 0 <= k < xres * yres =>
      if k % xres < xo || k / xres < yo then 0
      else FramePixel(data, w, h, k % xres - xo, k / xres - yo, convert))
  }

  /** The window up to row `y`, column `x` of the frame. */
  ghost function Drawn(xo: nat, yo: nat, w: nat, y: nat, x: nat): iset<(int, int)> {
    iset p: (int, int) | xo <= p.0 < xo + w && yo <= p.1 && (p.1 < yo + y || (p.1 == yo + y && p.0 < xo + x))
  }

  /** Each point of the set has been written once, everything else never. */
  ghost predicate WrittenOnce(writes: multiset<nat>, xres: nat, points: iset<(int, int)>)
    requires xres > 0
  {
    forall k: nat :: writes[k] == if (k % xres, k / xres) in points then 1 else 0
  }

  lemma WriteOne(writes: multiset<nat>, xres: nat, yres: nat, points: iset<(int, int)>, x: int, y: int)
    requires xres > 0 && OnScreen(xres, yres, x, y) && (x, y) !in points && WrittenOnce(writes, xres, points)
    ensures x + y * xres >= 0
    ensures WrittenOnce(writes + multiset{x + y * xres}, xres, points + iset{(x, y)})
  {
    IndexReadsBack(xres, yres, x, y);
    var now := writes + multiset{x + y * xres};
    forall k: nat ensures now[k] == if (k % xres, k / xres) in points + iset{(x, y)} then 1 else 0 {
      assert k == k / xres * xres + k % xres;
    }
  }

  lemma PictureAt(data: seq<byte>, w: nat, h: nat, xres: nat, yres: nat, convert: (byte, byte, byte) -> bv16, x: nat, y: nat)
    requires w % 2 == 0 && |data| >= w * h * 2 && w <= xres && h <= yres && xres > 0 && x < w && y < h
    ensures var px, py := x + Centre(xres, w), y + Centre(yres, h);
            && OnScreen(xres, yres, px, py) && 0 <= px + py * xres < xres * yres
            && Picture(data, w, h, xres, yres, convert)[px + py * xres] == FramePixel(data, w, h, x, y, convert)
  {
    IndexReadsBack(xres, yres, x + Centre(xres, w), y + Centre(yres, h));
  }

  /**
   For an even width and a frame no larger than the screen: the centred window shows
   the frame, everything outside it is as before, every pixel of the window is
   written exactly once, and all accesses are inside the two buffers, which are
   different memory.
   */
  method DisplayFrame(fbp: array<bv16>, data: array<byte>, w: nat, h: nat, xres: nat, yres: nat,
                      convert: (byte, byte, byte) -> bv16)
    returns (ghost writes: multiset<nat>)
    requires w % 2 == 0 && w <= xres && h <= yres && xres > 0
    requires fbp.Length == xres * yres && data.Length >= w * h * 2
    requires fbp as object != data as object
    modifies fbp
    ensures var window := Rectangle(Centre(xres, w), Centre(yres, h), Centre(xres, w) + w, Centre(yres, h) + h);
            && fbp[..] == Blend(old(fbp[..]), Picture(data[..], w, h, xres, yres, convert), xres, window)
            && WrittenOnce(writes, xres, window)
  {
    hide Blend, Picture, WrittenOnce, Drawn;
    ghost var before, picture := fbp[..], Picture(data[..], w, h, xres, yres, convert);
    ghost var samples := data[..];
    var xo, yo := (xres - w) / 2, (yres - h) / 2;
    writes := multiset{};
    BlendNothing(before, picture, xres);
    NothingWritten(xres);
    DrawnEdges(xo, yo, w, h, 0);
    var y := 0;
    while y < h
      invariant y <= h && data[..] == samples
      invariant fbp[..] == Blend(before, picture, xres, Drawn(xo, yo, w, y, 0))
      invariant WrittenOnce(writes, xres, Drawn(xo, yo, w, y, 0))
    {
      var x := 0;
      while x < w
        invariant x <= w && x % 2 == 0 && data[..] == samples
        invariant fbp[..] == Blend(before, picture, xres, Drawn(xo, yo, w, y, x))
        invariant WrittenOnce(writes, xres, Drawn(xo, yo, w, y, x))
      {
        writes := DrawPair(fbp, data, w, h, xres, yres, xo, yo, x, y, convert, writes, before);
        x := x + 2;
      }
      DrawnEdges(xo, yo, w, h, y);
      y := y + 1;
    }
    DrawnEdges(xo, yo, w, h, h);
  }

  /**
   The screen afterwards, pixel by pixel: the frame's inside the window, the old one
   outside.
   */
  lemma WindowAt(before: seq<bv16>, data: seq<byte>, w: nat, h: nat, xres: nat, yres: nat, convert: (byte, byte, byte) -> bv16,
                 x: int, y: int)
    requires w % 2 == 0 && w <= xres && h <= yres && xres > 0
    requires |before| == xres * yres && |data| >= w * h * 2 && OnScreen(xres, yres, x, y)
    ensures 0 <= x + y * xres < |before|
    ensures var xo, yo := Centre(xres, w), Centre(yres, h);
            Blend(before, Picture(data, w, h, xres, yres, convert), xres, Rectangle(xo, yo, xo + w, yo + h))[x + y * xres]
            == if xo <= x < xo + w && yo <= y < yo + h then FramePixel(data, w, h, x - xo, y - yo, convert)
               else before[x + y * xres]
  {
    hide Blend, Picture, FramePixel, Centre;
    var xo, yo := Centre(xres, w), Centre(yres, h);
    BlendAt(before, Picture(data, w, h, xres, yres, convert), xres, yres, Rectangle(xo, yo, xo + w, yo + h), x, y);
    if xo <= x < xo + w && yo <= y < yo + h {
      PictureAt(data, w, h, xres, yres, convert, x - xo, y - yo);
    }
  }

  /** One pass of the inner loop: two neighbouring pixels from four bytes. */
  method DrawPair(fbp: array<bv16>, data: array<byte>, w: nat, h: nat, xres: nat, yres: nat, xo: nat, yo: nat,
                  x: nat, y: nat, convert: (byte, byte, byte) -> bv16, ghost written: multiset<nat>, ghost before: seq<bv16>)
    returns (ghost writes: multiset<nat>)
    requires w % 2 == 0 && x % 2 == 0 && x < w <= xres && y < h <= yres && xres > 0
    requires xo == Centre(xres, w) && yo == Centre(yres, h)
    requires fbp.Length == xres * yres == |before| && data.Length >= w * h * 2
    requires fbp[..] == Blend(before, Picture(data[..], w, h, xres, yres, convert), xres, Drawn(xo, yo, w, y, x))
    requires WrittenOnce(written, xres, Drawn(xo, yo, w, y, x))
    requires fbp as object != data as object
    modifies fbp
    ensures fbp[..] == Blend(before, Picture(data[..], w, h, xres, yres, convert), xres, Drawn(xo, yo, w, y, x + 2))
    ensures data[..] == old(data[..])
    ensures WrittenOnce(writes, xres, Drawn(xo, yo, w, y, x + 2))
  {
    hide Blend, Picture, WrittenOnce, Drawn, FramePixel, Centre, OnScreen;
    ghost var samples := data[..];
    ghost var picture := Picture(samples, w, h, xres, yres, convert);
    var pixel1, pixel2 := ReadPair(data, w, h, x, y, convert);
    var px, next, py := x + xo, x + 1 + xo, y + yo;
    PixelDue(samples, w, h, xres, yres, convert, xo, yo, x, y, px, py);
    PixelDue(samples, w, h, xres, yres, convert, xo, yo, x + 1, y, next, py);
    writes := PutPixel(fbp, xres, yres, px, py, pixel1, before, picture, Drawn(xo, yo, w, y, x), written);
    writes := PutPixel(fbp, xres, yres, next, py, pixel2, before, picture, Drawn(xo, yo, w, y, x + 1), writes);
  }

  /** What storing the frame's pixel `(x, y)` at `(px, py)` needs, and what it completes. */
  lemma PixelDue(data: seq<byte>, w: nat, h: nat, xres: nat, yres: nat, convert: (byte, byte, byte) -> bv16,
                 xo: nat, yo: nat, x: nat, y: nat, px: nat, py: nat)
    requires w % 2 == 0 && |data| >= w * h * 2 && w <= xres && h <= yres && xres > 0 && x < w && y < h
    requires xo == Centre(xres, w) && yo == Centre(yres, h) && px == x + xo && py == y + yo
    ensures OnScreen(xres, yres, px, py) && 0 <= px + py * xres < xres * yres
    ensures Picture(data, w, h, xres, yres, convert)[px + py * xres] == FramePixel(data, w, h, x, y, convert)
    ensures (px, py) !in Drawn(xo, yo, w, y, x)
    ensures Drawn(xo, yo, w, y, x) + iset{(px as int, py as int)} == Drawn(xo, yo, w, y, x + 1)
  {
    hide Picture, FramePixel;
    PictureAt(data, w, h, xres, yres, convert, x, y);
    DrawnStep(xo, yo, w, y, x);
  }

  method ReadPair(data: array<byte>, w: nat, h: nat, x: nat, y: nat, convert: (byte, byte, byte) -> bv16)
    returns (pixel1: bv16, pixel2: bv16)
    requires w % 2 == 0 && x % 2 == 0 && x < w && y < h && data.Length >= w * h * 2
    ensures pixel1 == FramePixel(data[..], w, h, x, y, convert)
    ensures pixel2 == FramePixel(data[..], w, h, x + 1, y, convert)
  {
    hide FramePixel;
    PairPixels(data[..], w, h, x, y, convert);
    var y1 := data[(y * w + x) * 2];
    var u := data[(y * w + x) * 2 + 1];
    var y2 := data[(y * w + x + 1) * 2];
    var v := data[(y * w + x + 1) * 2 + 1];
    pixel1 := convert(y1, u, v);
    pixel2 := convert(y2, u, v);
  }

  /** One store into the framebuffer, of the colour the picture has there. */
  method PutPixel(fbp: array<bv16>, xres: nat, yres: nat, x: nat, y: nat, pixel: bv16,
                  ghost before: seq<bv16>, ghost picture: seq<bv16>, ghost done: iset<(int, int)>, ghost written: multiset<nat>)
    returns (ghost writes: multiset<nat>)
    requires xres > 0 && OnScreen(xres, yres, x, y) && fbp.Length == xres * yres == |before| == |picture|
    requires 0 <= x + y * xres < |picture| && picture[x + y * xres] == pixel
    requires fbp[..] == Blend(before, picture, xres, done) && (x, y) !in done && WrittenOnce(written, xres, done)
    modifies fbp
    ensures fbp[..] == Blend(before, picture, xres, done + iset{(x as int, y as int)})
    ensures WrittenOnce(writes, xres, done + iset{(x as int, y as int)})
  {
    hide Blend, WrittenOnce;
    BlendMore(before, picture, xres, yres, done, x, y);
    WriteOne(written, xres, yres, done, x, y);
    fbp[y * xres + x] := pixel;
    writes := written + multiset{x + y * xres};
  }

  lemma PairPixels(data: seq<byte>, w: nat, h: nat, x: nat, y: nat, convert: (byte, byte, byte) -> bv16)
    requires w % 2 == 0 && x % 2 == 0 && x < w && y < h && |data| >= w * h * 2
    ensures 0 <= (y * w + x) * 2 && (y * w + x + 1) * 2 + 1 < |data|
    ensures var u, v := data[(y * w + x) * 2 + 1], data[(y * w + x + 1) * 2 + 1];
            && FramePixel(data, w, h, x, y, convert) == convert(data[(y * w + x) * 2], u, v)
            && FramePixel(data, w, h, x + 1, y, convert) == convert(data[(y * w + x + 1) * 2], u, v)
  {
    SampleInside(w, h, x + 1, y, |data|);
  }

  lemma DrawnStep(xo: nat, yo: nat, w: nat, y: nat, x: nat)
    requires x < w
    ensures (x + xo, y + yo) !in Drawn(xo, yo, w, y, x)
    ensures Drawn(xo, yo, w, y, x) + iset{(x + xo, y + yo)} == Drawn(xo, yo, w, y, x + 1)
  {
  }

  lemma DrawnEdges(xo: nat, yo: nat, w: nat, h: nat, y: nat)
    ensures Drawn(xo, yo, w, 0, 0) == iset{}
    ensures Drawn(xo, yo, w, y, w) == Drawn(xo, yo, w, y + 1, 0)
    ensures Drawn(xo, yo, w, h, 0) == Rectangle(xo, yo, xo + w, yo + h)
  {
  }

  lemma NothingWritten(xres: nat)
    requires xres > 0
    ensures WrittenOnce(multiset{}, xres, iset{})
  {
  }
}
