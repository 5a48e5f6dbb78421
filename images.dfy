/**
 * Colours and pixel buffers of the cpps tree: RgbaColor with its saturating
 * sum and scalar product, GrayscaleColor, and Image<Color>, a width×height
 * vector stored row by row (pixel (x, y) at index y * width + x).
 */
module Images {
  import opened Wrappers
  import opened RealMath

  /** uint8_t */
  type Byte = x: int | 0 <= x < 256

  datatype RgbaColor = RgbaColor(r: Byte, g: Byte, b: Byte, a: Byte)

  datatype GrayscaleColor = GrayscaleColor(value: Byte)

  /** RgbaColor(): all four channels 0, alpha included. */
  const BlankRgba := RgbaColor(0, 0, 0, 0)

  /** GrayscaleColor(): value 0. */
  const BlankGray := GrayscaleColor(0)

  /** The three-argument constructor: an opaque colour. */
  function Rgb(r: Byte, g: Byte, b: Byte): (c: RgbaColor)
    ensures c.a == 255
    ensures c.r == r && c.g == g && c.b == b
  {
    RgbaColor(r, g, b, 255)
  }

  /** std::min(x + y, 255) */
  function SaturatingAdd(x: Byte, y: Byte): Byte
  {
    MinInt(x + y, 255)
  }

  /** operator+= and operator+: channel-wise saturating sum of r, g, b; alpha from the left operand. */
  function Add(c: RgbaColor, o: RgbaColor): RgbaColor
  {
    RgbaColor(SaturatingAdd(c.r, o.r), SaturatingAdd(c.g, o.g), SaturatingAdd(c.b, o.b), c.a)
  }

  /** std::min(static_cast<int>(x * s), 255) for a non-negative scalar. */
  function ScaleChannel(x: Byte, s: real): Byte
    requires 0.0 <= s
  {
    MinInt(Trunc(x as real * s), 255)
  }

  /** operator*= and operator*: r, g, b scaled and truncated, capped at 255; alpha kept. */
  function Scale(c: RgbaColor, s: real): RgbaColor
    requires 0.0 <= s
  {
    RgbaColor(ScaleChannel(c.r, s), ScaleChannel(c.g, s), ScaleChannel(c.b, s), c.a)
  }

  /** Each channel of a sum is the exact sum when it fits a byte and 255 when it does not. */
  lemma AddSaturates(c: RgbaColor, o: RgbaColor)
    ensures var s := Add(c, o);
      s.a == c.a &&
      (s.r == c.r + o.r || (s.r == 255 && c.r + o.r > 255)) &&
      (s.g == c.g + o.g || (s.g == 255 && c.g + o.g > 255)) &&
      (s.b == c.b + o.b || (s.b == 255 && c.b + o.b > 255))
  {
  }

  /** Adding never darkens the left operand, and the colour part of + is symmetric. */
  lemma AddMonotoneAndSymmetric(c: RgbaColor, o: RgbaColor)
    ensures var s := Add(c, o);
      s.r >= c.r && s.g >= c.g && s.b >= c.b &&
      s.r >= o.r && s.g >= o.g && s.b >= o.b
    ensures Add(c, o) == Add(o, c).(a := c.a)
  {
  }

  /** For s >= 0 each channel is the truncated product capped at 255. */
  lemma ScaleTruncates(c: RgbaColor, s: real)
    requires 0.0 <= s
    ensures var p := Scale(c, s);
      p.a == c.a &&
      p.r as real <= c.r as real * s && (p.r == 255 || c.r as real * s < p.r as real + 1.0) &&
      p.g as real <= c.g as real * s && (p.g == 255 || c.g as real * s < p.g as real + 1.0) &&
      p.b as real <= c.b as real * s && (p.b == 255 || c.b as real * s < p.b as real + 1.0)
  {
  }

  lemma ScaleChannelAtMost(x: Byte, s: real)
    requires 0.0 <= s <= 1.0
    ensures ScaleChannel(x, s) <= x
    ensures s == 1.0 ==> ScaleChannel(x, s) == x
  {
    var p := x as real * s;
    ProductAtMost(x as real, s);
    TruncMonotone(p, x as real);
    TruncOfInt(x);
  }

  lemma ProductAtMost(a: real, s: real)
    requires 0.0 <= a && 0.0 <= s <= 1.0
    ensures a * s <= a
    ensures s == 1.0 ==> a * s == a
  {
    assert a * (1.0 - s) >= 0.0;
    assert a * (1.0 - s) == a - a * s;
  }

  /** A factor in [0, 1] never brightens a channel; a factor of 1 changes nothing. */
  lemma ScaleByAtMostOne(c: RgbaColor, s: real)
    requires 0.0 <= s <= 1.0
    ensures var p := Scale(c, s); p.r <= c.r && p.g <= c.g && p.b <= c.b && p.a == c.a
    ensures s == 1.0 ==> Scale(c, s) == c
  {
    ScaleChannelAtMost(c.r, s);
    ScaleChannelAtMost(c.g, s);
    ScaleChannelAtMost(c.b, s);
  }

  /** Index of pixel (x, y) in a row-by-row buffer of the given width. */
  function Index(x: int, y: int, width: int): int
  {
    y * width + x
  }

  lemma IndexInRange(x: int, y: int, width: int, height: int)
    requires 0 <= x < width && 0 <= y < height
    ensures 0 <= Index(x, y, width) < width * height
  {
    assert y * width <= (height - 1) * width;
  }

  lemma MulAtLeast(a: int, b: int)
    requires 1 <= a && 0 < b
    ensures b <= a * b
  {
    assert (a - 1) * b >= 0;
  }

  /** Euclidean division by w > 0 is unique. */
  lemma DivModUnique(i: int, w: int, q: int, r: int)
    requires 0 < w && 0 <= r < w && i == q * w + r
    ensures i / w == q && i % w == r
  {
    var q', r' := i / w, i % w;
    assert i == q' * w + r' && 0 <= r' < w;
    assert (q - q') * w == r' - r;
    if q > q' {
      MulAtLeast(q - q', w);
    } else if q < q' {
      MulAtLeast(q' - q, w);
    }
  }

  /** (y * w + x) / w == y and (y * w + x) % w == x for 0 <= x < w. */
  lemma DivModOfIndex(x: int, y: int, width: int)
    requires 0 <= x < width
    ensures Index(x, y, width) / width == y && Index(x, y, width) % width == x
  {
    DivModUnique(Index(x, y, width), width, y, x);
  }

  /** Every index below width * height is the index of a pixel inside the buffer. */
  lemma PixelOfIndex(i: int, width: int, height: int)
    requires 0 <= i < width * height && 0 <= width && 0 <= height
    ensures 0 < width && 0 <= i / width < height && 0 <= i % width < width
    ensures Index(i % width, i / width, width) == i
  {
    var q, r := i / width, i % width;
    assert i == q * width + r;
  }

  /** The index the pixel at index i of the buffer moves to when rows are reversed. */
  function FlipIndex(i: int, width: int, height: int): int
    requires 0 < width
  {
    Index(i % width, height - 1 - i / width, width)
  }

  lemma FlipIndexInRange(i: int, width: int, height: int)
    requires 0 <= i < width * height && 0 <= width && 0 <= height
    ensures 0 < width && 0 <= FlipIndex(i, width, height) < width * height
  {
    PixelOfIndex(i, width, height);
    IndexInRange(i % width, height - 1 - i / width, width, height);
  }

  /** Moving a pixel to the mirrored row and back returns it to where it was. */
  lemma FlipIndexTwice(i: int, width: int, height: int)
    requires 0 <= i < width * height && 0 <= width && 0 <= height
    ensures 0 < width && 0 <= FlipIndex(i, width, height) < width * height
    ensures FlipIndex(FlipIndex(i, width, height), width, height) == i
  {
    FlipIndexInRange(i, width, height);
    PixelOfIndex(i, width, height);
    DivModOfIndex(i % width, height - 1 - i / width, width);
  }

  /** The buffer with its rows in reverse order: what FlipY leaves in data_. */
  function Flipped<C>(s: seq<C>, width: int, height: int): (r: seq<C>)
    requires 0 <= width && 0 <= height && |s| == width * height
    ensures |r| == |s|
  {
    seq(width * height, i requires 0 <= i < width * height =>
      FlipIndexInRange(i, width, height); s[FlipIndex(i, width, height)])
  }

  /** Row y of the flipped buffer is row height-1-y of the original. */
  lemma FlippedAt<C>(s: seq<C>, width: int, height: int, x: int, y: int)
    requires 0 <= width && 0 <= height && |s| == width * height
    requires 0 <= x < width && 0 <= y < height
    ensures 0 <= Index(x, height - 1 - y, width) < |s| && 0 <= Index(x, y, width) < |s|
    ensures Flipped(s, width, height)[Index(x, height - 1 - y, width)] == s[Index(x, y, width)]
  {
    IndexInRange(x, height - 1 - y, width, height);
    IndexInRange(x, y, width, height);
    DivModOfIndex(x, height - 1 - y, width);
  }

  /** Reversing the rows twice restores the buffer. */
  lemma FlippedTwice<C>(s: seq<C>, width: int, height: int)
    requires 0 <= width && 0 <= height && |s| == width * height
    ensures Flipped(Flipped(s, width, height), width, height) == s
  {
    var f := Flipped(s, width, height);
    var ff := Flipped(f, width, height);
    forall i | 0 <= i < |s|
      ensures ff[i] == s[i]
    {
      PixelOfIndex(i, width, height);
      var x, y := i % width, i / width;
      FlippedAt(f, width, height, x, height - 1 - y);
      FlippedAt(s, width, height, x, y);
    }
  }

  /** The value of an Image: its size and its row-by-row pixels. */
  datatype Raster<C> = Raster(width: int, height: int, data: seq<C>)
  {
    predicate Valid()
    {
      0 <= width && 0 <= height && |data| == width * height
    }

    /** at(x, y): bounds-checked read, x checked before y. */
    function At(x: int, y: int): (r: Result<C>)
      requires Valid()
      ensures r.Ok? <==> 0 <= x < width && 0 <= y < height
      ensures r.Ok? ==> 0 <= Index(x, y, width) < |data| && r.value == data[Index(x, y, width)]
      ensures !(0 <= x < width) ==> r == Err(OutOfRange("Image x range"))
    {
      if x < 0 || x >= width then Err(OutOfRange("Image x range"))
      else if y < 0 || y >= height then Err(OutOfRange("Image y range"))
      else IndexInRange(x, y, width, height); Ok(data[Index(x, y, width)])
    }
  }

  /** Image<Color>; blank is the value Color() constructs. */
  class Image<C> {
    var width: int
    var height: int
    var data: seq<C>
    const blank: C

    ghost predicate Valid()
      reads this
    {
      0 <= width && 0 <= height && |data| == width * height
    }

    function Value(): (v: Raster<C>)
      reads this
    {
      Raster(width, height, data)
    }

    /** Image(): a 0×0 image. */
    constructor Empty(blank: C)
      ensures Valid() && width == 0 && height == 0 && data == [] && this.blank == blank
    {
      width, height, data := 0, 0, [];
      this.blank := blank;
    }

    /** Image(width, height): width * height default pixels. */
    constructor (width: int, height: int, blank: C)
      requires 0 <= width && 0 <= height
      ensures Valid() && this.width == width && this.height == height && this.blank == blank
      ensures |data| == width * height && forall i :: 0 <= i < |data| ==> data[i] == blank
    {
      this.width, this.height := width, height;
      this.data := seq(width * height, _ => blank);
      this.blank := blank;
    }

    /** Image(width, height, data); a data vector of any other size breaks the later reads. */
    constructor WithData(width: int, height: int, data: seq<C>, blank: C)
      requires 0 <= width && 0 <= height && |data| == width * height
      ensures Valid() && Value() == Raster(width, height, data) && this.blank == blank
    {
      this.width, this.height, this.data := width, height, data;
      this.blank := blank;
    }

    /** set(x, y, c): writes element y * width + x with no bounds check of x or y. */
    method Set(x: int, y: int, c: C)
      requires Valid() && 0 <= Index(x, y, width) < |data|
      modifies this
      ensures Valid() && width == old(width) && height == old(height)
      ensures data == old(data)[Index(x, y, width) := c]
    {
      data := data[Index(x, y, width) := c];
    }

    /** Clear(): every element becomes Color(). */
    method Clear()
      modifies this
      ensures width == old(width) && height == old(height) && |data| == |old(data)|
      ensures forall i :: 0 <= i < |data| ==> data[i] == blank
    {
      var i := 0;
      while i != |data|
        invariant 0 <= i <= |data| && |data| == |old(data)|
        invariant width == old(width) && height == old(height)
        invariant forall k :: 0 <= k < i ==> data[k] == blank
      {
        data := data[i := blank];
        i := i + 1;
      }
    }

    /** Fill(c): every element becomes c. */
    method Fill(c: C)
      modifies this
      ensures width == old(width) && height == old(height) && |data| == |old(data)|
      ensures forall i :: 0 <= i < |data| ==> data[i] == c
    {
      var i := 0;
      while i != |data|
        invariant 0 <= i <= |data| && |data| == |old(data)|
        invariant width == old(width) && height == old(height)
        invariant forall k :: 0 <= k < i ==> data[k] == c
      {
        data := data[i := c];
        i := i + 1;
      }
    }

    /** FlipY(): row y moves to row height-1-y through a temporary of width * height pixels. */
    method FlipY()
      requires Valid()
      modifies this
      ensures Valid() && width == old(width) && height == old(height)
      ensures data == Flipped(old(data), width, height)
    {
      if width == 0 {
        assert width * height == 0;
        data := [];
        return;
      }
      var w, h, src := width, height, data;
      var temp := seq(w * h, _ => blank);
      FlipStart(temp, src, blank, w, h);
      var y := 0;
      while y < h
        invariant 0 <= y <= h && |temp| == w * h
        invariant width == w && height == h
        invariant FlipDone(temp, src, blank, w, h, y, 0)
      {
        var x := 0;
        while x < w
          invariant 0 <= x <= w && |temp| == w * h
          invariant width == w && height == h
          invariant FlipDone(temp, src, blank, w, h, y, x)
        {
          IndexInRange(x, y, w, h);
          FlipStep(temp, src, blank, w, h, y, x);
          temp := temp[Index(x, h - 1 - y, w) := src[Index(x, y, w)]];
          x := x + 1;
        }
        FlipRowDone(temp, src, blank, w, h, y);
        y := y + 1;
      }
      FlipAllDone(temp, src, blank, w, h);
      data := temp;
    }
  }

  /**
   * The target index i already holds its flipped pixel: rows of the target
   * below height-y are complete, and row height-1-y is complete up to column x.
   */
  predicate Written(i: int, w: int, h: int, y: int, x: int)
    requires 0 < w
  {
    h - y <= i / w || (i / w == h - 1 - y && i % w < x)
  }

  /** The state of FlipY's temporary after rows 0..y-1 and columns 0..x-1 of row y. */
  ghost predicate FlipDone<C>(temp: seq<C>, src: seq<C>, blank: C, w: int, h: int, y: int, x: int)
    requires 0 < w && 0 <= h && |temp| == w * h && |src| == w * h
  {
    forall i :: 0 <= i < |temp| ==>
      temp[i] == if Written(i, w, h, y, x) then src[FlipIndexInRange(i, w, h); FlipIndex(i, w, h)] else blank
  }

  lemma FlipStart<C>(temp: seq<C>, src: seq<C>, blank: C, w: int, h: int)
    requires 0 < w && 0 <= h && |temp| == w * h && |src| == w * h
    requires forall i :: 0 <= i < |temp| ==> temp[i] == blank
    ensures FlipDone(temp, src, blank, w, h, 0, 0)
  {
    forall i | 0 <= i < |temp|
      ensures !Written(i, w, h, 0, 0)
    {
      PixelOfIndex(i, w, h);
    }
  }

  lemma FlipStep<C>(temp: seq<C>, src: seq<C>, blank: C, w: int, h: int, y: int, x: int)
    requires 0 < w && 0 <= h && |temp| == w * h && |src| == w * h
    requires 0 <= y < h && 0 <= x < w
    requires FlipDone(temp, src, blank, w, h, y, x)
    ensures 0 <= Index(x, h - 1 - y, w) < w * h && 0 <= Index(x, y, w) < w * h
    ensures FlipDone(temp[Index(x, h - 1 - y, w) := src[Index(x, y, w)]], src, blank, w, h, y, x + 1)
  {
    var j := Index(x, h - 1 - y, w);
    IndexInRange(x, h - 1 - y, w, h);
    IndexInRange(x, y, w, h);
    DivModOfIndex(x, h - 1 - y, w);
    var t := temp[j := src[Index(x, y, w)]];
    forall i | 0 <= i < |t|
      ensures t[i] == if Written(i, w, h, y, x + 1) then src[FlipIndexInRange(i, w, h); FlipIndex(i, w, h)] else blank
    {
      if i != j {
        PixelOfIndex(i, w, h);
        assert i / w != h - 1 - y || i % w != x;
      }
    }
  }

  lemma FlipRowDone<C>(temp: seq<C>, src: seq<C>, blank: C, w: int, h: int, y: int)
    requires 0 < w && 0 <= h && |temp| == w * h && |src| == w * h
    requires FlipDone(temp, src, blank, w, h, y, w)
    ensures FlipDone(temp, src, blank, w, h, y + 1, 0)
  {
    forall i | 0 <= i < |temp|
      ensures Written(i, w, h, y, w) == Written(i, w, h, y + 1, 0)
    {
      PixelOfIndex(i, w, h);
    }
  }

  lemma FlipAllDone<C>(temp: seq<C>, src: seq<C>, blank: C, w: int, h: int)
    requires 0 < w && 0 <= h && |temp| == w * h && |src| == w * h
    requires FlipDone(temp, src, blank, w, h, h, 0)
    ensures temp == Flipped(src, w, h)
  {
    forall i | 0 <= i < |temp|
      ensures temp[i] == Flipped(src, w, h)[i]
    {
      PixelOfIndex(i, w, h);
    }
  }

  /** Image(w, h) of RgbaColor holds w * h pixels that are all zero, alpha included. */
  method NewRgbaImage(width: int, height: int) returns (img: Image<RgbaColor>)
    requires 0 <= width && 0 <= height
    ensures fresh(img) && img.Valid() && img.width == width && img.height == height
    ensures forall i :: 0 <= i < |img.data| ==> img.data[i] == RgbaColor(0, 0, 0, 0)
  {
    img := new Image(width, height, BlankRgba);
  }
}
