/**
 * The TGA reader and writers and the PNG pixel packing of
 * cpps/common/file.cpp. A file is a sequence of bytes; reading it goes
 * through a ByteReader whose cursor and good() flag follow std::ifstream,
 * writing through a ByteWriter that appends.
 */
module CommonFile {
  import opened Wrappers
  import opened Images

  /** uint16_t */
  type U16 = x: int | 0 <= x < 65536

  /** The 18-byte TGA file header, in file order. Every field defaults to 0. */
  datatype TgaHeader = TgaHeader(
    idLength: Byte,
    colorMapType: Byte,
    dataTypeCode: Byte,
    colorMapOrigin: U16,
    colorMapLength: U16,
    colorMapDepth: Byte,
    xOrigin: U16,
    yOrigin: U16,
    width: U16,
    height: U16,
    bitsPerPixel: Byte,
    imageDescriptor: Byte)

  /** TGAHeader header = {} */
  const ZeroHeader := TgaHeader(0, 0, 0, 0, 0, 0, 0, 0, 0, 0, 0, 0)

  const HeaderSize := 18

  /** The conversion of an int to uint16_t keeps it modulo 2^16. */
  function ToU16(x: int): U16
  {
    x % 65536
  }

  /** The two bytes writeUint16LE emits: low byte, then high byte. */
  function Uint16LE(v: U16): seq<Byte>
  {
    [v % 256, v / 256]
  }

  /** readUint16LE's value: low | high << 8. */
  function FromUint16LE(low: Byte, high: Byte): U16
  {
    low + high * 256
  }

  /** Reading back what writeUint16LE wrote gives the value, and any two bytes come from one value. */
  lemma Uint16RoundTrip(v: U16, low: Byte, high: Byte)
    ensures FromUint16LE(Uint16LE(v)[0], Uint16LE(v)[1]) == v
    ensures Uint16LE(FromUint16LE(low, high)) == [low, high]
  {
  }

  /** The bytes writeTGAHeader emits, field by field. */
  function EncodeHeader(h: TgaHeader): seq<Byte>
  {
    [h.idLength, h.colorMapType, h.dataTypeCode] +
    Uint16LE(h.colorMapOrigin) + Uint16LE(h.colorMapLength) +
    [h.colorMapDepth] +
    Uint16LE(h.xOrigin) + Uint16LE(h.yOrigin) + Uint16LE(h.width) + Uint16LE(h.height) +
    [h.bitsPerPixel, h.imageDescriptor]
  }

  /** The header readTGAHeader reads from the first 18 bytes; None when the stream is shorter. */
  function DecodeHeader(bytes: seq<Byte>): Option<TgaHeader>
  {
    if |bytes| < HeaderSize then None
    else Some(TgaHeader(
      bytes[0], bytes[1], bytes[2],
      FromUint16LE(bytes[3], bytes[4]), FromUint16LE(bytes[5], bytes[6]),
      bytes[7],
      FromUint16LE(bytes[8], bytes[9]), FromUint16LE(bytes[10], bytes[11]),
      FromUint16LE(bytes[12], bytes[13]), FromUint16LE(bytes[14], bytes[15]),
      bytes[16], bytes[17]))
  }

  /** writeTGAHeader emits 18 bytes that readTGAHeader reads back to the same header, whatever follows. */
  lemma HeaderRoundTrip(h: TgaHeader, rest: seq<Byte>)
    ensures |EncodeHeader(h)| == HeaderSize
    ensures DecodeHeader(EncodeHeader(h) + rest) == Some(h)
  {
    var e := EncodeHeader(h) + rest;
    assert e[3] == h.colorMapOrigin % 256 && e[4] == h.colorMapOrigin / 256;
    assert e[14] == h.height % 256 && e[15] == h.height / 256;
  }

  /** Bytes per pixel ReadRgbaColor consumes: B, G, R and, for 32 bpp only, A. */
  function PixelSize(bpp: int): nat
  {
    if bpp == 32 then 4 else 3
  }

  /** The pixel ReadRgbaColor reads at pos; None when the stream ends first. */
  function PixelAt(bytes: seq<Byte>, pos: nat, bpp: int): Option<RgbaColor>
  {
    if pos + PixelSize(bpp) <= |bytes| then
      Some(RgbaColor(bytes[pos + 2], bytes[pos + 1], bytes[pos], if bpp == 32 then bytes[pos + 3] else 255))
    else None
  }

  /** k pixels read one after another from pos, appended to acc, with the position after them. */
  function PixelsFrom(bytes: seq<Byte>, pos: nat, bpp: int, k: nat, acc: seq<RgbaColor>): (r: Option<(seq<RgbaColor>, nat)>)
    ensures r.Some? ==> |r.value.0| == |acc| + k && r.value.1 == pos + k * PixelSize(bpp)
    ensures r.Some? && k > 0 ==> r.value.1 <= |bytes|
    ensures r.Some? ==> r.value.0[..|acc|] == acc
    decreases k
  {
    if k == 0 then Some((acc, pos))
    else match PixelAt(bytes, pos, bpp)
      case None => None
      case Some(c) => PixelsFrom(bytes, pos + PixelSize(bpp), bpp, k - 1, acc + [c])
  }

  const ReadError := RuntimeError("An error occurred while reading the data")
  const OverrunError := RuntimeError("RLE packet runs past the pixel count")

  /**
   * The RLE loop of ReadTga, as the pixels it produces. A header h < 128 is
   * followed by h + 1 literal pixels; a header h >= 128 by one pixel that is
   * repeated h - 127 times. A packet that would run past the pixel count is
   * refused (see FindingRleOverrun).
   */
  function DecodeRle(bytes: seq<Byte>, bpp: int, pos: nat, count: nat, acc: seq<RgbaColor>): (r: Result<seq<RgbaColor>>)
    requires |acc| <= count
    ensures r.Ok? ==> |r.value| == count && r.value[..|acc|] == acc
    decreases count - |acc|
  {
    if |acc| >= count then Ok(acc)
    else if pos >= |bytes| then Err(ReadError)
    else if bytes[pos] < 128 then
      var k := bytes[pos] + 1;
      if |acc| + k > count then Err(OverrunError)
      else match PixelsFrom(bytes, pos + 1, bpp, k, acc)
        case None => Err(ReadError)
        case Some((acc', pos')) =>
          var r := DecodeRle(bytes, bpp, pos', count, acc');
          assert r.Ok? ==> r.value[..|acc|] == r.value[..|acc'|][..|acc|];
          r
    else
      var k := bytes[pos] - 127;
      match PixelAt(bytes, pos + 1, bpp)
        case None => Err(ReadError)
        case Some(c) =>
          if |acc| + k > count then Err(OverrunError)
          else
            var acc' := acc + seq(k, _ => c);
            var r := DecodeRle(bytes, bpp, pos + 1 + PixelSize(bpp), count, acc');
            assert r.Ok? ==> r.value[..|acc|] == r.value[..|acc'|][..|acc|];
            r
  }

  /** Bit 5 (0x20) of the image descriptor: rows are stored top to bottom. */
  predicate TopLeftOrigin(descriptor: Byte)
  {
    (descriptor / 32) % 2 == 1
  }

  /** The pixel data ReadTga decodes after a header, in file order. */
  function DecodePixels(bytes: seq<Byte>, h: TgaHeader): (r: Result<seq<RgbaColor>>)
    ensures r.Ok? ==> |r.value| == h.width * h.height
  {
    var n := h.width * h.height;
    if h.dataTypeCode == 2 || h.dataTypeCode == 3 then
      match PixelsFrom(bytes, HeaderSize, h.bitsPerPixel, n, [])
      case None => Err(ReadError)
      case Some((pixels, _)) => Ok(pixels)
    else if h.dataTypeCode == 10 then DecodeRle(bytes, h.bitsPerPixel, HeaderSize, n, [])
    else Err(RuntimeError("Unsupported TGA format"))
  }

  /** What ReadTga returns for a file's bytes. */
  function DecodeTga(bytes: seq<Byte>): (r: Result<Raster<RgbaColor>>)
    ensures r.Ok? ==> r.value.Valid()
  {
    match DecodeHeader(bytes)
    case None => Err(RuntimeError("Failed to read TGA header"))
    case Some(h) =>
      if h.bitsPerPixel != 24 && h.bitsPerPixel != 32 then
        Err(RuntimeError("Unsupported TGA format (only 24 or 32 bpp are supported)"))
      else
        match DecodePixels(bytes, h)
        case Err(e) => Err(e)
        case Ok(pixels) =>
          Ok(Raster(h.width, h.height,
            if TopLeftOrigin(h.imageDescriptor) then Flipped(pixels, h.width, h.height) else pixels))
  }

  /** ReadTga succeeds only for 24 or 32 bpp and image types 2, 3 and 10; the 0x20 bit decides whether rows are reversed. */
  lemma DecodeTgaAccepts(bytes: seq<Byte>)
    ensures DecodeTga(bytes).Ok? ==>
      var h := DecodeHeader(bytes).value;
      DecodeHeader(bytes).Some? &&
      (h.bitsPerPixel == 24 || h.bitsPerPixel == 32) &&
      (h.dataTypeCode == 2 || h.dataTypeCode == 3 || h.dataTypeCode == 10) &&
      DecodePixels(bytes, h).Ok? &&
      DecodeTga(bytes).value.data ==
        if TopLeftOrigin(h.imageDescriptor)
        then Flipped(DecodePixels(bytes, h).value, h.width, h.height)
        else DecodePixels(bytes, h).value
  {
  }

  /** The four bytes WriteTga emits for one pixel: B, G, R, A. */
  function BgraBytes(c: RgbaColor): seq<Byte>
  {
    [c.b, c.g, c.r, c.a]
  }

  function RgbaPixelBytes(s: seq<RgbaColor>): (r: seq<Byte>)
    ensures |r| == 4 * |s|
  {
    if s == [] then [] else BgraBytes(s[0]) + RgbaPixelBytes(s[1..])
  }

  lemma {:induction false} RgbaPixelBytesAppend(s: seq<RgbaColor>, c: RgbaColor)
    ensures RgbaPixelBytes(s + [c]) == RgbaPixelBytes(s) + BgraBytes(c)
  {
    if s != [] {
      assert (s + [c])[1..] == s[1..] + [c];
      RgbaPixelBytesAppend(s[1..], c);
    }
  }

  /** The header of the RGBA WriteTga: type 2, 32 bpp, descriptor 0, everything else 0. */
  function RgbaHeader(width: int, height: int): TgaHeader
  {
    ZeroHeader.(bitsPerPixel := 32, width := ToU16(width), height := ToU16(height), dataTypeCode := 2, imageDescriptor := 0)
  }

  /** The header of the grayscale WriteTga: type 3, 8 bpp, descriptor 0. */
  function GrayHeader(width: int, height: int): TgaHeader
  {
    ZeroHeader.(bitsPerPixel := 8, width := ToU16(width), height := ToU16(height), dataTypeCode := 3, imageDescriptor := 0)
  }

  /** The bytes the RGBA WriteTga writes. */
  function EncodeTgaRgba(r: Raster<RgbaColor>): seq<Byte>
  {
    EncodeHeader(RgbaHeader(r.width, r.height)) + RgbaPixelBytes(r.data)
  }

  function GrayPixelBytes(s: seq<GrayscaleColor>): (r: seq<Byte>)
  {
    seq(|s|, i requires 0 <= i < |s| => s[i].value)
  }

  /** The bytes the grayscale WriteTga writes. */
  function EncodeTgaGray(r: Raster<GrayscaleColor>): seq<Byte>
  {
    EncodeHeader(GrayHeader(r.width, r.height)) + GrayPixelBytes(r.data)
  }

  /** Reading 32-bit pixels back from what WriteTga wrote gives the same pixels. */
  lemma {:induction false} PixelsFromRgbaBytes(pre: seq<Byte>, s: seq<RgbaColor>, post: seq<Byte>, acc: seq<RgbaColor>)
    ensures PixelsFrom(pre + RgbaPixelBytes(s) + post, |pre|, 32, |s|, acc) == Some((acc + s, |pre| + 4 * |s|))
    decreases s
  {
    if s != [] {
      var pre' := pre + BgraBytes(s[0]);
      FirstRgbaPixel(pre, s, post);
      PixelsFromRgbaBytes(pre', s[1..], post, acc + [s[0]]);
      assert acc + [s[0]] + s[1..] == acc + s;
    } else {
      assert acc + s == acc;
    }
  }

  /** The first pixel of the written bytes reads back, and the rest start four bytes on. */
  lemma FirstRgbaPixel(pre: seq<Byte>, s: seq<RgbaColor>, post: seq<Byte>)
    requires s != []
    ensures pre + RgbaPixelBytes(s) + post == pre + BgraBytes(s[0]) + RgbaPixelBytes(s[1..]) + post
    ensures PixelAt(pre + RgbaPixelBytes(s) + post, |pre|, 32) == Some(s[0])
  {
    var rest := RgbaPixelBytes(s[1..]) + post;
    UnfoldFirstPixel(pre, s, post);
    PixelAfter(pre, s[0], rest);
  }

  /** Writing a non-empty run puts its first pixel's bytes right after pre. */
  lemma UnfoldFirstPixel(pre: seq<Byte>, s: seq<RgbaColor>, post: seq<Byte>)
    requires s != []
    ensures pre + RgbaPixelBytes(s) + post == pre + BgraBytes(s[0]) + RgbaPixelBytes(s[1..]) + post
    ensures pre + RgbaPixelBytes(s) + post == pre + BgraBytes(s[0]) + (RgbaPixelBytes(s[1..]) + post)
  {
    var b, rest := BgraBytes(s[0]), RgbaPixelBytes(s[1..]);
    assert RgbaPixelBytes(s) == b + rest;
    RegroupBytes(pre, b, rest, post);
  }

  /** Regrouping four byte runs does not change their concatenation. */
  lemma RegroupBytes(p: seq<Byte>, b: seq<Byte>, r: seq<Byte>, q: seq<Byte>)
    ensures p + (b + r) + q == p + b + r + q
    ensures p + (b + r) + q == p + b + (r + q)
  {
  }

  /** The pixel written right after pre reads back at |pre|. */
  lemma PixelAfter(pre: seq<Byte>, c: RgbaColor, rest: seq<Byte>)
    ensures PixelAt(pre + BgraBytes(c) + rest, |pre|, 32) == Some(c)
  {
    MiddleSlice(pre, BgraBytes(c), rest);
    PixelOfBgra(pre + BgraBytes(c) + rest, |pre|, c);
  }

  /** Four bytes B, G, R, A at pos read back as that 32-bit pixel. */
  lemma PixelOfBgra(bytes: seq<Byte>, pos: nat, c: RgbaColor)
    requires pos + 4 <= |bytes| && bytes[pos..pos + 4] == BgraBytes(c)
    ensures PixelAt(bytes, pos, 32) == Some(c)
  {
    assert bytes[pos] == bytes[pos..pos + 4][0];
    assert bytes[pos + 1] == bytes[pos..pos + 4][1];
    assert bytes[pos + 2] == bytes[pos..pos + 4][2];
    assert bytes[pos + 3] == bytes[pos..pos + 4][3];
  }

  /** The bytes between |a| and |a| + |b| of a + b + c are b. */
  lemma MiddleSlice(a: seq<Byte>, b: seq<Byte>, c: seq<Byte>)
    ensures (a + b + c)[|a|..|a| + |b|] == b
  {
  }

  /** Reading back what the RGBA WriteTga wrote gives the same width, height and pixels. */
  lemma TgaRoundTrip(r: Raster<RgbaColor>)
    requires r.Valid() && r.width < 65536 && r.height < 65536
    requires r.width * r.height < 0x8000_0000
    ensures DecodeTga(EncodeTgaRgba(r)) == Ok(r)
  {
    var h := RgbaHeader(r.width, r.height);
    assert h.width == r.width && h.height == r.height;
    assert h.bitsPerPixel == 32 && h.dataTypeCode == 2 && h.imageDescriptor == 0;
    RgbaFileDecodes(h, r.data);
  }

  /** A 32-bit uncompressed file with bottom-left origin decodes to the pixels that follow its header. */
  lemma RgbaFileDecodes(h: TgaHeader, data: seq<RgbaColor>)
    requires h.dataTypeCode == 2 && h.bitsPerPixel == 32 && !TopLeftOrigin(h.imageDescriptor)
    requires |data| == h.width * h.height
    ensures DecodeTga(EncodeHeader(h) + RgbaPixelBytes(data)) == Ok(Raster(h.width, h.height, data))
  {
    var bytes := EncodeHeader(h) + RgbaPixelBytes(data);
    HeaderRoundTrip(h, RgbaPixelBytes(data));
    RgbaPixelsDecode(h, data);
  }

  lemma RgbaPixelsDecode(h: TgaHeader, data: seq<RgbaColor>)
    requires h.dataTypeCode == 2 && h.bitsPerPixel == 32 && |data| == h.width * h.height
    ensures DecodePixels(EncodeHeader(h) + RgbaPixelBytes(data), h) == Ok(data)
  {
    var pre := EncodeHeader(h);
    HeaderRoundTrip(h, []);
    assert |pre| == HeaderSize;
    var empty: seq<RgbaColor> := [];
    PixelsFromRgbaBytes(pre, data, [], empty);
    assert pre + RgbaPixelBytes(data) + [] == pre + RgbaPixelBytes(data);
    assert empty + data == data;
    assert PixelsFrom(pre + RgbaPixelBytes(data), HeaderSize, 32, |data|, empty).Some?;
  }

  /** std::ifstream over a byte sequence: a cursor and the good() flag. */
  class ByteReader {
    const bytes: seq<Byte>
    var pos: nat
    var good: bool

    ghost predicate Valid()
      reads this
    {
      pos <= |bytes|
    }

    constructor (bytes: seq<Byte>)
      ensures Valid() && this.bytes == bytes && pos == 0 && good
    {
      this.bytes := bytes;
      pos, good := 0, true;
    }

    /** file.get() stored into a uint8_t: the next byte, or 255 (EOF) with good() false at the end. */
    method Get() returns (b: Byte)
      requires Valid()
      modifies this
      ensures Valid()
      ensures old(good) && old(pos) < |bytes| ==> b == bytes[old(pos)] && pos == old(pos) + 1 && good
      ensures !(old(good) && old(pos) < |bytes|) ==> b == 255 && pos == old(pos) && !good
    {
      if good && pos < |bytes| {
        b := bytes[pos];
        pos := pos + 1;
      } else {
        b := 255;
        good := false;
      }
    }

    /** readUint16LE: low byte then high byte. */
    method ReadUint16LE() returns (v: U16)
      requires Valid()
      modifies this
      ensures Valid()
      ensures good <==> old(good) && old(pos) + 2 <= |bytes|
      ensures good ==> pos == old(pos) + 2 && v == FromUint16LE(bytes[old(pos)], bytes[old(pos) + 1])
    {
      var low := Get();
      var high := Get();
      v := FromUint16LE(low, high);
    }

    /** ReadRgbaColor: B, G, R, then A for 32 bpp (255 otherwise); throws unless good() afterwards. */
    method ReadRgbaColor(bpp: int) returns (r: Result<RgbaColor>)
      requires Valid() && good
      modifies this
      ensures Valid()
      ensures r.Ok? <==> PixelAt(bytes, old(pos), bpp).Some?
      ensures r.Ok? ==> r == Ok(PixelAt(bytes, old(pos), bpp).value) && good && pos == old(pos) + PixelSize(bpp)
      ensures r.Err? ==> r == Err(ReadError)
    {
      var b := Get();
      var g := Get();
      var rr := Get();
      var a := 255;
      if bpp == 32 {
        a := Get();
      }
      if !good {
        return Err(ReadError);
      }
      r := Ok(RgbaColor(rr, g, b, a));
    }

    /** readTGAHeader followed by the good() check. */
    method ReadTgaHeader() returns (h: TgaHeader)
      requires Valid() && good && pos == 0
      modifies this
      ensures Valid()
      ensures good <==> DecodeHeader(bytes).Some?
      ensures good ==> h == DecodeHeader(bytes).value && pos == HeaderSize
    {
      var idLength := Get();
      var colorMapType := Get();
      var dataTypeCode := Get();
      var colorMapOrigin := ReadUint16LE();
      var colorMapLength := ReadUint16LE();
      var colorMapDepth := Get();
      var xOrigin := ReadUint16LE();
      var yOrigin := ReadUint16LE();
      var width := ReadUint16LE();
      var height := ReadUint16LE();
      var bitsPerPixel := Get();
      var imageDescriptor := Get();
      h := TgaHeader(idLength, colorMapType, dataTypeCode, colorMapOrigin, colorMapLength, colorMapDepth,
                     xOrigin, yOrigin, width, height, bitsPerPixel, imageDescriptor);
    }
  }

  /** std::ofstream over a byte sequence. */
  class ByteWriter {
    var out: seq<Byte>

    constructor ()
      ensures out == []
    {
      out := [];
    }

    method Put(b: Byte)
      modifies this
      ensures out == old(out) + [b]
    {
      out := out + [b];
    }

    /** The four bytes of one 32-bit pixel, blue first. */
    method PutBgra(c: RgbaColor)
      modifies this
      ensures out == old(out) + BgraBytes(c)
    {
      Put(c.b);
      Put(c.g);
      Put(c.r);
      Put(c.a);
    }

    /** writeUint16LE */
    method WriteUint16LE(v: U16)
      modifies this
      ensures out == old(out) + Uint16LE(v)
    {
      Put(v % 256);
      Put((v / 256) % 256);
    }

    /** writeTGAHeader */
    method WriteTgaHeader(h: TgaHeader)
      modifies this
      ensures out == old(out) + EncodeHeader(h)
    {
      Put(h.idLength);
      Put(h.colorMapType);
      Put(h.dataTypeCode);
      WriteUint16LE(h.colorMapOrigin);
      WriteUint16LE(h.colorMapLength);
      Put(h.colorMapDepth);
      WriteUint16LE(h.xOrigin);
      WriteUint16LE(h.yOrigin);
      WriteUint16LE(h.width);
      WriteUint16LE(h.height);
      Put(h.bitsPerPixel);
      Put(h.imageDescriptor);
    }
  }

  /** ReadTga over the bytes of the file. */
  method ReadTga(bytes: seq<Byte>) returns (r: Result<Raster<RgbaColor>>)
    ensures r == DecodeTga(bytes)
  {
    var file := new ByteReader(bytes);
    var header := file.ReadTgaHeader();
    if !file.good {
      return Err(RuntimeError("Failed to read TGA header"));
    }
    var width: int := header.width;
    var height: int := header.height;
    var bpp: int := header.bitsPerPixel;
    if bpp != 24 && bpp != 32 {
      return Err(RuntimeError("Unsupported TGA format (only 24 or 32 bpp are supported)"));
    }
    var pixels := ReadPixelData(file, header);
    if pixels.Err? {
      return Err(pixels.error);
    }
    var image := new Image.WithData(width, height, pixels.value, BlankRgba);
    if TopLeftOrigin(header.imageDescriptor) {
      image.FlipY();
    }
    r := Ok(image.Value());
  }

  /** The pixel data of ReadTga, read after the header by the loop its image type selects. */
  method ReadPixelData(file: ByteReader, header: TgaHeader) returns (pixels: Result<seq<RgbaColor>>)
    requires file.Valid() && file.good && file.pos == HeaderSize
    modifies file
    ensures pixels == DecodePixels(file.bytes, header)
  {
    var count := header.width * header.height;
    if header.dataTypeCode == 2 || header.dataTypeCode == 3 {
      pixels := ReadRawPixels(file, header.bitsPerPixel, count);
    } else if header.dataTypeCode == 10 {
      pixels := ReadRlePixels(file, header.bitsPerPixel, count);
    } else {
      pixels := Err(RuntimeError("Unsupported TGA format"));
    }
  }

  /** The loop of ReadTga for the uncompressed types 2 and 3: count pixels into a vector of count blanks. */
  method ReadRawPixels(file: ByteReader, bpp: int, count: nat) returns (r: Result<seq<RgbaColor>>)
    requires file.Valid() && file.good
    modifies file
    ensures r == match PixelsFrom(file.bytes, old(file.pos), bpp, count, [])
                 case None => Err(ReadError)
                 case Some((pixels, _)) => Ok(pixels)
  {
    var data := seq(count, _ => BlankRgba);
    var i := 0;
    while i < count
      invariant 0 <= i <= count && |data| == count
      invariant file.Valid() && file.good
      invariant PixelsFrom(file.bytes, file.pos, bpp, count - i, data[..i]) ==
                PixelsFrom(file.bytes, old(file.pos), bpp, count, [])
    {
      var c := file.ReadRgbaColor(bpp);
      if c.Err? {
        return Err(c.error);
      }
      data := data[i := c.value];
      assert data[..i + 1] == data[..i] + [c.value];
      i := i + 1;
    }
    assert data[..count] == data;
    r := Ok(data);
  }

  /** The loop of ReadTga for the run-length encoded type 10. */
  method ReadRlePixels(file: ByteReader, bpp: int, count: nat) returns (r: Result<seq<RgbaColor>>)
    requires file.Valid() && file.good
    modifies file
    ensures r == DecodeRle(file.bytes, bpp, old(file.pos), count, [])
  {
    var data := seq(count, _ => BlankRgba);
    var current := 0;
    while current < count
      invariant 0 <= current <= count && |data| == count
      invariant file.Valid()
      invariant DecodeRle(file.bytes, bpp, file.pos, count, data[..current]) ==
                DecodeRle(file.bytes, bpp, old(file.pos), count, [])
      invariant !file.good ==> file.pos == |file.bytes|
      decreases count - current
    {
      var packet := ReadPacket(file, bpp, count, data, current);
      if packet.Err? {
        return Err(packet.error);
      }
      data, current := packet.value.0, packet.value.1;
    }
    assert data[..count] == data;
    r := Ok(data);
  }

  /** One packet of the type 10 loop: its header byte, then a literal or a run written into data from current on. */
  method ReadPacket(file: ByteReader, bpp: int, count: nat, data: seq<RgbaColor>, current: nat)
    returns (r: Result<(seq<RgbaColor>, nat)>)
    requires file.Valid() && current < count == |data|
    requires !file.good ==> file.pos == |file.bytes|
    modifies file
    ensures file.Valid() && (r.Ok? ==> file.good)
    ensures r.Err? ==> DecodeRle(file.bytes, bpp, old(file.pos), count, data[..current]) == Err(r.error)
    ensures r.Ok? ==> current < r.value.1 <= count && |r.value.0| == count
    ensures r.Ok? ==> DecodeRle(file.bytes, bpp, old(file.pos), count, data[..current]) ==
                      DecodeRle(file.bytes, bpp, file.pos, count, r.value.0[..r.value.1])
  {
    var chunk := file.Get();
    if chunk < 128 {
      var k := chunk + 1;
      if current + k > count {
        return Err(OverrunError);
      }
      var packet := ReadLiteralPacket(file, bpp, k, data[..current]);
      if packet.Err? {
        return Err(packet.error);
      }
      var out := data[..current] + packet.value + data[current + k..];
      assert out[..current + k] == data[..current] + packet.value;
      r := Ok((out, current + k));
    } else {
      var k := chunk - 127;
      if !file.good {
        return Err(ReadError);
      }
      var c := file.ReadRgbaColor(bpp);
      if c.Err? {
        return Err(c.error);
      }
      if current + k > count {
        return Err(OverrunError);
      }
      var out := FillRun(data, current, k, c.value);
      r := Ok((out, current + k));
    }
  }

  /** A run packet: k copies of one colour written from position current on, one at a time. */
  method FillRun(data: seq<RgbaColor>, current: nat, k: nat, c: RgbaColor) returns (out: seq<RgbaColor>)
    requires current + k <= |data|
    ensures |out| == |data| && out[..current + k] == data[..current] + seq(k, _ => c)
  {
    out := data;
    var j := 0;
    while j < k
      invariant 0 <= j <= k && |out| == |data|
      invariant out[..current + j] == data[..current] + seq(j, _ => c)
    {
      out := out[current + j := c];
      assert out[..current + j + 1] == out[..current + j] + [c];
      j := j + 1;
    }
  }

  /** The k literal pixels after a header below 128, read one by one. */
  method ReadLiteralPacket(file: ByteReader, bpp: int, k: nat, ghost acc: seq<RgbaColor>) returns (r: Result<seq<RgbaColor>>)
    requires file.Valid() && file.good
    modifies file
    ensures file.Valid()
    ensures r.Err? <==> PixelsFrom(file.bytes, old(file.pos), bpp, k, acc).None?
    ensures r.Err? ==> r == Err(ReadError)
    ensures r.Ok? ==> |r.value| == k && file.good
    ensures r.Ok? ==> PixelsFrom(file.bytes, old(file.pos), bpp, k, acc) == Some((acc + r.value, file.pos))
  {
    var start := file.pos;
    var out: seq<RgbaColor> := [];
    assert acc + out == acc;
    var j := 0;
    while j < k
      invariant 0 <= j <= k && |out| == j
      invariant file.Valid() && file.good
      invariant PixelsFrom(file.bytes, start, bpp, j, acc) == Some((acc + out, file.pos))
      invariant PixelsFrom(file.bytes, start, bpp, k, acc) == PixelsFrom(file.bytes, file.pos, bpp, k - j, acc + out)
    {
      var c := file.ReadRgbaColor(bpp);
      if c.Err? {
        return Err(c.error);
      }
      PixelsFromStep(file.bytes, start, bpp, j, acc);
      assert acc + (out + [c.value]) == acc + out + [c.value];
      out := out + [c.value];
      j := j + 1;
    }
    r := Ok(out);
  }

  /** One more pixel read from the stream extends PixelsFrom by one. */
  lemma {:induction false} PixelsFromStep(bytes: seq<Byte>, pos: nat, bpp: int, j: nat, acc: seq<RgbaColor>)
    requires PixelsFrom(bytes, pos, bpp, j, acc).Some?
    requires PixelAt(bytes, PixelsFrom(bytes, pos, bpp, j, acc).value.1, bpp).Some?
    ensures PixelsFrom(bytes, pos, bpp, j + 1, acc) ==
      var (s, p) := PixelsFrom(bytes, pos, bpp, j, acc).value;
      Some((s + [PixelAt(bytes, p, bpp).value], p + PixelSize(bpp)))
    decreases j
  {
    if j > 0 {
      var c := PixelAt(bytes, pos, bpp).value;
      PixelsFromStep(bytes, pos + PixelSize(bpp), bpp, j - 1, acc + [c]);
    }
  }

  /** The RGBA WriteTga: the header, then B, G, R, A for every pixel in data order. */
  method WriteTgaRgba(image: Image<RgbaColor>) returns (bytes: seq<Byte>)
    requires image.Valid()
    ensures bytes == EncodeTgaRgba(image.Value())
  {
    var file := new ByteWriter();
    var header := ZeroHeader;
    header := header.(bitsPerPixel := 32);
    header := header.(width := ToU16(image.width));
    header := header.(height := ToU16(image.height));
    header := header.(dataTypeCode := 2);
    header := header.(imageDescriptor := 0);
    file.WriteTgaHeader(header);
    var data := image.data;
    var i := 0;
    while i < |data|
      invariant 0 <= i <= |data|
      invariant file.out == EncodeHeader(header) + RgbaPixelBytes(data[..i])
    {
      var color := data[i];
      file.PutBgra(color);
      RgbaPixelBytesAppend(data[..i], color);
      assert data[..i + 1] == data[..i] + [color];
      i := i + 1;
    }
    assert data[..i] == data;
    bytes := file.out;
  }

  /** The grayscale WriteTga: the header, then one value byte per pixel in data order. */
  method WriteTgaGray(image: Image<GrayscaleColor>) returns (bytes: seq<Byte>)
    requires image.Valid()
    ensures bytes == EncodeTgaGray(image.Value())
  {
    var file := new ByteWriter();
    var header := ZeroHeader;
    header := header.(bitsPerPixel := 8);
    header := header.(width := ToU16(image.width));
    header := header.(height := ToU16(image.height));
    header := header.(dataTypeCode := 3);
    header := header.(imageDescriptor := 0);
    file.WriteTgaHeader(header);
    var data := image.data;
    var i := 0;
    while i < |data|
      invariant 0 <= i <= |data|
      invariant file.out == EncodeHeader(header) + GrayPixelBytes(data[..i])
    {
      file.Put(data[i].value);
      assert GrayPixelBytes(data[..i + 1]) == GrayPixelBytes(data[..i]) + [data[i].value];
      i := i + 1;
    }
    assert data[..i] == data;
    bytes := file.out;
  }

  /**
   * The RLE loop of ReadTga as written: no packet is checked against the
   * pixel count, so the pixels written may outnumber the vector's elements.
   */
  function DecodeRleAsWritten(bytes: seq<Byte>, bpp: int, pos: nat, count: nat, acc: seq<RgbaColor>): (r: Result<seq<RgbaColor>>)
    ensures r.Ok? ==> count <= |r.value| && |acc| <= |r.value| && r.value[..|acc|] == acc
    decreases count - |acc|
  {
    if |acc| >= count then Ok(acc)
    else if pos >= |bytes| then Err(ReadError)
    else if bytes[pos] < 128 then
      match PixelsFrom(bytes, pos + 1, bpp, bytes[pos] + 1, acc)
      case None => Err(ReadError)
      case Some((acc', pos')) =>
        var r := DecodeRleAsWritten(bytes, bpp, pos', count, acc');
        assert r.Ok? ==> r.value[..|acc|] == r.value[..|acc'|][..|acc|];
        r
    else
      match PixelAt(bytes, pos + 1, bpp)
      case None => Err(ReadError)
      case Some(c) =>
        var acc' := acc + seq(bytes[pos] - 127, _ => c);
        var r := DecodeRleAsWritten(bytes, bpp, pos + 1 + PixelSize(bpp), count, acc');
        assert r.Ok? ==> r.value[..|acc|] == r.value[..|acc'|][..|acc|];
        r
  }

  /** A 1x1 type-10 file whose only packet is a run of 2 (header 0x81). */
  const OverrunFile: seq<Byte> :=
    [0, 0, 10, 0, 0, 0, 0, 0, 0, 0, 0, 0, 1, 0, 1, 0, 24, 0] + [0x81, 10, 20, 30]

  /**
   * The run packet of OverrunFile makes the loop as written store two pixels
   * into the one-element vector (the second store is past its end); the
   * decoder used by the model refuses the file instead.
   */
  lemma FindingRleOverrun()
    ensures DecodeRleAsWritten(OverrunFile, 24, HeaderSize, 1, []) == Ok([RgbaColor(30, 20, 10, 255), RgbaColor(30, 20, 10, 255)])
    ensures DecodeTga(OverrunFile) == Err(OverrunError)
  {
    OverrunPacket();
    OverrunRefused();
  }

  lemma OverrunPacket()
    ensures OverrunFile[HeaderSize] == 0x81
    ensures PixelAt(OverrunFile, HeaderSize + 1, 24) == Some(RgbaColor(30, 20, 10, 255))
    ensures DecodeRleAsWritten(OverrunFile, 24, HeaderSize, 1, []) == Ok([RgbaColor(30, 20, 10, 255), RgbaColor(30, 20, 10, 255)])
  {
    var c := RgbaColor(30, 20, 10, 255);
    assert OverrunFile[HeaderSize] == 0x81;
    assert PixelAt(OverrunFile, HeaderSize + 1, 24) == Some(c);
    assert [] + seq(2, _ => c) == [c, c];
  }

  lemma OverrunRefused()
    requires OverrunFile[HeaderSize] == 0x81
    requires PixelAt(OverrunFile, HeaderSize + 1, 24).Some?
    ensures DecodeTga(OverrunFile) == Err(OverrunError)
  {
    var h := OverrunHeader();
    OverrunRle();
    assert DecodePixels(OverrunFile, h) == Err(OverrunError);
  }

  lemma OverrunHeader() returns (h: TgaHeader)
    ensures h == ZeroHeader.(dataTypeCode := 10, width := 1, height := 1, bitsPerPixel := 24)
    ensures DecodeHeader(OverrunFile) == Some(h)
  {
    h := ZeroHeader.(dataTypeCode := 10, width := 1, height := 1, bitsPerPixel := 24);
  }

  lemma OverrunRle()
    requires OverrunFile[HeaderSize] == 0x81
    requires PixelAt(OverrunFile, HeaderSize + 1, 24).Some?
    ensures DecodeRle(OverrunFile, 24, HeaderSize, 1, []) == Err(OverrunError)
  {
  }

  /** Whatever the packets say, the decoder used by the model never yields more pixels than the image holds. */
  lemma RleStaysInBounds(bytes: seq<Byte>, bpp: int, count: nat)
    ensures DecodeRle(bytes, bpp, HeaderSize, count, []).Ok? ==> |DecodeRle(bytes, bpp, HeaderSize, count, []).value| == count
    ensures DecodeRleAsWritten(bytes, bpp, HeaderSize, count, []).Ok? ==> count <= |DecodeRleAsWritten(bytes, bpp, HeaderSize, count, []).value|
  {
  }

  /** A run packet (header 127 + k) followed by one 32-bit pixel decodes to k copies of it. */
  lemma {:induction false} RunPacketDecodes(c: RgbaColor, k: nat)
    requires 1 <= k <= 128
    ensures DecodeRle([127 + k] + BgraBytes(c), 32, 0, k, []) == Ok(seq(k, _ => c))
  {
    var bytes: seq<Byte> := [127 + k] + BgraBytes(c);
    assert PixelAt(bytes, 1, 32) == Some(c);
    var acc := [] + seq(k, _ => c);
    assert acc == seq(k, _ => c);
    assert DecodeRle(bytes, 32, 5, k, acc) == Ok(acc);
  }

  /** A literal packet (header k - 1) followed by k 32-bit pixels decodes to those pixels. */
  lemma {:induction false} LiteralPacketDecodes(s: seq<RgbaColor>)
    requires 1 <= |s| <= 128
    ensures DecodeRle([|s| - 1] + RgbaPixelBytes(s), 32, 0, |s|, []) == Ok(s)
  {
    var bytes: seq<Byte> := [|s| - 1] + RgbaPixelBytes(s);
    PixelsFromRgbaBytes([|s| - 1], s, [], []);
    assert bytes == [|s| - 1] + RgbaPixelBytes(s) + [];
    assert [] + s == s;
    assert PixelsFrom(bytes, 1, 32, |s|, []) == Some((s, 1 + 4 * |s|));
  }

  /** Channel k of a pixel in the R, G, B, A order of a PNG pixel array. */
  function Channel(c: RgbaColor, k: int): Byte
    requires 0 <= k < 4
  {
    if k == 0 then c.r else if k == 1 then c.g else if k == 2 then c.b else c.a
  }

  /** Pixels laid out as consecutive R, G, B, A bytes. */
  function Interleave(s: seq<RgbaColor>): (r: seq<Byte>)
    ensures |r| == 4 * |s|
  {
    seq(4 * |s|, p requires 0 <= p < 4 * |s| => Channel(s[p / 4], p % 4))
  }

  /** Groups of four bytes read back as R, G, B, A pixels. */
  function Deinterleave(b: seq<Byte>): (r: seq<RgbaColor>)
    requires |b| % 4 == 0
    ensures 4 * |r| == |b|
  {
    seq(|b| / 4, i requires 0 <= i < |b| / 4 => RgbaColor(b[4 * i], b[4 * i + 1], b[4 * i + 2], b[4 * i + 3]))
  }

  lemma FourTimes(i: int, k: int)
    requires 0 <= k < 4
    ensures (4 * i + k) / 4 == i && (4 * i + k) % 4 == k
  {
    DivModUnique(4 * i + k, 4, i, k);
  }

  lemma DeinterleaveInterleave(s: seq<RgbaColor>)
    ensures Deinterleave(Interleave(s)) == s
  {
    var b := Interleave(s);
    forall i | 0 <= i < |s|
      ensures Deinterleave(b)[i] == s[i]
    {
      FourTimes(i, 0);
      FourTimes(i, 1);
      FourTimes(i, 2);
      FourTimes(i, 3);
    }
  }

  /** The RGBA pixel array WritePng hands to the encoder: rows bottom-up, each pixel as R, G, B, A. */
  function PackRgba(data: seq<RgbaColor>, width: int, height: int): (r: seq<Byte>)
    requires 0 <= width && 0 <= height && |data| == width * height
    ensures |r| == 4 * |data|
  {
    Interleave(Flipped(data, width, height))
  }

  /** The grayscale pixel array WritePng hands to the encoder: rows bottom-up, one byte per pixel. */
  function PackGray(data: seq<GrayscaleColor>, width: int, height: int): (r: seq<Byte>)
    requires 0 <= width && 0 <= height && |data| == width * height
    ensures |r| == |data|
  {
    GrayPixelBytes(Flipped(data, width, height))
  }

  /** Channel k of pixel (x, y) lands at byte 4 * ((height-1-y) * width + x) + k. */
  lemma PackRgbaAt(data: seq<RgbaColor>, width: int, height: int, x: int, y: int, k: int)
    requires 0 <= width && 0 <= height && |data| == width * height
    requires 0 <= x < width && 0 <= y < height && 0 <= k < 4
    ensures 0 <= Index(x, y, width) < |data|
    ensures 0 <= 4 * Index(x, height - 1 - y, width) + k < 4 * |data|
    ensures PackRgba(data, width, height)[4 * Index(x, height - 1 - y, width) + k] == Channel(data[Index(x, y, width)], k)
  {
    FlippedAt(data, width, height, x, y);
    FourTimes(Index(x, height - 1 - y, width), k);
  }

  /** Pixel (x, y) lands at byte (height-1-y) * width + x of the grayscale array. */
  lemma PackGrayAt(data: seq<GrayscaleColor>, width: int, height: int, x: int, y: int)
    requires 0 <= width && 0 <= height && |data| == width * height
    requires 0 <= x < width && 0 <= y < height
    ensures 0 <= Index(x, y, width) < |data| && 0 <= Index(x, height - 1 - y, width) < |data|
    ensures PackGray(data, width, height)[Index(x, height - 1 - y, width)] == data[Index(x, y, width)].value
  {
    FlippedAt(data, width, height, x, y);
  }

  /** The pixel array ReadPng unpacks: groups of R, G, B, A with the rows put back bottom-up. */
  function UnpackRgba(bytes: seq<Byte>, width: int, height: int): (r: seq<RgbaColor>)
    requires 0 <= width && 0 <= height && |bytes| == 4 * (width * height)
    ensures |r| == width * height
  {
    Flipped(Deinterleave(bytes), width, height)
  }

  /** Unpacking undoes packing, so packing is one-to-one. */
  lemma UnpackPack(data: seq<RgbaColor>, width: int, height: int)
    requires 0 <= width && 0 <= height && |data| == width * height
    ensures UnpackRgba(PackRgba(data, width, height), width, height) == data
  {
    DeinterleaveInterleave(Flipped(data, width, height));
    FlippedTwice(data, width, height);
  }

  lemma PackRgbaInjective(d1: seq<RgbaColor>, d2: seq<RgbaColor>, width: int, height: int)
    requires 0 <= width && 0 <= height && |d1| == width * height && |d2| == width * height
    ensures PackRgba(d1, width, height) == PackRgba(d2, width, height) <==> d1 == d2
  {
    UnpackPack(d1, width, height);
    UnpackPack(d2, width, height);
  }

  /** The byte at p of the RGBA array holds its packed value once its source pixel is below i; before that it is 0. */
  ghost predicate RgbaPacked(s: seq<Byte>, data: seq<RgbaColor>, width: int, height: int, i: int)
    requires 0 < width && 0 <= height && |data| == width * height && |s| == 4 * |data|
  {
    forall p :: 0 <= p < |s| ==>
      s[p] == (FlipIndexInRange(p / 4, width, height);
               if FlipIndex(p / 4, width, height) < i then Channel(data[FlipIndex(p / 4, width, height)], p % 4) else 0)
  }

  lemma RgbaPackStep(s: seq<Byte>, data: seq<RgbaColor>, width: int, height: int, i: int)
    requires 0 < width && 0 <= height && |data| == width * height && |s| == 4 * |data|
    requires 0 <= i < |data| && RgbaPacked(s, data, width, height, i)
    ensures 0 <= FlipIndex(i, width, height) < |data|
    ensures var q := 4 * FlipIndex(i, width, height);
      RgbaPacked(s[q := data[i].r][q + 1 := data[i].g][q + 2 := data[i].b][q + 3 := data[i].a], data, width, height, i + 1)
  {
    FlipIndexTwice(i, width, height);
    var j := FlipIndex(i, width, height);
    var q := 4 * j;
    var t := s[q := data[i].r][q + 1 := data[i].g][q + 2 := data[i].b][q + 3 := data[i].a];
    forall p | 0 <= p < |t|
      ensures t[p] == (FlipIndexInRange(p / 4, width, height);
               if FlipIndex(p / 4, width, height) < i + 1 then Channel(data[FlipIndex(p / 4, width, height)], p % 4) else 0)
    {
      FlipIndexTwice(p / 4, width, height);
      FourTimes(p / 4, p % 4);
      if p / 4 == j {
        FourTimes(j, p % 4);
      } else {
        assert FlipIndex(p / 4, width, height) != i;
      }
    }
  }

  lemma RgbaPackStart(s: seq<Byte>, data: seq<RgbaColor>, width: int, height: int)
    requires 0 < width && 0 <= height && |data| == width * height && |s| == 4 * |data|
    requires forall p :: 0 <= p < |s| ==> s[p] == 0
    ensures RgbaPacked(s, data, width, height, 0)
  {
    forall p | 0 <= p < |s|
      ensures FlipIndex(p / 4, width, height) >= 0
    {
      FlipIndexInRange(p / 4, width, height);
    }
  }

  lemma RgbaPackDone(s: seq<Byte>, data: seq<RgbaColor>, width: int, height: int)
    requires 0 < width && 0 <= height && |data| == width * height && |s| == 4 * |data|
    requires RgbaPacked(s, data, width, height, |data|)
    ensures s == PackRgba(data, width, height)
  {
    forall p | 0 <= p < |s|
      ensures s[p] == PackRgba(data, width, height)[p]
    {
      FlipIndexInRange(p / 4, width, height);
    }
  }

  /** The packing loop of the RGBA WritePng: pixel i goes to row height-1-i/width, column i%width. */
  method PackRgbaPixels(image: Image<RgbaColor>) returns (bytes: seq<Byte>)
    requires image.Valid()
    ensures bytes == PackRgba(image.data, image.width, image.height)
  {
    var width, height, data := image.width, image.height, image.data;
    var imageData := new Byte[4 * (width * height)](_ => 0);
    if |data| == 0 {
      return imageData[..];
    }
    PixelOfIndex(0, width, height);
    RgbaPackStart(imageData[..], data, width, height);
    var i := 0;
    while i < width * height
      invariant 0 <= i <= |data|
      invariant RgbaPacked(imageData[..], data, width, height, i)
    {
      RgbaPackStep(imageData[..], data, width, height, i);
      var q := 4 * ((height - 1 - i / width) * width + i % width);
      assert q == 4 * FlipIndex(i, width, height);
      ghost var s: seq<Byte> := imageData[..];
      imageData[q + 0] := data[i].r;
      imageData[q + 1] := data[i].g;
      imageData[q + 2] := data[i].b;
      imageData[q + 3] := data[i].a;
      assert imageData[..] == s[q := data[i].r][q + 1 := data[i].g][q + 2 := data[i].b][q + 3 := data[i].a];
      i := i + 1;
    }
    RgbaPackDone(imageData[..], data, width, height);
    bytes := imageData[..];
  }

  /** The byte at p of the grayscale array holds its packed value once its source pixel is below i; before that it is 0. */
  ghost predicate GrayPacked(s: seq<Byte>, data: seq<GrayscaleColor>, width: int, height: int, i: int)
    requires 0 < width && 0 <= height && |data| == width * height && |s| == |data|
  {
    forall p :: 0 <= p < |s| ==>
      s[p] == (FlipIndexInRange(p, width, height);
               if FlipIndex(p, width, height) < i then data[FlipIndex(p, width, height)].value else 0)
  }

  lemma GrayPackStep(s: seq<Byte>, data: seq<GrayscaleColor>, width: int, height: int, i: int)
    requires 0 < width && 0 <= height && |data| == width * height && |s| == |data|
    requires 0 <= i < |data| && GrayPacked(s, data, width, height, i)
    ensures 0 <= FlipIndex(i, width, height) < |data|
    ensures GrayPacked(s[FlipIndex(i, width, height) := data[i].value], data, width, height, i + 1)
  {
    FlipIndexTwice(i, width, height);
    var j := FlipIndex(i, width, height);
    var t := s[j := data[i].value];
    forall p | 0 <= p < |t|
      ensures t[p] == (FlipIndexInRange(p, width, height);
               if FlipIndex(p, width, height) < i + 1 then data[FlipIndex(p, width, height)].value else 0)
    {
      FlipIndexTwice(p, width, height);
    }
  }

  lemma GrayPackStart(s: seq<Byte>, data: seq<GrayscaleColor>, width: int, height: int)
    requires 0 < width && 0 <= height && |data| == width * height && |s| == |data|
    requires forall p :: 0 <= p < |s| ==> s[p] == 0
    ensures GrayPacked(s, data, width, height, 0)
  {
    forall p | 0 <= p < |s|
      ensures FlipIndex(p, width, height) >= 0
    {
      FlipIndexInRange(p, width, height);
    }
  }

  lemma GrayPackDone(s: seq<Byte>, data: seq<GrayscaleColor>, width: int, height: int)
    requires 0 < width && 0 <= height && |data| == width * height && |s| == |data|
    requires GrayPacked(s, data, width, height, |data|)
    ensures s == PackGray(data, width, height)
  {
    forall p | 0 <= p < |s|
      ensures s[p] == PackGray(data, width, height)[p]
    {
      FlipIndexInRange(p, width, height);
    }
  }

  /** The packing loop of the grayscale WritePng. */
  method PackGrayPixels(image: Image<GrayscaleColor>) returns (bytes: seq<Byte>)
    requires image.Valid()
    ensures bytes == PackGray(image.data, image.width, image.height)
  {
    var width, height, data := image.width, image.height, image.data;
    var imageData := new Byte[width * height](_ => 0);
    if |data| == 0 {
      return imageData[..];
    }
    PixelOfIndex(0, width, height);
    GrayPackStart(imageData[..], data, width, height);
    var i := 0;
    while i < width * height
      invariant 0 <= i <= |data|
      invariant GrayPacked(imageData[..], data, width, height, i)
    {
      GrayPackStep(imageData[..], data, width, height, i);
      var j := (height - 1 - i / width) * width + i % width;
      assert j == FlipIndex(i, width, height);
      imageData[j] := data[i].value;
      i := i + 1;
    }
    GrayPackDone(imageData[..], data, width, height);
    bytes := imageData[..];
  }

  /** WritePng: the packed array, or runtime_error when stbi_write_png reports failure. */
  method WritePngRgba(image: Image<RgbaColor>, written: bool) returns (r: Result<seq<Byte>>)
    requires image.Valid()
    ensures written <==> r.Ok?
    ensures r.Ok? ==> r.value == PackRgba(image.data, image.width, image.height)
  {
    var imageData := PackRgbaPixels(image);
    if !written {
      return Err(RuntimeError("Failed to write PNG file"));
    }
    r := Ok(imageData);
  }

  method WritePngGray(image: Image<GrayscaleColor>, written: bool) returns (r: Result<seq<Byte>>)
    requires image.Valid()
    ensures written <==> r.Ok?
    ensures r.Ok? ==> r.value == PackGray(image.data, image.width, image.height)
  {
    var imageData := PackGrayPixels(image);
    if !written {
      return Err(RuntimeError("Failed to write PNG file"));
    }
    r := Ok(imageData);
  }
}
