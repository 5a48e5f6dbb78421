/**
 * cpps/TinyRenderer/src/file.cpp. Its TGA helpers, ReadTga and WriteTga are
 * the same code as cpps/common/file.cpp and are modelled once, in
 * CommonFile; this module adds the lodepng side: ReadPng's unpacking and the
 * WritePng overloads, with the codec's error code as a parameter.
 */
module RendererFile {
  import opened Wrappers
  import opened Images
  import opened CommonFile

  /**
   * ReadPng. loadError and decodeError are lodepng's codes (decode runs only
   * when loading succeeded); decoded is the RGBA array lodepng produced, top
   * row first.
   */
  method ReadPng(loadError: nat, decodeError: nat, decoded: seq<Byte>, width: nat, height: nat)
    returns (r: Result<Raster<RgbaColor>>)
    requires loadError == 0 && decodeError == 0 ==> |decoded| == 4 * (width * height)
    ensures r.Ok? <==> loadError == 0 && decodeError == 0
    ensures r.Ok? ==> r.value == Raster(width, height, UnpackRgba(decoded, width, height)) && r.value.Valid()
    ensures r.Err? ==> r == Err(RuntimeError("Decoder error"))
  {
    var error := loadError;
    if error == 0 {
      error := decodeError;
    }
    if error != 0 {
      return Err(RuntimeError("Decoder error"));
    }
    var data := seq(width * height, _ => BlankRgba);
    ghost var unpacked := UnpackRgba(decoded, width, height);
    var i := 0;
    while i < |data|
      invariant 0 <= i <= |data| == width * height
      invariant data[..i] == unpacked[..i]
    {
      FlipIndexInRange(i, width, height);
      var q := 4 * ((height - 1 - i / width) * width + i % width);
      assert q == 4 * FlipIndex(i, width, height);
      data := data[i := RgbaColor(decoded[q + 0], decoded[q + 1], decoded[q + 2], decoded[q + 3])];
      assert data[..i + 1] == data[..i] + [data[i]];
      assert unpacked[..i + 1] == unpacked[..i] + [unpacked[i]];
      i := i + 1;
    }
    assert data == data[..i];
    var img := new Image.WithData(width, height, data, BlankRgba);
    r := Ok(img.Value());
  }

  /** The RGBA WritePng: the packed array goes to the encoder; a non-zero code is an error. */
  method WritePngRgba(image: Image<RgbaColor>, encodeError: nat) returns (r: Result<seq<Byte>>)
    requires image.Valid()
    ensures r.Ok? <==> encodeError == 0
    ensures r.Ok? ==> r.value == PackRgba(image.data, image.width, image.height)
    ensures r.Err? ==> r == Err(RuntimeError("Encoder error"))
  {
    var imageData := PackRgbaPixels(image);
    if encodeError != 0 {
      return Err(RuntimeError("Encoder error"));
    }
    r := Ok(imageData);
  }

  /** The grayscale WritePng. */
  method WritePngGray(image: Image<GrayscaleColor>, encodeError: nat) returns (r: Result<seq<Byte>>)
    requires image.Valid()
    ensures r.Ok? <==> encodeError == 0
    ensures r.Ok? ==> r.value == PackGray(image.data, image.width, image.height)
    ensures r.Err? ==> r == Err(RuntimeError("Encoder error"))
  {
    var imageData := PackGrayPixels(image);
    if encodeError != 0 {
      return Err(RuntimeError("Encoder error"));
    }
    r := Ok(imageData);
  }

  /** What ReadPng returns for the array WritePng encoded is the image that was written. */
  lemma PngRoundTrip(r: Raster<RgbaColor>)
    requires r.Valid()
    ensures UnpackRgba(PackRgba(r.data, r.width, r.height), r.width, r.height) == r.data
  {
    UnpackPack(r.data, r.width, r.height);
  }

  /** ReadTga refuses every file the grayscale WriteTga produces: its 8 bpp is not 24 or 32. */
  lemma GrayTgaRejected(r: Raster<GrayscaleColor>)
    ensures DecodeTga(EncodeTgaGray(r)) == Err(RuntimeError("Unsupported TGA format (only 24 or 32 bpp are supported)"))
  {
    HeaderRoundTrip(GrayHeader(r.width, r.height), GrayPixelBytes(r.data));
  }

  /** Pixel reads past the header see only the bytes after it. */
  lemma {:induction false} PixelsFromAfterHeader(pre: seq<Byte>, pre': seq<Byte>, rest: seq<Byte>, pos: nat, bpp: int, k: nat, acc: seq<RgbaColor>)
    requires |pre| == |pre'| <= pos
    ensures PixelsFrom(pre + rest, pos, bpp, k, acc) == PixelsFrom(pre' + rest, pos, bpp, k, acc)
    decreases k
  {
    assert PixelAt(pre + rest, pos, bpp) == PixelAt(pre' + rest, pos, bpp);
    if k > 0 && PixelAt(pre + rest, pos, bpp).Some? {
      var c := PixelAt(pre + rest, pos, bpp).value;
      PixelsFromAfterHeader(pre, pre', rest, pos + PixelSize(bpp), bpp, k - 1, acc + [c]);
    }
  }

  lemma {:induction false} RleAfterHeader(pre: seq<Byte>, pre': seq<Byte>, rest: seq<Byte>, bpp: int, pos: nat, count: nat, acc: seq<RgbaColor>)
    requires |pre| == |pre'| <= pos && |acc| <= count
    ensures DecodeRle(pre + rest, bpp, pos, count, acc) == DecodeRle(pre' + rest, bpp, pos, count, acc)
    decreases count - |acc|
  {
    var b, b' := pre + rest, pre' + rest;
    if |acc| < count && pos < |b| {
      assert b[pos] == b'[pos];
      if b[pos] < 128 {
        PixelsFromAfterHeader(pre, pre', rest, pos + 1, bpp, b[pos] + 1, acc);
        if |acc| + b[pos] + 1 <= count && PixelsFrom(b, pos + 1, bpp, b[pos] + 1, acc).Some? {
          var (acc', pos') := PixelsFrom(b, pos + 1, bpp, b[pos] + 1, acc).value;
          RleAfterHeader(pre, pre', rest, bpp, pos', count, acc');
        }
      } else {
        assert PixelAt(b, pos + 1, bpp) == PixelAt(b', pos + 1, bpp);
        if PixelAt(b, pos + 1, bpp).Some? && |acc| + b[pos] - 127 <= count {
          var c := PixelAt(b, pos + 1, bpp).value;
          RleAfterHeader(pre, pre', rest, bpp, pos + 1 + PixelSize(bpp), count, acc + seq(b[pos] - 127, _ => c));
        }
      }
    }
  }

  /**
   * ReadTga reads the pixels right after the 18-byte header: the id length,
   * the colour-map fields and the origin fields change nothing.
   */
  lemma HeaderFieldsIgnored(h: TgaHeader, h': TgaHeader, rest: seq<Byte>)
    requires h'.width == h.width && h'.height == h.height && h'.bitsPerPixel == h.bitsPerPixel
    requires h'.dataTypeCode == h.dataTypeCode && h'.imageDescriptor == h.imageDescriptor
    ensures DecodeTga(EncodeHeader(h) + rest) == DecodeTga(EncodeHeader(h') + rest)
  {
    HeaderRoundTrip(h, rest);
    HeaderRoundTrip(h', rest);
    PixelsIgnoreHeaderFields(h, h', rest);
  }

  lemma PixelsIgnoreHeaderFields(h: TgaHeader, h': TgaHeader, rest: seq<Byte>)
    requires h'.width == h.width && h'.height == h.height && h'.bitsPerPixel == h.bitsPerPixel
    requires h'.dataTypeCode == h.dataTypeCode
    ensures DecodePixels(EncodeHeader(h) + rest, h) == DecodePixels(EncodeHeader(h') + rest, h')
  {
    var pre, pre' := EncodeHeader(h), EncodeHeader(h');
    assert |pre| == HeaderSize && |pre'| == HeaderSize;
    var n := h.width * h.height;
    if h.dataTypeCode == 2 || h.dataTypeCode == 3 {
      PixelsFromAfterHeader(pre, pre', rest, HeaderSize, h.bitsPerPixel, n, []);
    } else if h.dataTypeCode == 10 {
      RleAfterHeader(pre, pre', rest, h.bitsPerPixel, HeaderSize, n, []);
    }
  }
}
