# A verified model of the tiny-series software renderer

This project is a Dafny model of the CPU software renderer of the tiny
series, and it proves properties of that model. The model covers:

- **Images and files.** The image container and colour types
  (`cpps/common/image.h`). The TGA reader and writers and the PNG packing in
  `cpps/common/file.cpp` and `cpps/TinyRenderer/src/file.cpp`.
- **Geometry.** The vector and matrix classes and the transform utilities
  (`geometry/vec.h`, `geometry/mat.h`, `geometry/utils.h`).
- **The rasterizer.** The barycentric rasterizer with its depth test
  (`cpps/TinyRenderer/src/our_gl.cpp`). The shaders and the renderer that
  drives them (`shader.cpp`, `render.cpp`).
- **The older TinyRenderer tree.** Its `geometry.h`, `geometry_new/`,
  `our_gl.cpp`, `drawing.cpp`, `line.cpp` and `render.cpp`.
- **The ray tracer's shapes.** The sphere intersection of the ray tracer
  (`cpps/TinyRaytracer`).
- **The render-options form.** The validation in the render-options form
  of the web page.

How the model represents the program:

- **Exact reals.** Arithmetic is over exact reals, and every `float` to
  `int` cast is written out as truncation toward zero (`RealMath.Trunc`).
- **Library functions.** `sqrt`, `pow` and `atan2` belong to the C
  library. They reach the model as fields of a `MathLib` value, and
  `RealMath.ValidLib` states what is assumed about them.
- **Errors.** Every exception the C++ code throws is a `Result`/`Outcome`
  error of the same kind (`out_of_range`, `invalid_argument`,
  `runtime_error`). A message that is a fixed string is kept as it is. A
  message that embeds run-time values is shortened to its fixed part:
  `Image::at` keeps "Image x range", and the PNG errors keep "Decoder
  error" and "Encoder error" without the lodepng code and text. The two
  errors the model adds are listed under "## Left out".
- **In-place state.** Classes whose methods update fields in place
  (`Image`, `Vec`, `Mat`, the shaders, the z-buffers, the TGA byte streams)
  are Dafny classes. Each of their methods is specified by a pure function
  of the old state.

## Model

| member | source | states |
|---|---|---|
| RealMath.Trunc | cpps/common/image.h:57-59 | `static_cast<int>` of a float: the result is the integer next to x on the side of zero, so it is never farther from zero than x and within 1 of it |
| RealMath.ClampInt | cpps/TinyRenderer/src/our_gl.cpp:131-134 | `std::clamp` with lo <= hi lands in [lo, hi] and leaves a value already inside unchanged |
| RealMath.ClampReal | cpps/TinyRenderer/include/geometry/utils.h:152 | the float `std::clamp`: lands in [lo, hi], identity inside |
| RealMath.FMod1 | cpps/TinyRenderer/include/our_gl.h:92-97 | `fmod(s, 1)` lies strictly between -1 and 1 and carries the sign of s |
| RealMath.TruncMonotone | cpps/TinyRenderer/src/our_gl.cpp:122-125 | truncating the float corners of the bounding box to int keeps their order |
| LinAlg.CrossOrthogonal | TinyRenderer/include/geometry/vec.h:129-134 | the cross product is orthogonal to both operands |
| LinAlg.IdentityLeftUnit | cpps/common/geometry/mat.h:98-111 | the triple-loop product with the identity on the left returns the matrix |
| LinAlg.IdentityRightUnit | cpps/common/geometry/mat.h:98-111 | the product with the identity on the right returns the matrix |
| LinAlg.WithColumnThenColumn | cpps/common/geometry/mat.h:137-153 | after SetColumn(j, v), GetColumnVector(j) is v and every other column is unchanged |
| LinAlg.SqLengthScaled | TinyRenderer/include/geometry/vec.h:110-142 | scaling a vector by f scales its squared length by f² |
| Images.Rgb | cpps/common/image.h:41 | the three-argument constructor keeps r, g, b and makes the colour opaque (alpha 255) |
| Images.AddSaturates | cpps/common/image.h:43-54 | each channel of `+` is the exact sum when it fits a byte and 255 when the sum overflows; alpha comes from the left operand |
| Images.AddMonotoneAndSymmetric | cpps/common/image.h:43-54 | `+` never darkens either operand, and apart from alpha it is symmetric |
| Images.ScaleTruncates | cpps/common/image.h:56-67 | for a factor s >= 0, each channel of `*` is the product truncated and capped at 255, and alpha is kept |
| Images.ScaleByAtMostOne | cpps/common/image.h:56-67 | a factor in [0, 1] never brightens a channel, and a factor of 1 changes nothing |
| Images.FlipIndexTwice | cpps/common/image.h:98-106 | the index FlipY moves a pixel to is a valid index, and moving it twice returns it to where it was |
| Images.FlippedAt | cpps/common/image.h:98-106 | after FlipY, row height-1-y holds what row y held, column by column |
| Images.FlippedTwice | cpps/common/image.h:98-106 | flipping twice restores the buffer |
| Images.Raster.At | cpps/common/image.h:114-126 | `at(x, y)` succeeds exactly inside the image and returns element y*width+x; x is checked first ("Image x range") |
| Images.Image.Empty | cpps/common/image.h:81 | `Image()` is 0×0 with no data |
| Images.Image.constructor | cpps/common/image.h:82-83 | `Image(w, h)` holds w·h copies of `Color()` |
| Images.Image.WithData | cpps/common/image.h:84-85 | `Image(w, h, data)` takes data as its row-by-row pixels |
| Images.Image.Set | cpps/common/image.h:92 | `set(x, y, c)` replaces element y*width+x and nothing else; the caller keeps that index inside the vector |
| Images.Image.Clear | cpps/common/image.h:93-97 | every element becomes `Color()`, and the size is kept |
| Images.Image.Fill | cpps/common/image.h:108-112 | every element becomes c, and the size is kept |
| Images.Image.FlipY | cpps/common/image.h:98-106 | the new buffer is `Flipped` of the old one (rows in reverse order), and the size is kept |
| Images.NewRgbaImage | cpps/common/image.h:36 | an `Image<RgbaColor>(w, h)` holds w·h pixels that are zero in all four channels |
| CommonFile.Uint16RoundTrip | cpps/common/file.cpp:42-54 | readUint16LE reads back what writeUint16LE wrote (low byte first), and every pair of bytes is what some value writes |
| CommonFile.HeaderRoundTrip | cpps/common/file.cpp:72-111 | writeTGAHeader emits 18 bytes, and readTGAHeader reads them back to the same header whatever bytes follow |
| CommonFile.PixelsFrom | cpps/common/file.cpp:137-139 | reading k pixels appends exactly k pixels and advances the position by k pixel sizes, without reading past the end |
| CommonFile.DecodeRle | cpps/common/file.cpp:140-160 | the type-10 packet loop: a successful decode holds exactly the image's pixel count, extending what was already decoded |
| CommonFile.DecodePixels | cpps/common/file.cpp:134-163 | a successful pixel read yields width·height pixels |
| CommonFile.DecodeTga | cpps/common/file.cpp:113-172 | a successful ReadTga yields a well-formed image (width·height pixels) |
| CommonFile.DecodeTgaAccepts | cpps/common/file.cpp:119-169 | ReadTga succeeds only when the header reads, bpp is 24 or 32 and the type is 2, 3 or 10; the 0x20 descriptor bit decides whether the rows come back reversed |
| CommonFile.RgbaPixelBytesAppend | cpps/common/file.cpp:220-225 | the RGBA writer's bytes for one more pixel are the previous bytes followed by B, G, R, A |
| CommonFile.PixelsFromRgbaBytes | cpps/common/file.cpp:56-69 | reading 32-bit pixels back from the bytes the RGBA writer emitted gives the same pixels, wherever they sit in the file |
| CommonFile.FirstRgbaPixel | cpps/common/file.cpp:56-69 | ReadRgbaColor at the start of written pixel bytes returns the first pixel |
| CommonFile.TgaRoundTrip | cpps/common/file.cpp:199-230 | for any image up to 65535×65535 with fewer than 2^31 pixels, ReadTga of what the RGBA WriteTga wrote returns the same width, height and pixels |
| CommonFile.RgbaFileDecodes | cpps/common/file.cpp:113-172 | an uncompressed 32-bit file with bottom-left origin decodes to the pixels after its header, unflipped |
| CommonFile.RgbaPixelsDecode | cpps/common/file.cpp:136-139 | the type-2 loop reads back the 32-bit pixels that follow the header |
| CommonFile.ByteReader.Get | cpps/common/file.cpp:59-62 | `file.get()` into a byte: the next byte while the stream is good, else 255 with the stream failed |
| CommonFile.ByteReader.ReadUint16LE | cpps/common/file.cpp:42-48 | the stream stays good exactly when two bytes remain; the value is low byte plus 256 times the high byte |
| CommonFile.ByteReader.ReadRgbaColor | cpps/common/file.cpp:56-69 | reads B, G, R and, for 32 bpp, A (255 otherwise); throws "An error occurred while reading the data" exactly when the bytes run out |
| CommonFile.ByteReader.ReadTgaHeader | cpps/common/file.cpp:72-95 | the stream stays good exactly when the 18 header bytes decode, and the header is their decoding |
| CommonFile.ByteWriter.Put | cpps/common/file.cpp:99 | `file.put` appends one byte |
| CommonFile.ByteWriter.WriteUint16LE | cpps/common/file.cpp:51-54 | appends the low byte, then the high byte |
| CommonFile.ByteWriter.WriteTgaHeader | cpps/common/file.cpp:98-111 | appends the 18-byte encoding of the header |
| CommonFile.ReadTga | cpps/common/file.cpp:113-172 | the stream-reading ReadTga returns exactly `DecodeTga` of the file's bytes, errors included |
| CommonFile.ReadPixelData | cpps/common/file.cpp:136-163 | the loop chosen by the image type returns `DecodePixels`; any other type throws "Unsupported TGA format" |
| CommonFile.ReadRawPixels | cpps/common/file.cpp:137-139 | the type 2/3 loop returns the width·height pixels `PixelsFrom` reads, or the read error |
| CommonFile.ReadRlePixels | cpps/common/file.cpp:140-160 | the type-10 loop returns `DecodeRle` of the stream from the current position |
| CommonFile.ReadPacket | cpps/common/file.cpp:145-159 | one packet advances the pixel cursor and leaves the rest of the decode unchanged, or fails with the decoder's error |
| CommonFile.FillRun | cpps/common/file.cpp:153-158 | a run packet writes k copies of the colour from the cursor on and leaves the earlier pixels alone |
| CommonFile.ReadLiteralPacket | cpps/common/file.cpp:147-151 | a literal packet reads k pixels one after another, failing exactly when `PixelsFrom` does |
| CommonFile.PixelsFromStep | cpps/common/file.cpp:137-139 | reading one more pixel extends the pixels read by that pixel |
| CommonFile.WriteTgaRgba | cpps/common/file.cpp:199-230 | the RGBA writer emits the 32-bpp type-2 header and then B, G, R, A per pixel in data order |
| CommonFile.WriteTgaGray | cpps/common/file.cpp:232-259 | the grayscale writer emits the 8-bpp type-3 header and then one byte per pixel |
| CommonFile.DecodeRleAsWritten | cpps/common/file.cpp:140-160 | the packet loop as written: it stops only once the cursor reaches the count, so it can yield more pixels than the vector holds |
| CommonFile.FindingRleOverrun | cpps/common/file.cpp:144-158 | for a 1×1 file with run header 0x81, the loop as written stores two pixels into a one-element vector, and the model's decoder refuses the file |
| CommonFile.RleStaysInBounds | cpps/common/file.cpp:140-160 | the model's decoder yields exactly the pixel count; the loop as written yields at least that many |
| CommonFile.RunPacketDecodes | cpps/common/file.cpp:152-158 | a header 127+k followed by one pixel decodes to k copies of it |
| CommonFile.LiteralPacketDecodes | cpps/common/file.cpp:147-151 | a header k-1 followed by k pixels decodes to those pixels |
| CommonFile.DeinterleaveInterleave | cpps/common/file.cpp:270-274 | reading groups of four bytes as R, G, B, A undoes laying pixels out as R, G, B, A |
| CommonFile.PackRgbaAt | cpps/common/file.cpp:291-302 | channel k of pixel (x, y) lands at byte 4·((height-1-y)·width + x) + k |
| CommonFile.PackGrayAt | cpps/common/file.cpp:316-320 | pixel (x, y) lands at byte (height-1-y)·width + x |
| CommonFile.UnpackPack | cpps/TinyRenderer/src/file.cpp:222-230 | ReadPng's unpacking undoes WritePng's packing |
| CommonFile.PackRgbaInjective | cpps/common/file.cpp:291-302 | two images of one size pack to the same bytes exactly when they are equal |
| CommonFile.PackRgbaPixels | cpps/common/file.cpp:291-302 | the packing loop, which writes pixel i at row height-1-i/width, column i%width, produces `PackRgba` |
| CommonFile.PackGrayPixels | cpps/common/file.cpp:316-320 | the grayscale packing loop produces `PackGray` |
| CommonFile.WritePngRgba | cpps/common/file.cpp:286-308 | the encoder gets the packed array; a failed `stbi_write_png` is a runtime error |
| CommonFile.WritePngGray | cpps/common/file.cpp:310-326 | the same for the grayscale image, packed one byte per pixel |
| RendererFile.ReadPng | cpps/TinyRenderer/src/file.cpp:207-234 | fails ("Decoder error") exactly when lodepng's load or decode reports a code; otherwise the image is the decoded RGBA array with the rows put back bottom-up |
| RendererFile.WritePngRgba | cpps/TinyRenderer/src/file.cpp:236-264 | the encoder gets the packed RGBA array; a non-zero code is "Encoder error" |
| RendererFile.WritePngGray | cpps/TinyRenderer/src/file.cpp:266-287 | the encoder gets the packed grayscale array; a non-zero code is "Encoder error" |
| RendererFile.PngRoundTrip | cpps/TinyRenderer/src/file.cpp:222-253 | ReadPng's unpacking of what WritePng packed is the image written |
| RendererFile.GrayTgaRejected | cpps/TinyRenderer/src/file.cpp:178-205 | ReadTga refuses every file the grayscale WriteTga produces, since 8 bpp is neither 24 nor 32 |
| RendererFile.PixelsFromAfterHeader | cpps/TinyRenderer/src/file.cpp:107-110 | reading pixels after the header depends only on the bytes after it |
| RendererFile.RleAfterHeader | cpps/TinyRenderer/src/file.cpp:111-131 | the RLE loop after the header depends only on the bytes after it |
| RendererFile.HeaderFieldsIgnored | cpps/TinyRenderer/src/file.cpp:84-143 | the id length, colour-map and origin fields of the header change nothing ReadTga returns |
| RendererFile.PixelsIgnoreHeaderFields | cpps/TinyRenderer/src/file.cpp:96-134 | the pixels read after two headers that agree on size, bpp and type are the same |
| GeometryVec.Vec.constructor | TinyRenderer/include/geometry/vec.h:40 | `Vec()` has n components, all 0 |
| GeometryVec.Vec.FromSeq | TinyRenderer/include/geometry/vec.h:41-47 | a vector built from n values holds them in order |
| GeometryVec.Vec.At | TinyRenderer/include/geometry/vec.h:55-60 | the const `operator[]` returns component i exactly when 0 <= i < n, else out_of_range "Index out of range" |
| GeometryVec.Vec.SetAt | TinyRenderer/include/geometry/vec.h:49-54 | a write through `operator[]` changes component i alone, or fails with out_of_range and changes nothing |
| GeometryVec.Vec.AddAssign | TinyRenderer/include/geometry/vec.h:62-67 | `+=` leaves the component-wise sum of the old values, also when v is this vector |
| GeometryVec.Vec.SubAssign | TinyRenderer/include/geometry/vec.h:68-73 | `-=` leaves the component-wise difference of the old values |
| GeometryVec.Vec.ScaleAssign | TinyRenderer/include/geometry/vec.h:75-80 | `*=` multiplies every component by f |
| GeometryVec.Vec.DivAssign | TinyRenderer/include/geometry/vec.h:81-90 | `/=` fails with "Division by zero" exactly when f is 0, changing nothing; otherwise every component is divided by f |
| GeometryVec.Vec.Plus | TinyRenderer/include/geometry/vec.h:92-96 | `+` returns a fresh vector holding the sum and leaves both operands alone |
| GeometryVec.Vec.Minus | TinyRenderer/include/geometry/vec.h:97-101 | `-` returns a fresh vector holding the difference |
| GeometryVec.Vec.Times | TinyRenderer/include/geometry/vec.h:110-114 | `* f` returns a fresh scaled vector |
| GeometryVec.Vec.DividedBy | TinyRenderer/include/geometry/vec.h:115-119 | `/ f` is the error of `/=` when f is 0, else a fresh vector of quotients |
| GeometryVec.Vec.DotWith | TinyRenderer/include/geometry/vec.h:102-108 | the accumulating loop computes the dot product |
| GeometryVec.Vec.CrossWith | TinyRenderer/include/geometry/vec.h:129-134 | `^` returns a fresh vector holding the cross product |
| GeometryVec.Vec.CrossAssign | TinyRenderer/include/geometry/vec.h:121-127 | `^=` replaces the vector by the cross product of the old values |
| GeometryVec.Vec.Length | TinyRenderer/include/geometry/vec.h:136-142 | `length()` is sqrt of the sum of squares |
| GeometryVec.Vec.Normalize | TinyRenderer/include/geometry/vec.h:144-154 | fails with "Division by zero" exactly when the length is 0 (with an exact sqrt, exactly for the zero vector), changing nothing; otherwise every component is divided by the length |
| GeometryVec.FromList | TinyRenderer/include/geometry/vec.h:41-47 | the initializer-list constructor fails with invalid_argument unless the list has exactly n values; otherwise it holds them |
| GeometryVec.Normalized | TinyRenderer/include/geometry/vec.h:144-159 | the value Normalize leaves: an error on zero length, else a vector whose components times the length give back the input |
| GeometryVec.NormalizedIsUnit | TinyRenderer/include/geometry/vec.h:144-154 | with an exact sqrt, a normalized vector has length 1 |
| GeometryMat.Mat.constructor | cpps/common/geometry/mat.h:36 | `Mat()` is the n×m zero matrix |
| GeometryMat.Mat.FromRows | cpps/common/geometry/mat.h:37-55 | a matrix built from n rows of m values holds them |
| GeometryMat.Mat.Row | cpps/common/geometry/mat.h:63-68 | the const `operator[]` returns row i exactly when 0 <= i < n, else out_of_range |
| GeometryMat.Mat.SetEntry | cpps/common/geometry/mat.h:57-62 | `mat[i][j] = x` changes that entry alone when the row index is valid, else fails with out_of_range and changes nothing |
| GeometryMat.Mat.SubAssign | cpps/common/geometry/mat.h:78-85 | `-=` leaves the entry-wise difference of the old values |
| GeometryMat.Mat.Minus | cpps/common/geometry/mat.h:92-96 | `-` returns a fresh matrix holding the difference |
| GeometryMat.Mat.Times | cpps/common/geometry/mat.h:98-111 | the triple loop computes the matrix product |
| GeometryMat.Mat.Apply | cpps/common/geometry/mat.h:113-123 | the double loop computes the matrix-vector product |
| GeometryMat.Mat.GetColumn | cpps/common/geometry/mat.h:125-135 | column j exactly when 0 <= j < m, else out_of_range |
| GeometryMat.Mat.GetColumnVector | cpps/common/geometry/mat.h:137-147 | column j as a fresh vector exactly when 0 <= j < m, else out_of_range |
| GeometryMat.Mat.SetColumn | cpps/common/geometry/mat.h:149-153 | column j becomes v, and every other column is unchanged (see `LinAlg.WithColumnThenColumn`) |
| GeometryMat.Mat.GetRow | cpps/common/geometry/mat.h:155-161 | row i exactly when 0 <= i < n, else out_of_range; entry j of the row is entry i of column j |
| GeometryMat.Mat.SetRow | cpps/common/geometry/mat.h:167-175 | row i becomes v exactly when 0 <= i < n, else out_of_range with nothing changed |
| GeometryMat.FromList | cpps/common/geometry/mat.h:37-55 | the nested initializer list is accepted exactly when it has n rows of m values each, else invalid_argument "Invalid initializer list size" |
| GeometryMat.IdentityApply | cpps/common/geometry/mat.h:113-123 | applying the identity to a vector returns it |
| GeometryMat.MatSubThenAdd | cpps/common/geometry/mat.h:78-96 | subtracting b and adding it back returns the matrix, row by row |
| GeometryUtils.GetNdc | cpps/TinyRenderer/include/geometry/utils.h:32-38 | fails with "GetNDC: Division by zero" exactly when w is 0; otherwise each of x, y, z equals the result times w |
| GeometryUtils.NdcOfPoint | cpps/TinyRenderer/include/geometry/utils.h:32-38 | the divide undoes extending a point with w = 1 |
| GeometryUtils.NdcScaleInvariant | cpps/TinyRenderer/include/geometry/utils.h:32-38 | scaling a homogeneous vector by a non-zero factor gives the same point |
| GeometryUtils.Reflect | cpps/TinyRenderer/include/geometry/utils.h:40-43 | component k of the reflection is 2(i·n)n_k − i_k |
| GeometryUtils.ReflectPreservesLength | cpps/TinyRenderer/include/geometry/utils.h:40-43 | reflecting about a unit normal keeps the length of the incident vector |
| GeometryUtils.IsParallel | cpps/TinyRenderer/include/geometry/utils.h:45-47 | with an exact sqrt, the test holds exactly when the cross product has squared length 0, that is, when the two vectors are parallel |
| GeometryUtils.IsParallelIffZeroCross | cpps/TinyRenderer/include/geometry/utils.h:45-47 | with an exact sqrt, the test holds exactly when the cross product has squared length 0, and it holds whenever the cross product is zero |
| GeometryUtils.ViewMatrix | cpps/TinyRenderer/include/geometry/utils.h:58-76 | a 4×4 matrix, or the "Division by zero" of a normalization |
| GeometryUtils.ViewMatrixFails | cpps/TinyRenderer/include/geometry/utils.h:61-63 | with an exact sqrt the view matrix fails exactly when eye − center has length 0 or up ^ (eye − center) has length 0, that is when eye is center or up is parallel to the view direction; the third normalization never fails, because z and x are orthogonal unit vectors |
| GeometryUtils.ViewMatrixOrigin | cpps/TinyRenderer/include/geometry/utils.h:58-76 | the view matrix sends the point eye − center to the origin |
| GeometryUtils.Perspective | cpps/TinyRenderer/include/geometry/utils.h:78-87 | fails with "Distance cannot be zero" exactly when d is 0, else a 4×4 matrix |
| GeometryUtils.PerspectiveApply | cpps/TinyRenderer/include/geometry/utils.h:78-87 | the projection takes (x, y, z, 1) to (x, y, z/d, 1 − z/d) |
| GeometryUtils.Orthographic | cpps/TinyRenderer/include/geometry/utils.h:89-111 | fails exactly when a parameter is 0, testing width, then height, then distance, each with its own message |
| GeometryUtils.OrthographicApply | cpps/TinyRenderer/include/geometry/utils.h:89-111 | the projection takes (x, y, z, 1) to (2x/w, 2y/h, 2z/d + 1, 1) |
| GeometryUtils.ViewportApply | cpps/TinyRenderer/include/geometry/utils.h:113-124 | the viewport maps NDC u to x + w(u + 1)/2, likewise for y, and z to d(z + 1)/2 |
| GeometryUtils.ViewportCorners | cpps/TinyRenderer/include/geometry/utils.h:113-124 | the NDC corners −1 and +1 land on the viewport's edges, with depth 0 and d |
| GeometryUtils.Inverse | cpps/TinyRenderer/include/geometry/utils.h:126-148 | fails with "Determinant is zero" exactly when the determinant is 0, else a 3×3 matrix |
| GeometryUtils.InverseIsRightInverse | cpps/TinyRenderer/include/geometry/utils.h:126-148 | a matrix times its inverse is the identity |
| GeometryUtils.InverseEntry | cpps/TinyRenderer/include/geometry/utils.h:137-145 | row i of the matrix against column j of the inverse gives 1 on the diagonal and 0 off it |
| GeometryUtils.AdjugateProduct | cpps/TinyRenderer/include/geometry/utils.h:127-145 | row i against column j of the adjugate numerators gives the determinant on the diagonal and 0 off it |
| GeometryUtils.Smoothstep | cpps/TinyRenderer/include/geometry/utils.h:150-155 | the result lies in [0, 1] |
| GeometryUtils.SmoothstepEdges | cpps/TinyRenderer/include/geometry/utils.h:150-155 | for edge0 < edge1 it is 0 at or below edge0 and 1 at or above edge1 |
| OurGl.Wrap | cpps/TinyRenderer/include/our_gl.h:92-100 | the wrapped texture coordinate lies in [0, 1) |
| OurGl.WrapIsFraction | cpps/TinyRenderer/include/our_gl.h:92-100 | fmod plus one for a negative remainder is the fractional part s − ⌊s⌋ |
| OurGl.WrapPeriodic | cpps/TinyRenderer/include/our_gl.h:92-100 | shifting a coordinate by a whole period does not move the wrapped value |
| OurGl.TexelIndexIsFloor | cpps/TinyRenderer/include/our_gl.h:105-106 | for a size of at least 1, the texel index is ⌊wrapped · size⌋ and lies in [0, size), so the `std::min` never fires |
| OurGl.TexelIndexInRange | cpps/TinyRenderer/include/our_gl.h:102-106 | the index is inside the axis exactly when the axis is non-empty; an empty axis gives −1 |
| OurGl.FindNearestTextureColor | cpps/TinyRenderer/include/our_gl.h:89-109 | the sampler succeeds exactly on a texture with at least one texel, and otherwise fails with the out_of_range of `at()` |
| OurGl.SampleTexel | cpps/TinyRenderer/include/our_gl.h:89-109 | on a non-empty texture the sampler returns the texel at the two floor indices, which are always inside |
| OurGl.SamplePeriodic | cpps/TinyRenderer/include/our_gl.h:92-100 | sampling is periodic with period 1 in both coordinates |
| OurGl.SampleAt | cpps/TinyRenderer/include/our_gl.h:102-108 | the sampler is `at()` of the two texel indices |
| OurGl.GetBarycentric | cpps/TinyRenderer/src/our_gl.cpp:51-70 | the cross product's z is 0 exactly when the triangle is degenerate, and then the result is the sentinel (−1, 1, 1) |
| OurGl.DegenerateCoversNothing | cpps/TinyRenderer/src/our_gl.cpp:63-65 | the sentinel of a degenerate triangle fails the inside test, so nothing is drawn |
| OurGl.BarycentricReconstructs | cpps/TinyRenderer/src/our_gl.cpp:51-70 | for a proper triangle the weights sum to 1 and reproduce the target from the three vertices |
| OurGl.BarycentricOfVertices | cpps/TinyRenderer/src/our_gl.cpp:51-70 | each vertex of a proper triangle gets its unit weight |
| OurGl.IsPointInTriangle | cpps/TinyRenderer/src/our_gl.cpp:72-94 | the integer inside test is false for collinear edges |
| OurGl.InsideTestsAgree | cpps/TinyRenderer/src/our_gl.cpp:72-94 | on integer points the integer inside test holds exactly when every barycentric weight of the float test is non-negative |
| OurGl.GetPhongColor | cpps/TinyRenderer/src/our_gl.cpp:96-112 | fails with "Division by zero" exactly when the light direction or the view vector has length 0 |
| OurGl.PhongColorBounds | cpps/TinyRenderer/src/our_gl.cpp:96-112 | the Phong colour keeps the texture's alpha and is never darker than its diffuse term; with no specular weight it is exactly the diffuse term |
| OurGl.ConvertColorToVec | cpps/TinyRenderer/src/our_gl.cpp:176-180 | each channel maps to channel/255 − 0.5, which lies in [−0.5, 0.5]; 0 gives −0.5 and 255 gives 0.5 |
| Shaders.VertexTransform | cpps/TinyRenderer/src/shader.cpp:37 | the model-to-clip transform is a 4×4 matrix: `u_shadow_vpm_mat` for DepthShader (line 120), `u_vpm_mat` for the others (line 132) |
| Shaders.ScreenPosition | cpps/TinyRenderer/src/shader.cpp:33-43 | the returned gl_Position is GetNDC(viewport · transform · (p, 1)): it fails exactly when that w is 0, and otherwise each coordinate times w gives the clip coordinate back |
| Shaders.VaryingsAfter | cpps/TinyRenderer/src/shader.cpp:39-41 | the main shader's ShadeVertex(v, k) stores the position, texture coordinates and normal in column k, leaves the other columns alone, and changes nothing for the other two shaders |
| Shaders.ShadingNormal | cpps/TinyRenderer/src/shader.cpp:49-83 | the normal the main shader lights with, from the Darboux frame and the normal map, is a 3-vector whenever it is defined and, with an exact sqrt, a unit vector, as the final `Normalize()` makes it |
| Shaders.LightScreen | cpps/TinyRenderer/src/shader.cpp:94-98 | the fragment seen from the light, Viewport(0, 0, 1, 1, 255) · `u_light_vpm_mat` · (position, 1), is a 4-vector |
| Shaders.ShadowDepth | cpps/TinyRenderer/src/shader.cpp:100-103 | the shadow-map lookup succeeds exactly when the light-space w is non-zero and the shadow map is non-empty |
| Shaders.Fragment | cpps/TinyRenderer/include/shader.h:48-51 | DepthShader's fragment is opaque white and ZShader's (lines 62-66) transparent black whatever the inputs; the main shader's is `MainFragment` |
| Shaders.ShadowRule | cpps/TinyRenderer/src/shader.cpp:105-110 | a main fragment is the Phong colour, or a tenth of it exactly when light-space z + 12.75 is below the stored shadow depth; it keeps the Phong alpha and is never brighter |
| Shaders.ZeroShadowMapShadowsNothing | cpps/TinyRenderer/src/shader.cpp:105-108 | a shadow map of zeros shadows no fragment whose light-space z is at least −12.75 |
| Shaders.LookupsStayInRange | cpps/TinyRenderer/src/shader.cpp:75-103 | once the texture, normal map and shadow map are non-empty, no error of the main fragment is out_of_range |
| Shaders.InterpolatesVertices | cpps/TinyRenderer/src/shader.cpp:39-49 | after ShadeVertex for vertices 0, 1 and 2, the position the fragment interpolates is the barycentric combination of the three model positions |
| Shaders.Shader.constructor | cpps/TinyRenderer/include/shader.h:37-40 | a new shader has zero varying matrices |
| Shaders.Shader.ShadeVertex | cpps/TinyRenderer/src/shader.cpp:30-44 | returns `ScreenPosition` and leaves the varyings `VaryingsAfter` says; they change even when the final division throws |
| Rasterizer.BoundingBox | cpps/TinyRenderer/src/our_gl.cpp:121-134 | the box of the vertices, widened by one pixel on each side, truncated and clamped, lies inside the buffer with its corners in order |
| Rasterizer.PixelBarycentric | cpps/TinyRenderer/src/our_gl.cpp:138-143 | the weights of pixel (x, y) against the x, y of the three screen positions form a 3-vector |
| Rasterizer.FragCoord | cpps/TinyRenderer/src/our_gl.cpp:153-164 | gl_FragCoord has x and y clamped below at 0 and carries the interpolated depth z |
| Rasterizer.Quantize | cpps/TinyRenderer/src/our_gl.cpp:169 | the byte stored for a depth z in (0, 1] is ⌊255·z⌋ |
| Rasterizer.QuantizeNeverDecreases | cpps/TinyRenderer/src/our_gl.cpp:149-169 | a depth that passes the test (stored/255 < z <= 1) is stored as a byte no smaller than the old one |
| Rasterizer.PixelWriteRule | cpps/TinyRenderer/src/our_gl.cpp:138-171 | the loop body shades (and may throw) exactly when the pixel is covered and passes the depth test, and a written depth is never below the stored one |
| Rasterizer.Sweep | cpps/TinyRenderer/src/our_gl.cpp:136-173 | the two loops from pixel (x, y) on keep both buffer sizes when they complete |
| Rasterizer.SweepKeepsOthers | cpps/TinyRenderer/src/our_gl.cpp:136-173 | the loops leave every pixel outside the box, and every pixel already passed, as it was |
| Rasterizer.SweepWritesEachPixelOnce | cpps/TinyRenderer/src/our_gl.cpp:136-173 | each pixel of the box not yet reached ends up holding what the loop body makes of the depth stored there before: the loops visit it exactly once |
| Rasterizer.SweepWithoutErrors | cpps/TinyRenderer/src/our_gl.cpp:136-173 | a loop body that never throws gives loops that never throw |
| Rasterizer.SweepWithoutWrites | cpps/TinyRenderer/src/our_gl.cpp:136-173 | a loop body that never writes leaves both buffers unchanged |
| Rasterizer.TriangleSpec | cpps/TinyRenderer/src/our_gl.cpp:114-174 | DrawTriangle as a value keeps both buffer sizes |
| Rasterizer.ConvexBetween | cpps/TinyRenderer/src/our_gl.cpp:149-158 | an interpolated value lies between the smallest and the largest vertex value |
| Rasterizer.CoveredPixelsInBox | cpps/TinyRenderer/src/our_gl.cpp:121-137 | the one-pixel margin is enough: a covered pixel lies in the box, unless it is in the last column or last row, which `x != max_x` never reaches |
| Rasterizer.InclusiveBox | cpps/TinyRenderer/src/our_gl.cpp:130-137 | the box the clamp's comment intends, with loops that include max_x and max_y: it lies inside the buffer and reaches its last column and row |
| Rasterizer.CoveredPixelsInInclusiveBox | cpps/TinyRenderer/src/our_gl.cpp:121-137 | with the inclusive loops every covered pixel of the buffer lies in the box, the last column and row included |
| Rasterizer.LastColumnSkipped | cpps/TinyRenderer/src/our_gl.cpp:130-137 | in a 2 × 2 buffer the vertex (1, 0) of the triangle (0, 0), (1, 0), (0, 1) is covered, but the box as written, clamped to max_x = 1 and looped with `x != max_x`, leaves it out; the inclusive box contains it |
| Rasterizer.TrianglePixel | cpps/TinyRenderer/src/our_gl.cpp:114-174 | after DrawTriangle, every pixel outside the last column and row holds what the loop body makes of its old depth, and the last column and row are untouched |
| Rasterizer.TriangleDepthsNeverDecrease | cpps/TinyRenderer/src/our_gl.cpp:149-169 | no stored depth decreases when DrawTriangle completes |
| Rasterizer.ConstantShadersNeverFail | cpps/TinyRenderer/include/shader.h:48-66 | the shadow pass and the depth pass never throw, since their fragment stage is constant |
| Rasterizer.DepthPassPaintsWhite | cpps/TinyRenderer/include/shader.h:48-51 | the shadow pass leaves every pixel as it was or opaque white |
| Rasterizer.DegenerateTriangleDrawsNothing | cpps/TinyRenderer/src/our_gl.cpp:63-65 | a triangle whose screen positions are collinear leaves both buffers unchanged |
| Rasterizer.FaceSpec | cpps/TinyRenderer/src/our_gl.cpp:40-47 | one face (vertex stage, then DrawTriangle) keeps the buffer sizes and well-formed varyings |
| Rasterizer.FaceTriangle | cpps/TinyRenderer/src/our_gl.cpp:42-45 | the triangle of a face exists exactly when all three vertex shaders return a position |
| Rasterizer.FaceVaryings | cpps/TinyRenderer/src/our_gl.cpp:42-45 | the vertex stage of the shadow and depth passes leaves the varyings unchanged |
| Rasterizer.FacesAppend | cpps/TinyRenderer/src/our_gl.cpp:39-48 | drawing faces a ++ b is drawing a, then b from where a left off, stopping at the first error |
| Rasterizer.ModelKeepsColorCount | cpps/TinyRenderer/src/our_gl.cpp:36-49 | DrawModel keeps the size of the colour buffer |
| Rasterizer.ModelDepthsNeverDecrease | cpps/TinyRenderer/src/our_gl.cpp:36-49 | no stored depth decreases when a whole model is drawn |
| Rasterizer.FaceDepthsNeverDecrease | cpps/TinyRenderer/src/our_gl.cpp:40-47 | no stored depth decreases when one face is drawn |
| Rasterizer.ConstantShadersKeepVaryings | cpps/TinyRenderer/src/shader.cpp:113-135 | the shadow and depth passes keep the shader's varyings over a whole model |
| Rasterizer.OurGL.constructor | cpps/TinyRenderer/include/our_gl.h:65 | `OurGL()` has a 0×0 output, zero matrices and vectors, empty images and no shadow map |
| Rasterizer.OurGL.DrawModel | cpps/TinyRenderer/src/our_gl.cpp:36-49 | passes exactly when `ModelSpec` of the old state succeeds, and then leaves the varyings and both buffers it gives; on failure the error is the spec's |
| Rasterizer.OurGL.DrawFace | cpps/TinyRenderer/src/our_gl.cpp:40-47 | one loop iteration ends in the state `FaceSpec` gives, or fails with its error, and the uniforms are unchanged |
| Rasterizer.OurGL.DrawTriangle | cpps/TinyRenderer/src/our_gl.cpp:114-174 | ends with the buffers `TriangleSpec` gives, or with its error, and no stored depth decreases |
| Rasterizer.ShadePixel | cpps/TinyRenderer/src/our_gl.cpp:138-170 | the loop body at one pixel is the pixel rule, and never lowers the stored depth |
| Rasterizer.DrawColumn | cpps/TinyRenderer/src/our_gl.cpp:137-172 | the inner loop over column x takes the sweep from (x, minY) to (x + 1, minY), or fails with its error |
| Rasterizer.ShadeFace | cpps/TinyRenderer/src/our_gl.cpp:43-45 | ShadeVertex for vertices 0, 1 and 2 in order gives `FaceTriangle` and leaves the varyings `FaceVaryings` gives |
| Render.NeighbourTerm | cpps/TinyRenderer/src/render.cpp:124-139 | a neighbour adds π/2 less its exposed angle, which is at least 0, so never more than π/2; the centre and pixels off the buffer add nothing |
| Render.AoPixel | cpps/TinyRenderer/src/render.cpp:118-147 | the byte written at (x, y) is 0 wherever the depth pass left depth 0 |
| Render.AoImage | cpps/TinyRenderer/src/render.cpp:109-151 | the ambient-occlusion image has one byte per pixel |
| Render.AoImageAt | cpps/TinyRenderer/src/render.cpp:116-148 | the image at (x, y) is that pixel's ambient-occlusion byte |
| Render.NeighbourCountBounds | cpps/TinyRenderer/src/render.cpp:124-130 | at most 8 neighbours are read: all 8 away from the border and at most 5 on it |
| Render.OcclusionBound | cpps/TinyRenderer/src/render.cpp:124-142 | the total is at most π/2 per neighbour read, while the divisor is always 8·π/2, so a border pixel's normalised total is at most 5/8 |
| Render.NeighbourTotal | cpps/TinyRenderer/src/render.cpp:122-140 | the dx, dy loops compute the neighbourhood total `Occlusion` |
| Render.ColumnTotal | cpps/TinyRenderer/src/render.cpp:127-139 | the dy loop adds column dx of the neighbourhood to the running total |
| Render.AoStep | cpps/TinyRenderer/src/render.cpp:117-147 | writing pixel (x, y) its byte advances the loop's frontier by one row |
| Render.AoFinish | cpps/TinyRenderer/src/render.cpp:116-149 | once every column is done, the buffer is the ambient-occlusion image |
| Render.AoColumn | cpps/TinyRenderer/src/render.cpp:117-148 | the y loop finishes column x |
| Render.DepthPass | cpps/TinyRenderer/src/render.cpp:111-114 | a depth-only pass never lowers a stored depth |
| Render.AoColumns | cpps/TinyRenderer/src/render.cpp:116-149 | the x loop over a blank image produces the ambient-occlusion image |
| Render.DrawDepthPass | cpps/TinyRenderer/src/render.cpp:95-97 | DrawModel with a constant-fragment shader into a throw-away colour image leaves the depths `DepthPass` gives, or its error |
| Render.GenerateSsaoImage | cpps/TinyRenderer/src/render.cpp:106-151 | the z-buffer holds the depth pass, and the returned image is the ambient-occlusion image of those depths; it fails exactly when the pass does |
| Render.UpFor | cpps/TinyRenderer/src/render.cpp:54-62 | the up vector is world up exactly when the view direction is not parallel to it, and +z otherwise |
| Render.RenderUniforms | cpps/TinyRenderer/src/render.cpp:64-93 | the set-up yields the texture and normal map given, the same light matrix for the shadow pass and the light-space test, or "Division by zero" |
| Render.SetUpGl | cpps/TinyRenderer/src/render.cpp:79-93 | a fresh OurGL holds the uniforms and points at the shadow map |
| Render.RenderModel | cpps/TinyRenderer/src/render.cpp:37-103 | the result is `RenderSpec`: set-up, shadow pass, SSAO, then the main pass, stopping at the first error |
| Render.DrawPasses | cpps/TinyRenderer/src/render.cpp:95-102 | the three passes over fresh buffers give `PassesSpec` |
| Render.RenderOutputsFit | cpps/TinyRenderer/src/render.cpp:43-45 | the four returned images are all width × height |
| Render.PassesFit | cpps/TinyRenderer/src/render.cpp:95-102 | the passes keep the four images at width × height |
| Render.AoOnlyWhereDrawn | cpps/TinyRenderer/src/render.cpp:99-120 | the ambient-occlusion image is 0 wherever the returned z-buffer is 0, since the main pass never lowers a depth |
| Render.SceneAtCentreFails | cpps/TinyRenderer/src/render.cpp:64-71 | a light or a camera at the centre of the scene makes RenderModel throw "Division by zero" |
| Render.SetUpAtCentreFails | cpps/TinyRenderer/src/render.cpp:64-74 | the set-up fails for a light or a camera at the centre |
| Render.UpForNeverParallel | cpps/TinyRenderer/src/render.cpp:54-62 | the chosen up vector is never parallel to a non-zero view direction |
| Raytracer.DefaultSphere | cpps/TinyRaytracer/include/shape.h:51-53 | the default sphere keeps the material and has radius 1 at the origin |
| Raytracer.NewSphere | cpps/TinyRaytracer/include/shape.h:54-66 | construction fails exactly when the radius is negative, and otherwise keeps material, radius and centre |
| Raytracer.NewSphereValid | cpps/TinyRaytracer/include/shape.h:51-66 | every sphere either constructor returns has a three-component centre and a non-negative radius |
| Raytracer.GetNormal | cpps/TinyRaytracer/include/shape.h:72-74 | the normal is a 3-vector, and the only failure is the normalisation's division by zero |
| Raytracer.NormalFailsOnlyAtCentre | cpps/TinyRaytracer/include/shape.h:72-74 | the normal fails exactly at the centre of the sphere |
| Raytracer.IsIntersecting | cpps/TinyRaytracer/src/shape.cpp:29-71 | the hit test throws exactly when the direction's length is more than epsilon away from 1 |
| Raytracer.UnitDirectionAccepted | cpps/TinyRaytracer/src/shape.cpp:32-35 | an exact unit direction always passes the length check |
| Raytracer.CaseResults | cpps/TinyRaytracer/src/shape.cpp:37-70 | for a unit direction the test's answer is the case analysis on squared distances, so the square roots change no decision |
| Raytracer.CaseAnswerDecides | cpps/TinyRaytracer/src/shape.cpp:37-70 | unless the origin lies exactly on the sphere, the case analysis answers yes exactly when some point of the segment lies in the ball |
| Raytracer.IsIntersectingDecidesSegment | cpps/TinyRaytracer/src/shape.cpp:29-71 | for a unit direction, a non-negative length and an origin not on the sphere, the hit test reports exactly whether the segment meets the ball |
| Raytracer.InsideDecides | cpps/TinyRaytracer/src/shape.cpp:37-41 | an origin inside the sphere is a hit, and the segment does meet the ball |
| Raytracer.AwayDecides | cpps/TinyRaytracer/src/shape.cpp:43-47 | an outside origin whose direction points away from the centre is a miss, and the segment does miss |
| Raytracer.MissWhenAway | cpps/TinyRaytracer/src/shape.cpp:43-47 | a ray from outside pointing away from the centre never reaches the ball |
| Raytracer.FarDecides | cpps/TinyRaytracer/src/shape.cpp:49-58 | when the closest approach lies outside the sphere the test reports a miss, and the line does miss |
| Raytracer.MissWhenFar | cpps/TinyRaytracer/src/shape.cpp:49-58 | a line whose closest approach is outside the sphere misses it at every parameter |
| Raytracer.EndPointDecides | cpps/TinyRaytracer/src/shape.cpp:60-67 | a segment that ends before the closest approach is a hit exactly when it meets the ball |
| Raytracer.MissBeforeNearest | cpps/TinyRaytracer/src/shape.cpp:60-67 | a segment ending before the closest approach with its end point outside the sphere misses the ball |
| Raytracer.NearestDecides | cpps/TinyRaytracer/src/shape.cpp:69-70 | a segment that reaches a closest approach inside the sphere is a hit, and does meet the ball |
| Raytracer.SurfaceOriginPointingAway | cpps/TinyRaytracer/src/shape.cpp:37-47 | an origin exactly on the sphere pointing away from it is reported as a miss, although the segment touches the sphere at its origin |
| Raytracer.AroundNearest | cpps/TinyRaytracer/src/shape.cpp:49-58 | the squared distance along a unit ray is the squared distance at the closest approach plus the square of the distance from it |
| LegacyGeometry.Rescaled | TinyRenderer/include/geometry.h:92-95 | normalize(l) keeps the dimension of the vector |
| LegacyGeometry.RescaledLength | TinyRenderer/include/geometry.h:91-95 | with an exact square root the rescaled vector has squared length l², so normalize() gives a unit vector |
| LegacyGeometry.Vec4.constructor | TinyRenderer/include/geometry.h:108 | the default Vec4 is the zero vector |
| LegacyGeometry.Vec4.Of | TinyRenderer/include/geometry.h:109 | the four-argument constructor stores its arguments in order |
| LegacyGeometry.Vec4.AddAssign | TinyRenderer/include/geometry.h:111-117 | += leaves the component-wise sum of the old values, also when the argument is the vector itself |
| LegacyGeometry.Vec4.SubAssign | TinyRenderer/include/geometry.h:121-127 | -= leaves the component-wise difference of the old values |
| LegacyGeometry.Vec4.MulAssign | TinyRenderer/include/geometry.h:134-140 | *= with a vector leaves the component-wise product, unlike the dot product that * returns |
| LegacyGeometry.Vec4.ToNdc | TinyRenderer/include/geometry.h:144-149 | ToNDC throws "Division by zero" exactly when w is 0, and otherwise returns the 3-vector that w scales back to x, y, z |
| LegacyGeometry.Vec4.Normalize | TinyRenderer/include/geometry.h:150-154 | normalize(l) replaces the vector by its rescaling to length l |
| LegacyGeometry.Mat4x4.Contents | TinyRenderer/include/geometry.h:160-162 | the row-major array read as a 4×4 matrix, entry by entry |
| LegacyGeometry.Mat4x4.constructor | TinyRenderer/include/geometry.h:162-163 | the default matrix is all zeros |
| LegacyGeometry.Mat4x4.FromRows | TinyRenderer/include/geometry.h:164-182 | the sixteen-argument constructor stores the entries row by row |
| LegacyGeometry.Mat4x4.MulAssign | TinyRenderer/include/geometry.h:226-236 | *= with a matrix leaves the product of the old matrix and the old argument, also when the argument is the matrix itself |
| LegacyGeometry.Mat4x4.ProductOf | TinyRenderer/include/geometry.h:227-233 | the double loop fills a fresh array with the matrix product, entry by entry |
| LegacyGeometry.Mat4x4.Times | TinyRenderer/include/geometry.h:237-241 | * with a matrix returns a fresh matrix holding the product and leaves both operands alone |
| LegacyGeometry.Mat4x4.Apply | TinyRenderer/include/geometry.h:242-249 | * with a vector returns the matrix-vector product |
| LegacyGeometry.RowTimesColumn | TinyRenderer/include/geometry.h:230-231 | the written-out four-term sum is entry (i, j) of the matrix product |
| LegacyGeometry.ProjectionApply | TinyRenderer/include/geometry.h:184-197 | the perspective matrix keeps x, y and z of a point and sets w to 1 − z/d |
| LegacyGeometry.Perspective | TinyRenderer/include/geometry.h:184-197 | Perspective(d) throws "Division by zero" exactly when d is 0, and otherwise is the identity except that m[3][2]·d = −1 |
| LegacyGeometry.IntViewportCorners | TinyRenderer/include/geometry.h:199-211 | the viewport maps the NDC corner (−1, −1, −1) to (x, y, 0) and (1, 1, 1) to (x + width, y + height, depth) |
| GeometryNew.Vec.constructor | TinyRenderer/include/geometry_new/vec.h:38 | the default vector of size n is all zeros |
| GeometryNew.Vec.MulAssign | TinyRenderer/include/geometry_new/vec.h:72-77 | *= with a vector leaves the component-wise product of the old values, also when the argument is the vector itself |
| GeometryNew.Vec.DivAssign | TinyRenderer/include/geometry_new/vec.h:78-87 | /= with a vector throws exactly when some divisor component is 0, and leaves the components before the first zero divided and the rest untouched |
| GeometryNew.Vec.Times | TinyRenderer/include/geometry_new/vec.h:116-120 | * with a vector returns a fresh vector holding the component-wise product |
| GeometryNew.FirstZero | TinyRenderer/include/geometry_new/vec.h:79-82 | the index at which the division loop stops: every earlier divisor is non-zero and the one there is zero |
| GeometryNew.DivisionWithoutZeroIsComplete | TinyRenderer/include/geometry_new/vec.h:78-87 | with no zero divisor /= divides every component, and multiplying back by the divisor restores the old vector |
| GeometryNew.ZeroDivisorStopsTheUpdate | TinyRenderer/include/geometry_new/vec.h:78-87 | a zero divisor leaves its own component and every later one unchanged |
| GeometryNew.GetNdcAsWritten | TinyRenderer/include/geometry_new/vec.h:187-193 | the template GetNDC throws only "Division by zero", and when it divides, w scales each result component back to the input |
| GeometryNew.GuardMissesZeroW | TinyRenderer/include/geometry_new/vec.h:187-193 | for (1, 1, 1, 0) the template's guard passes and the division is by a zero w, where the overload in utils.h throws |
| GeometryNew.GuardRejectsPlaneZ | TinyRenderer/include/geometry_new/vec.h:187-193 | for (1, 1, 0, 1) the template throws, where the overload in utils.h returns (1, 1, 0) |
| GeometryNew.GetNdc | TinyRenderer/include/geometry_new/utils.h:32-38 | GetNDC throws exactly when w is 0, and otherwise returns the point that w scales back to x, y, z |
| GeometryNew.GetNdcAgreesWhereBothPass | TinyRenderer/include/geometry_new/vec.h:187-193 | wherever both guards pass, the template and the overload return the same point |
| GeometryNew.NdcOfPoint | TinyRenderer/include/geometry_new/utils.h:32-38 | dividing a point's homogeneous extension gives back the point |
| GeometryNew.ReflectAsWritten | TinyRenderer/include/geometry_new/utils.h:40-43 | because * between two vectors is component-wise, each component of the result is 2·n_k·(i_k·n_k) − i_k |
| GeometryNew.ReflectAsWrittenShrinks | TinyRenderer/include/geometry_new/utils.h:40-43 | for the unit normal (0.6, 0.8, 0) and the incident (1, 0, 0) the written Reflect gives (−0.28, 0, 0), while the reflection gives (−0.28, 0.96, 0), and the two lengths differ |
| GeometryNew.ViewMatrix | TinyRenderer/include/geometry_new/utils.h:54-69 | ViewMatrix is a 4×4 matrix, and its only failure is a normalisation's division by zero |
| GeometryNew.AxesTimesTranslation | TinyRenderer/include/geometry_new/utils.h:60-68 | Minv·Tr has the axes x, y, z in its first three rows, each followed by minus its dot product with the centre |
| GeometryNew.ViewMatrixCentresView | TinyRenderer/include/geometry_new/utils.h:54-69 | the view matrix sends the centre of the view to the origin |
| GeometryNew.Perspective | TinyRenderer/include/geometry_new/utils.h:71-79 | Perspective throws "Distance cannot be zero" exactly when the distance is 0, and otherwise builds the same matrix as the legacy Mat4x4::Perspective |
| LegacyDrawing.Canvas.constructor | TinyRenderer/src/line.cpp:6 | a fresh image of the given size has had nothing drawn on it |
| LegacyDrawing.Canvas.Set | TinyRenderer/src/line.cpp:18 | each set call is recorded after the earlier ones |
| LegacyDrawing.PlotsAppend | TinyRenderer/src/line.cpp:13-19 | plotting two runs of points is plotting the first, then the second |
| LegacyDrawing.LargerDiff | TinyRenderer/src/line.cpp:8-11 | larger_diff is at least each of the two axis distances, and equal to one of them |
| LegacyDrawing.LinePoints | TinyRenderer/src/line.cpp:13-19 | the loop plots larger_diff + 1 points |
| LegacyDrawing.DrawLine | TinyRenderer/src/line.cpp:6-20 | draw_line appends one set call per step, in order and all in the given colour, and nothing else; drawing.cpp:79-93 and our_gl.cpp:112-126 are the same loop |
| LegacyDrawing.LineEnds | TinyRenderer/src/line.cpp:13-19 | the first plotted point is (x0, y0) and the last is (x1, y1) |
| LegacyDrawing.SinglePointLine | TinyRenderer/src/line.cpp:15 | with equal endpoints the t = 0 branch plots the single point (x0, y0) |
| LegacyDrawing.LineInBox | TinyRenderer/src/line.cpp:15-17 | every plotted point lies in the bounding box of the two endpoints |
| LegacyDrawing.LineConnected | TinyRenderer/src/line.cpp:11-17 | consecutive plotted points differ by at most one pixel on each axis, so the line has no gaps |
| LegacyDrawing.LerpStep | TinyRenderer/src/line.cpp:15-17 | from one step to the next a truncated coordinate moves by at most 1 |
| LegacyDrawing.TruncNear | TinyRenderer/src/line.cpp:16-17 | values at most 1 apart convert to ints at most 1 apart under truncation toward zero |
| LegacyDrawing.NdcToPixel | TinyRenderer/src/render.cpp:39-42 | the conversion sends NDC −1 to pixel 0 and +1 to the image size, and every NDC value in between to a pixel in 0 .. size |
| LegacyDrawing.RenderWireframe | TinyRenderer/src/render.cpp:29-46 | RenderWireframe appends, face by face, the three lines of each face in the given colour, and nothing else |
| LegacyDrawing.WireframeStep | TinyRenderer/src/render.cpp:34-45 | each pass of the outer loop appends exactly the three edges of the next face |
| LegacyDrawing.DrawFace | TinyRenderer/src/render.cpp:36-44 | the inner loop appends edges 0, 1 and 2 of face i in order |
| LegacyDrawing.DrawEdge | TinyRenderer/src/render.cpp:37-43 | one pass of the inner loop appends the line from corner j to corner (j + 1) mod 3 |
| LegacyDrawing.FaceOutlineClosed | TinyRenderer/src/render.cpp:36-44 | each edge starts at its own corner and ends where the next edge starts, so a face's outline is closed |
| LegacyDrawing.FaceEdgesHaveCorners | TinyRenderer/src/render.cpp:36-44 | the first k edges of a face plot its corners 0 .. k − 1 |
| LegacyDrawing.WireframeHasCorners | TinyRenderer/src/render.cpp:34-45 | every corner of every face drawn so far is plotted |
| LegacyDrawing.WireframeOnlyEdges | TinyRenderer/src/render.cpp:34-45 | every plotted point lies on one of the three edges of one of the faces drawn |
| LegacyDrawing.WireframeOnlyFaces | TinyRenderer/src/render.cpp:34-45 | every plotted point belongs to the outline of one of the faces drawn |
| LegacyRaster.IntBox | TinyRenderer/src/our_gl.cpp:130-133 | min_x .. max_x and min_y .. max_y are bounds of the three vertices, each reached by one of them |
| LegacyRaster.ColumnMembership | TinyRenderer/src/our_gl.cpp:139-143 | once the inner loop reaches row y, column x has plotted exactly its rows from min_y below y that the inside test accepts |
| LegacyRaster.ScanMembership | TinyRenderer/src/our_gl.cpp:138-144 | once the outer loop reaches column x, exactly the accepted points of the columns before x have been plotted |
| LegacyRaster.IntTriangleCoverage | TinyRenderer/src/our_gl.cpp:128-145 | the integer DrawTriangle plots exactly the points of [min_x, max_x) × [min_y, max_y) whose barycentric weights are all non-negative; column max_x and row max_y are never plotted; drawing.cpp:95-112 is the same code |
| LegacyRaster.CollinearDrawsNothing | TinyRenderer/src/our_gl.cpp:70-82 | three collinear vertices plot nothing |
| LegacyRaster.InsideNeedsArea | TinyRenderer/src/our_gl.cpp:78-82 | a point the inside test accepts needs edges from p0 that are not parallel |
| LegacyRaster.DrawIntTriangle | TinyRenderer/src/our_gl.cpp:128-145 | the integer DrawTriangle appends to the image's set calls exactly the accepted points of its box, column by column, in the given colour |
| LegacyRaster.DrawIntColumn | TinyRenderer/src/our_gl.cpp:139-143 | one pass of the outer loop appends the accepted points of column x, row by row |
| LegacyRaster.ScanStep | TinyRenderer/src/our_gl.cpp:138-144 | one more column extends what the outer loop has plotted by that column's points |
| LegacyRaster.Sweep | TinyRenderer/src/our_gl.cpp:162-179 | the loops of a depth-tested overload keep the buffer's shape when no body throws |
| LegacyRaster.SweepKeepsOthers | TinyRenderer/src/our_gl.cpp:162-179 | the loops leave alone every depth entry outside the box and every entry they have already passed |
| LegacyRaster.SweepWritesEachPixelOnce | TinyRenderer/src/our_gl.cpp:162-179 | each entry of the box still to be reached ends up as the loop body makes of the depth stored there before, so each pixel is visited once |
| LegacyRaster.SweepPlotsFollowRule | TinyRenderer/src/our_gl.cpp:162-179 | the loops only append set calls, each at a box pixel not yet passed, in the colour the body gives for the depth stored there before |
| LegacyRaster.SweepWithoutErrors | TinyRenderer/src/our_gl.cpp:162-179 | when the loop body never throws, neither do the loops |
| LegacyRaster.DepthBuffer.constructor | TinyRenderer/src/our_gl.cpp:149 | the z-buffer holds the rows it is given |
| LegacyRaster.DepthBuffer.Set | TinyRenderer/src/our_gl.cpp:175 | z_buffer[y][x] = z changes that one entry and keeps the shape of the buffer |
| LegacyRaster.DrawBox | TinyRenderer/src/our_gl.cpp:162-179 | the two loops leave the image and the buffer as the sweep specifies, or throw the sweep's first exception |
| LegacyRaster.DrawBoxColumn | TinyRenderer/src/our_gl.cpp:163-178 | one pass of the outer loop advances the sweep by one column, or throws its exception |
| LegacyRaster.BufferBox | TinyRenderer/src/our_gl.cpp:151-160 | the box widened by one pixel and clamped to the buffer lies inside the buffer, with its low corner at or below its high one |
| LegacyRaster.InterpolateAt | TinyRenderer/src/our_gl.cpp:215-216 | each component of the interpolated vector is the weighted sum of the three vertices' components |
| LegacyRaster.IntensityIsFraction | TinyRenderer/src/our_gl.cpp:218-220 | the light intensity lies in [0, 1] |
| LegacyRaster.HeadOnLightIsFull | TinyRenderer/src/our_gl.cpp:218-220 | a light shining straight against the normal gives intensity 1 |
| LegacyRaster.SampleChecked | TinyRenderer/src/our_gl.cpp:97-110 | the sampler throws out_of_range "st should be in range [0, 1]" exactly when a coordinate lies outside [0, 1] |
| LegacyRaster.CheckedIndexInRange | TinyRenderer/src/our_gl.cpp:106-107 | for coordinates in [0, 1] the texel index lies in 0 .. size − 1 |
| LegacyRaster.CheckedIndexAgrees | TinyRenderer/src/our_gl.cpp:106-107 | coordinate 1 reads the last texel, and below 1 the index is the one the wrapping sampler computes |
| LegacyRaster.SampleCheckedAgrees | TinyRenderer/src/our_gl.cpp:97-110 | wherever the checked sampler does not throw it reads the same texel as the later wrapping sampler |
| LegacyRaster.Shade | TinyRenderer/src/our_gl.cpp:212-274 | only the textured overload's shading can throw |
| LegacyRaster.FloatSpec | TinyRenderer/src/our_gl.cpp:147-278 | a float overload that does not throw keeps the shape of the buffer |
| LegacyRaster.FloatPixelRule | TinyRenderer/src/our_gl.cpp:164-177 | a pixel is written, or its shading throws, exactly when its weights are non-negative and the stored depth lies below the interpolated z, and a write stores that z |
| LegacyRaster.FloatTriangleDepths | TinyRenderer/src/our_gl.cpp:147-180 | after a float overload no entry of the z-buffer has decreased, and a changed entry lies in the clamped box, at a covered pixel, and holds the interpolated z |
| LegacyRaster.FloatTrianglePlots | TinyRenderer/src/our_gl.cpp:147-180 | the image is set only at covered pixels of the clamped box, and the flat overload always sets its own colour |
| LegacyRaster.UntexturedNeverThrows | TinyRenderer/src/our_gl.cpp:147-227 | the flat and the lit overloads never throw |
| LegacyRaster.TexturedInUnitSquareNeverThrows | TinyRenderer/src/our_gl.cpp:229-278 | texture coordinates in [0, 1] at every vertex keep the textured overload from throwing |
| LegacyRaster.WeightsAreConvex | TinyRenderer/src/our_gl.cpp:46-68 | non-negative weights of a pixel sum to 1 |
| LegacyRaster.DrawFlatTriangle | TinyRenderer/src/our_gl.cpp:147-180 | the flat overload never throws and leaves the image and the buffer as its specification says |
| LegacyRaster.DrawLitTriangle | TinyRenderer/src/our_gl.cpp:182-227 | the lit overload never throws and leaves the image and the buffer as its specification says |
| LegacyRaster.DrawTexturedTriangle | TinyRenderer/src/our_gl.cpp:229-278 | the textured overload throws exactly when its specification does, with the same error, and otherwise leaves the image and the buffer as specified |
| LegacyRaster.EdgeBarycentricIsGetBarycentric | TinyRenderer/src/our_gl.cpp:46-68 | with the weights in vertex order, the edge form of the barycentric function is our_gl.cpp's GetBarycentric of the target |
| LegacyRaster.EdgeBarycentricSwapped | TinyRenderer/src/drawing.cpp:33-50 | the drawing.cpp function returns the second and third weights exchanged, which the coverage test cannot see |
| LegacyRaster.DrawingPixelIsFlatPixel | TinyRenderer/src/drawing.cpp:132-147 | with the weights in vertex order, the drawing.cpp loop body is that of the flat our_gl.cpp overload |
| LegacyRaster.SwappedWeightsHideNearerPixel | TinyRenderer/src/drawing.cpp:132-147 | at the second vertex of a triangle with depth 1 there and 0 elsewhere, the swapped weights interpolate 0, so a stored 0.5 hides a pixel that lies in front of it |
| LegacyRaster.ShaderSpec | TinyRenderer/src/our_gl.cpp:280-336 | the shader overload never throws and keeps the shape of the byte z-buffer |
| LegacyRaster.ShaderPixelRule | TinyRenderer/src/our_gl.cpp:303-333 | a pixel is written exactly when its weights are non-negative and its stored byte lies below the interpolated z; it then takes the fragment shader's colour for the interpolated vertex and z cast to a byte |
| LegacyRaster.DepthByteAtLeast | TinyRenderer/src/our_gl.cpp:329-331 | below 256 the stored byte is z truncated, which is never below a byte that was below z |
| LegacyRaster.DepthAbove255Wraps | TinyRenderer/src/our_gl.cpp:329-331 | a depth of 300 is stored as the byte 44 |
| LegacyRaster.ShadedTriangleDepths | TinyRenderer/src/our_gl.cpp:280-336 | while every vertex depth is below 256, no byte of the z-buffer decreases, and a changed byte lies at a covered pixel of the clamped box and holds its z truncated |
| LegacyRaster.ShaderWriteGrows | TinyRenderer/src/our_gl.cpp:311-331 | with every vertex depth below 256, a write stores z truncated, which is not below the old byte |
| LegacyRaster.ShadedTrianglePlots | TinyRenderer/src/our_gl.cpp:280-336 | the image is set only at covered pixels of the clamped box, each to the fragment shader's colour for the vertex interpolated there |
| LegacyRaster.DrawShadedTriangle | TinyRenderer/src/our_gl.cpp:280-336 | the shader overload leaves the image and the byte z-buffer as its specification says |
| LegacyRaster.ShadeVertex | TinyRenderer/src/our_gl.cpp:33-41 | ShadeVertex throws "Division by zero" exactly when the clip-space w is 0; otherwise w scales the new position back to the clip coordinates, and the normal and the texture coordinates pass through |
| LegacyRaster.ShadeVertexIdentity | TinyRenderer/src/our_gl.cpp:33-41 | with both matrices the identity a vertex comes back unchanged |
| LegacyRaster.FirstShaderVertex | TinyRenderer/src/our_gl.cpp:33-41 | the matrix objects compute exactly ShadeVertex |
| LegacyRaster.ClipPosition | TinyRenderer/src/our_gl.cpp:34-37 | g_viewport_mat * u_vpm_mat * Vec4f(x, y, z, 1) is the product matrix applied to the homogeneous position |
| LegacyRaster.FirstShaderDrawsWhite | TinyRenderer/src/our_gl.cpp:42-44 | with FirstShader every pixel the shader overload sets is white |
| RenderOptionsForm.Coordinates | page/src/modules/tiny-renderer/FormRenderOptions.hook.tsx:42-64 | the memo checks six coordinate fields |
| RenderOptionsForm.ErrorMessage | page/src/modules/tiny-renderer/FormRenderOptions.hook.tsx:41-75 | every message the memo returns is non-empty, so the handler's truthiness test sees each one as an error |
| RenderOptionsForm.FirstEmpty | page/src/modules/tiny-renderer/FormRenderOptions.hook.tsx:42-64 | the emptiness checks report nothing exactly when every field is non-empty |
| RenderOptionsForm.EmptyChecksFirst | page/src/modules/tiny-renderer/FormRenderOptions.hook.tsx:41-72 | an empty field is reported before either origin check |
| RenderOptionsForm.FirstEmptyAt | page/src/modules/tiny-renderer/FormRenderOptions.hook.tsx:42-64 | past the non-empty fields before it, the first empty field decides the emptiness message |
| RenderOptionsForm.FirstEmptyFieldReported | page/src/modules/tiny-renderer/FormRenderOptions.hook.tsx:42-64 | the first empty field in check order is the one named in "… cannot be empty", whatever the later fields hold |
| RenderOptionsForm.AcceptedIff | page/src/modules/tiny-renderer/FormRenderOptions.hook.tsx:41-75 | the form is accepted exactly when no field is empty and neither the camera nor the light is the literal "0", "0", "0" |
| RenderOptionsForm.ZeroSpellingsAccepted | page/src/modules/tiny-renderer/FormRenderOptions.hook.tsx:66-72 | the origin checks compare strings, so a camera at "0.0", "0", "0" and a light at "-0", "0", "0" pass |
| RenderOptionsForm.DefaultsAccepted | page/src/modules/tiny-renderer/FormRenderOptions.hook.tsx:31-39 | the form's initial values are accepted |
| RenderOptionsForm.FormState.constructor | page/src/modules/tiny-renderer/FormRenderOptions.hook.tsx:29 | the form starts clean, with no submission made |
| RenderOptionsForm.FormState.HandleSubmit | page/src/modules/tiny-renderer/FormRenderOptions.hook.tsx:77-94 | a submit always prevents the default action, leaves the form dirty exactly when there is an error, and calls onSubmit exactly when there is no error and a callback was given |
| RenderOptionsForm.SubmitEvent.constructor | page/src/modules/tiny-renderer/FormRenderOptions.hook.tsx:79-80 | a fresh event has not had its default prevented |

## Left out

- Floating point: `float` and `double` are exact reals, so rounding, NaN, infinities and −0 are not modelled. The one float effect the code depends on is kept: `Wrap`'s `x + 1` rounding up to 1 is why the texel index is clamped with `min`, and the model keeps that `min`.
- Library calls: `std::sqrt`, `std::pow` and `std::atan2` are parameters (`MathLib`). Only exactness of the square root and non-negativity of `pow` are assumed, so no property that needs a particular value of `pow` or `atan2` is stated.
- Third-party and driver code is not part of this model: OBJ loading (`model.cpp`), stb_image, lodepng's compression, the command-line drivers and the rest of the web page. `ReadPng`, `WritePngRgba` and `WritePngGray` stop at the byte buffers handed to lodepng.
- Printing: the `operator<<` overloads are left out, since they only write text.
- `TGAImage` of the older tree is not part of this model. Its images are a record of `set` calls (`LegacyDrawing.Canvas`), and its byte z-buffer is a grid of bytes.
- `TGAColor`'s grayscale constructor and `operator*` are modelled only as far as the rasterizer uses them: the z-buffer byte is z truncated modulo 256 (`LegacyRaster.DepthByte`), and a colour times an intensity is a parameter `scale` of the lit and textured overloads.
- 32-bit `int`: the pixel count `width * height` (`cpps/common/file.cpp:125-137`, `image.h:83`) and the index `y * width_ + x` of `set` and `at` are `int` products in C++, which overflow from 2^31 on. The model uses unbounded integers, so it does not describe images of 2^31 pixels or more. CommonFile.TgaRoundTrip therefore requires fewer than 2^31 pixels. The integer inside tests multiply `int` coordinate differences in the same way: OurGl.IsPointInTriangle (`cpps/TinyRenderer/src/our_gl.cpp:72-77`), LegacyRaster.Inside (`TinyRenderer/src/our_gl.cpp:70-78`, `TinyRenderer/src/drawing.cpp:52-60`) and LegacyRaster.IntTriangleCoverage overflow once the differences exceed about 46340. The model computes those cross products exactly, so it describes them only for coordinates below that bound.
- State after an exception: a method that throws midway leaves the writes it made before the throw. The model returns the error and states the final state only on success, except `GeometryNew.Vec.DivAssign`, whose partial update is stated.
- `geometry_new/mat.h` `operator+=` compares `j < mat` with a matrix and cannot be instantiated, so `operator+` is left out with it. `cpps/common/geometry/mat.h:70-77` has the same `j < mat` loop, so `GeometryMat` leaves its `operator+=` and `operator+` out too. `geometry_new/vec.h` `GetNormalized` returns a reference to a local, which is undefined behaviour, so it is left out. `TinyRenderer/include/geometry/vec.h:156-159` has the same `GetNormalized`, and the shader calls it (`cpps/TinyRenderer/src/shader.cpp:68,73`). There `GeometryVec.Normalized` and `Shaders.ShadingNormal` model the value that was evidently meant, the normalised copy, and not the dangling reference. As written, `geometry_new` does not compile for most uses: `vec.h:139,148` give the non-template members `operator^=` and `operator^` the return type `enable_if<n == 3, …>::type`, so instantiating `Vec<n, t>` for any n other than 3 is an error; `utils.h:32` declares `GetNDC(const Vec<4, float>&)`, which needs exactly such an instantiation, and no file outside `geometry_new` includes these headers. `GeometryNew.Vec` models the class for every n, as the text evidently intends. The other operations of `geometry_new` are the same code as `geometry/vec.h`, `geometry/mat.h` and `utils.h`, which `GeometryVec`, `GeometryMat` and `GeometryUtils` model, so they are not repeated.
- The Phong specular term of the shader is modelled only to the bounds stated (`OurGl.PhongColorBounds`), since its value goes through `pow`.
- SSAO: the angle arithmetic of `render.cpp` (atan2, the `pow(…, 100)` darkening) is a parameter, so only the bounds and the "drawn pixels only" property are proved.
- Ray tracer: only `Sphere` and `GetIsIntersecting` are modelled. `GetIntersectionDistance`, the materials and the ray-tracing driver are not part of this model.
- Raytracer.IsIntersectingDecidesSegment: excludes an origin exactly on the sphere, where the code answers "miss" for a ray pointing away (`Raytracer.SurfaceOriginPointingAway`).
- GeometryUtils.Smoothstep: requires edge0 ≠ edge1, because the float division by zero it would otherwise do is not modelled.
- OurGl.GetPhongColor: requires non-negative diffuse and specular factors, the only ones the shaders pass.
- Images.Scale: requires a non-negative factor, because a negative one would wrap when the result is cast to a byte.
- Rasterizer.BoundingBox: requires a buffer at least 1 × 1, because `std::clamp(v, 0, size − 1)` is undefined when size − 1 < 0. Rasterizer.OurGL.DrawTriangle has the same requirement for the same reason.
- Images.Image.Set: requires an index inside the data, because the C++ code does not check it and an index outside is undefined behaviour.
- Images.Image.WithData: requires `|data| == width * height`, which the constructor `Image(w, h, data)` (`cpps/common/image.h:84-85`) does not check. Its callers, the TGA and PNG readers, always pass that many pixels.
- Legacy `Vec2` (`TinyRenderer/include/geometry.h`) has no dot product, and its `operator^` (`geometry.h:55-57`) calls a one-argument constructor that `Vec2` does not have, so it is left out. `Mat4x4::operator*=(t scalar)` (`geometry.h:212-219`) is declared `const` but writes `m`, so it does not compile and is left out too.
- GeometryVec.NormalizedIsUnit: holds over exact reals only, since a float normalisation is unit length only up to rounding.
- Shaders.ShadingNormal: the unit length is stated over exact reals only, for the same reason; the Darboux frame itself is not otherwise characterised.
- GeometryUtils.IsParallelIffZeroCross: states the equivalence with a zero squared length of the cross product. It gives only one direction for the cross product being the zero vector.
- Added errors. Two errors have no C++ counterpart. `CommonFile.OverrunError` is how the corrected RLE decoder refuses a packet that runs past the pixel count (see "## Findings"); the code as written overruns instead. `Shaders.NonFiniteShadowCoordinate` stands for the light-space divide by a zero w in `shader.cpp:100-103`. That float division throws nothing: it yields an infinity or NaN, which then reaches the `static_cast<int>` in `FindNearestTextureColor`, which is undefined behaviour. The model reports it as an error instead.
- `throw new`: `Sphere`'s constructors and `GetIsIntersecting` throw with `throw new std::out_of_range(…)` (`shape.h:57,64`, `shape.cpp:33`). What is thrown is an `std::out_of_range*`, which a `catch (std::exception&)` does not catch. `Raytracer` models these as plain `OutOfRange` errors and does not model which handlers can catch them.
- The shadow test: a zeroed shadow map is sometimes said to shadow every fragment. The code's test `z + 12.75 < stored` never fires on a zero map, and the model follows the code (`Shaders.ZeroShadowMapShadowsNothing`).

## Findings

| source | as written | input that shows it | evidently intended | confidence | as-written member | corrected member |
|---|---|---|---|---|---|---|
| cpps/common/file.cpp:144-158 | a run or literal packet is copied in full even when it runs past the pixel count, so `data[current_pixel++]` writes past the end of the width × height vector | a 1 × 1 type-10 file whose only packet is the run header 0x81 followed by one pixel writes two pixels into a vector of one | check each packet against the pixels left and refuse a file whose packets overrun | not executed | CommonFile.DecodeRleAsWritten; CommonFile.FindingRleOverrun | CommonFile.DecodeRle; CommonFile.RleStaysInBounds |
| TinyRenderer/include/geometry_new/vec.h:187-193 | the template GetNDC tests component 2 (z) for zero but divides by component 3 (w); a defect in the text only, since `geometry_new` does not compile as written (see Left out) | (1, 1, 1, 0) passes the guard and divides by zero; (1, 1, 0, 1) throws although w is 1 | test w, as the overload in utils.h does | not executed | GeometryNew.GetNdcAsWritten; GeometryNew.GuardMissesZeroW | GeometryNew.GetNdc; GeometryNew.NdcOfPoint |
| TinyRenderer/include/geometry_new/utils.h:40-43 | with geometry_new vectors `incident * normal` is the component-wise product, not the dot product, so Reflect does not reflect; a defect in the text only, since `geometry_new` does not compile as written and `utils.h:32` needs `Vec<4, float>` (see Left out) | incident (1, 0, 0) with unit normal (0.6, 0.8, 0) gives (−0.28, 0, 0) instead of (−0.28, 0.96, 0) | the reflection about the normal, which keeps the length | not executed | GeometryNew.ReflectAsWritten; GeometryNew.ReflectAsWrittenShrinks | GeometryUtils.Reflect; GeometryUtils.ReflectPreservesLength |
| TinyRenderer/src/drawing.cpp:47-49 | GetBarycentric returns the weights of the second and third vertex swapped, so the depth DrawTriangle interpolates is wrong | triangle (0, 0, 0), (1, 0, 1), (0, 1, 0) at pixel (1, 0) with a stored depth 0.5: the swapped weights give z = 0 and the pixel is not drawn, though its depth is 1 | the weights in vertex order, as our_gl.cpp:65-67 returns them | not executed | LegacyRaster.EdgeBarycentricAsWritten; LegacyRaster.SwappedWeightsHideNearerPixel | LegacyRaster.EdgeBarycentric; LegacyRaster.EdgeBarycentricIsGetBarycentric; LegacyRaster.DrawingPixelIsFlatPixel |
| cpps/TinyRenderer/src/our_gl.cpp:130-137 | max_x and max_y are clamped to width − 1 and height − 1, and the loops stop at `x != max_x` and `y != max_y`, so the last column and the last row of the buffer are never drawn, although the comment says the clamp is there for coordinates equal to the width or height; the older our_gl.cpp:156-163 and drawing.cpp:123-133 do the same | a 2 × 2 buffer and the triangle (0, 0), (1, 0), (0, 1): its vertex (1, 0) is covered, but the x loop only visits x = 0 | loops that include max_x and max_y, so that every covered pixel of the buffer can be drawn | not executed | Rasterizer.BoundingBox; Rasterizer.LastColumnSkipped | Rasterizer.InclusiveBox; Rasterizer.CoveredPixelsInInclusiveBox |

The rasterizer methods (`Rasterizer.OurGL.DrawTriangle` and the legacy `DrawBox` overloads) keep the loops as written: what they draw, pixel by pixel, is stated by `Rasterizer.TrianglePixel` and `LegacyRaster.IntTriangleCoverage`, last column and row included. The inclusive box is stated beside them and is not substituted into them.
