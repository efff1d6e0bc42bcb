/** `get_image_info`, the helper of `test_cover_handling` that all three
    author.today adapters carry: the byte length of an image and its format,
    read from the magic number at its start. */
module ImageInfo {
  import opened Common

  datatype Format = Jpeg | Png | Unknown

  /** The first two bytes of a JPEG file (SOI marker). */
  const JpegMagic: seq<byte> := [0xFF, 0xD8]

  /** The eight-byte PNG signature `\x89PNG\r\n\x1a\n`. */
  const PngMagic: seq<byte> := [0x89, 0x50, 0x4E, 0x47, 0x0D, 0x0A, 0x1A, 0x0A]

  /** `get_image_info(img_data)`: the size and the format name. */
  function Info(data: seq<byte>): (info: (nat, Format))
    ensures info.0 == |data|
  {
    var fmt := if StartsWith(data, JpegMagic) then Jpeg
               else if StartsWith(data, PngMagic) then Png
               else Unknown;
    (|data|, fmt)
  }

  /** The two signatures differ in their first byte, so the order of the tests
      does not matter: each format is reported exactly when its signature is
      the prefix, and Unknown exactly when neither is. */
  lemma FormatIffMagic(data: seq<byte>)
    ensures Info(data).1 == Jpeg <==> StartsWith(data, JpegMagic)
    ensures Info(data).1 == Png <==> StartsWith(data, PngMagic)
    ensures Info(data).1 == Unknown <==> !StartsWith(data, JpegMagic) && !StartsWith(data, PngMagic)
  {
    if StartsWith(data, PngMagic) {
      assert data[0] == PngMagic[0];
      assert !StartsWith(data, JpegMagic);
    }
  }
}
