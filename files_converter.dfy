/** The desktop app's image helper: label image bytes with a MIME type by
    their leading signature and wrap them in a base64 `data:` URL. */
module FilesConverter {
  import opened Common
  import Base64

  const Jpeg: string := "image/jpeg"
  const Png: string := "image/png"
  const Gif: string := "image/gif"
  const Webp: string := "image/webp"

  const JpegMagic: seq<byte> := [0xFF, 0xD8, 0xFF]
  /** `\x89PNG\r\n\x1a\n` */
  const PngMagic: seq<byte> := [0x89, 0x50, 0x4E, 0x47, 0x0D, 0x0A, 0x1A, 0x0A]
  /** `GIF87a` and `GIF89a` */
  const Gif87a: seq<byte> := [0x47, 0x49, 0x46, 0x38, 0x37, 0x61]
  const Gif89a: seq<byte> := [0x47, 0x49, 0x46, 0x38, 0x39, 0x61]
  /** `RIFF` and `WEBP` */
  const RiffTag: seq<byte> := [0x52, 0x49, 0x46, 0x46]
  const WebpTag: seq<byte> := [0x57, 0x45, 0x42, 0x50]

  /** A RIFF container holding a WebP image, with at least one byte after
      the form type. */
  function IsWebp(data: seq<byte>): (b: bool)
    ensures b ==> |data| >= 13 && data[0] == 0x52
  {
    assert StartsWith(data, RiffTag) ==> data[0] == data[..4][0];
    StartsWith(data, RiffTag) && |data| > 12 && data[8..12] == WebpTag
  }

  predicate IsGif(data: seq<byte>)
  {
    StartsWith(data, Gif87a) || StartsWith(data, Gif89a)
  }

  /** The four types are told apart by their seventh character, and the
      signatures by their first byte. */
  lemma SignaturesExclusive(data: seq<byte>)
    ensures Jpeg[6] == 'j' && Png[6] == 'p' && Gif[6] == 'g' && Webp[6] == 'w'
    ensures StartsWith(data, JpegMagic) ==> data[0] == 0xFF
    ensures StartsWith(data, PngMagic) ==> data[0] == 0x89
    ensures IsGif(data) ==> data[0] == 0x47
    ensures IsWebp(data) ==> data[0] == 0x52
  {
    if StartsWith(data, JpegMagic) { assert data[..3][0] == data[0]; }
    if StartsWith(data, PngMagic) { assert data[..8][0] == data[0]; }
    if StartsWith(data, Gif87a) || StartsWith(data, Gif89a) { assert data[..6][0] == data[0]; }
    if StartsWith(data, RiffTag) { assert data[..4][0] == data[0]; }
  }

  /** The MIME type chosen by `encode_as_base64`: JPEG, PNG, GIF and WebP
      by signature, tried in that order, and JPEG for anything else. */
  function SniffMime(data: seq<byte>): (m: string)
    ensures m == Jpeg || m == Png || m == Gif || m == Webp
    ensures StartsWith(data, JpegMagic) ==> m == Jpeg
    ensures StartsWith(data, PngMagic) ==> m == Png
    ensures IsGif(data) ==> m == Gif
    ensures m == Webp <==> IsWebp(data)
    ensures m == Jpeg <==> !StartsWith(data, PngMagic) && !IsGif(data) && !IsWebp(data)
  {
    SignaturesExclusive(data);
    if StartsWith(data, JpegMagic) then Jpeg
    else if StartsWith(data, PngMagic) then Png
    else if IsGif(data) then Gif
    else if IsWebp(data) then Webp
    else Jpeg
  }

  /** Empty input is labelled JPEG. */
  lemma EmptyIsJpeg()
    ensures SniffMime([]) == Jpeg
  {
  }

  /** A twelve-byte `RIFF....WEBP` header alone is not taken for WebP. */
  lemma BareWebpHeaderIsJpeg(size: seq<byte>)
    requires |size| == 4
    ensures SniffMime(RiffTag + size + WebpTag) == Jpeg
  {
    var data := RiffTag + size + WebpTag;
    assert |data| == 12;
    assert data[0] == 0x52;
  }

  const DataPrefix: string := "data:"
  const Base64Marker: string := ";base64,"

  /** The prefix of the data URL before the encoded bytes: it starts with
      `data:` and its first comma is its last character, so the encoded
      bytes begin right after the first comma. */
  function DataUrlHeader(data: seq<byte>): (h: string)
    ensures StartsWith(h, DataPrefix)
    ensures h != [] && h[|h| - 1] == ',' && ',' !in h[..|h| - 1]
  {
    var m := SniffMime(data);
    var h := DataPrefix + m + Base64Marker;
    assert h[..|h| - 1] == DataPrefix + m + ";base64";
    assert ',' !in m;
    DataPrefix + SniffMime(data) + Base64Marker
  }

  /** `encode_as_base64`. */
  function EncodeAsBase64(data: seq<byte>): (url: string)
    ensures |url| == |DataUrlHeader(data)| + 4 * ((|data| + 2) / 3)
    ensures url[..|DataUrlHeader(data)|] == DataUrlHeader(data)
  {
    DataUrlHeader(data) + Base64.Encode(data)
  }

  /** What follows the header decodes to the image bytes, and is the only
      canonical encoding of them. */
  lemma DataUrlCarriesBytes(data: seq<byte>)
    ensures Base64.Decode(EncodeAsBase64(data)[|DataUrlHeader(data)|..]) == Some(data)
  {
    var h := DataUrlHeader(data);
    assert EncodeAsBase64(data)[|h|..] == Base64.Encode(data);
    Base64.DecodeEncode(data);
  }
}
