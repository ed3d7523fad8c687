/**
 * The image-format sniffer: a fixed table of byte-signature tests, tried in the order
 * webp, png, jpeg, gif; the first test that accepts the header names the format.
 *
 * Headers are byte strings. Python's slices `h[lo:hi]` and `h[lo:]` never fail on a short
 * header: they are clamped to its length, so a header shorter than a signature simply does
 * not match it.
 */
module ImgHdr {
  import opened Wrappers
  import opened Search

  datatype Format = Webp | Png | Jpeg | Gif

  function Min(a: nat, b: nat): nat
  {
    if a <= b then a else b
  }

  /** Python's `h[lo:hi]`. */
  function Slice(h: seq<bv8>, lo: nat, hi: nat): seq<bv8>
    requires lo <= hi
  {
    h[Min(lo, |h|)..Min(hi, |h|)]
  }

  /** Python's `h[lo:]`. */
  function Suffix(h: seq<bv8>, lo: nat): seq<bv8>
  {
    h[Min(lo, |h|)..]
  }

  const Riff: seq<bv8> := [0x52, 0x49, 0x46, 0x46]                          // b'RIFF'
  const WebpTag: seq<bv8> := [0x57, 0x45, 0x42, 0x50]                       // b'WEBP'
  const PngSignature: seq<bv8> := [0x89, 0x50, 0x4E, 0x47, 0x0D, 0x0A, 0x1A, 0x0A]  // b'\x89PNG\r\n\x1a\n'
  const JfifTag: seq<bv8> := [0x4A, 0x46, 0x49, 0x46, 0x00]                 // b'JFIF\x00'
  const ExifTag: seq<bv8> := [0x45, 0x78, 0x69, 0x66, 0x00]                 // b'Exif\x00'
  const Gif87a: seq<bv8> := [0x47, 0x49, 0x46, 0x38, 0x37, 0x61]            // b'GIF87a'
  const Gif89a: seq<bv8> := [0x47, 0x49, 0x46, 0x38, 0x39, 0x61]            // b'GIF89a'

  /** The signature test of each format, with the jpeg test reading bytes 6 to 10 (five bytes). */
  predicate Accepts(f: Format, h: seq<bv8>)
  {
    match f
    case Webp => Slice(h, 0, 4) == Riff && Suffix(h, 8) == WebpTag
    case Png => Slice(h, 0, 8) == PngSignature
    case Jpeg => Slice(h, 6, 11) == JfifTag || Slice(h, 6, 11) == ExifTag
    case Gif => Slice(h, 0, 6) == Gif87a || Slice(h, 0, 6) == Gif89a
  }

  /** The table as the file writes it: the jpeg test slices `h[6:10]`, four bytes, against five-byte tags. */
  predicate AcceptsAsWritten(f: Format, h: seq<bv8>)
  {
    match f
    case Jpeg => Slice(h, 6, 10) == JfifTag || Slice(h, 6, 10) == ExifTag
    case _ => Accepts(f, h)
  }

  /** The order in which the table's tests are tried. */
  const Order: seq<Format> := [Webp, Png, Jpeg, Gif]

  function Rank(f: Format): nat
  {
    match f
    case Webp => 0
    case Png => 1
    case Jpeg => 2
    case Gif => 3
  }

  /** `what(h=h)`: the first format, in table order, whose test accepts the header. */
  function What(h: seq<bv8>): Option<Format>
  {
    match FirstIndex(Order, f => Accepts(f, h))
    case None => None
    case Some(i) => Some(Order[i])
  }

  /** `what(h=h)` with the table as written. */
  function WhatAsWritten(h: seq<bv8>): Option<Format>
  {
    match FirstIndex(Order, f => AcceptsAsWritten(f, h))
    case None => None
    case Some(i) => Some(Order[i])
  }

  /**
   * `what(file, h)`: with no header given, the header is the first twelve bytes of the file,
   * whose whole content is the parameter `file`.
   */
  function WhatOf(file: seq<bv8>, h: Option<seq<bv8>>): Option<Format>
  {
    match h
    case Some(header) => What(header)
    case None => What(file[..Min(12, |file|)])
  }

  // ---------------------------------------------------------------------------------------
  // The signature tests

  /** Since the suffix from byte 8 must be exactly `WEBP`, the webp test accepts only 12-byte headers. */
  lemma WebpExactly(h: seq<bv8>)
    ensures Accepts(Webp, h) <==> |h| == 12 && h[..4] == Riff && h[8..] == WebpTag
  {
    if Accepts(Webp, h) {
      assert |Suffix(h, 8)| == 4;
    }
  }

  lemma PngExactly(h: seq<bv8>)
    ensures Accepts(Png, h) <==> |h| >= 8 && h[..8] == PngSignature
  {
    if Accepts(Png, h) {
      assert |Slice(h, 0, 8)| == 8;
    }
  }

  lemma JpegExactly(h: seq<bv8>)
    ensures Accepts(Jpeg, h) <==> |h| >= 11 && (h[6..11] == JfifTag || h[6..11] == ExifTag)
  {
    if Accepts(Jpeg, h) {
      assert |Slice(h, 6, 11)| == 5;
    }
  }

  lemma GifExactly(h: seq<bv8>)
    ensures Accepts(Gif, h) <==> |h| >= 6 && (h[..6] == Gif87a || h[..6] == Gif89a)
  {
    if Accepts(Gif, h) {
      assert |Slice(h, 0, 6)| == 6;
    }
  }

  /** For the twelve bytes read from a file, the webp suffix test is the fixed window `h[8:12]`. */
  lemma WebpWindow(h: seq<bv8>)
    requires |h| <= 12
    ensures Accepts(Webp, h) <==> Slice(h, 0, 4) == Riff && Slice(h, 8, 12) == WebpTag
  {
  }

  /** A longer header that starts like a WebP file is not recognised: the suffix is longer than `WEBP`. */
  lemma WebpLongHeader()
    ensures var h: seq<bv8> := Riff + [0x24, 0, 0, 0] + WebpTag + [0x56];
      Slice(h, 8, 12) == WebpTag && What(h) == None
  {
    var h: seq<bv8> := Riff + [0x24, 0, 0, 0] + WebpTag + [0x56];
    assert h[0] == 0x52 && h[6] == 0;
    WebpExactly(h);
    PngExactly(h);
    JpegExactly(h);
    GifExactly(h);
    WhatFirst(h);
  }

  // ---------------------------------------------------------------------------------------
  // First-match selection

  /** `what` returns the first format in table order whose test accepts, and `None` when none does. */
  lemma WhatFirst(h: seq<bv8>)
    ensures forall f :: What(h) == Some(f) <==> Accepts(f, h) && forall g :: Rank(g) < Rank(f) ==> !Accepts(g, h)
    ensures What(h) == None <==> forall f :: !Accepts(f, h)
  {
    var test := f => Accepts(f, h);
    var r := FirstIndex(Order, test);
    forall f ensures Order[Rank(f)] == f {
    }
    forall f ensures What(h) == Some(f) <==> Accepts(f, h) && forall g :: Rank(g) < Rank(f) ==> !Accepts(g, h) {
      if Accepts(f, h) && forall g :: Rank(g) < Rank(f) ==> !Accepts(g, h) {
        assert test(Order[Rank(f)]);
      }
    }
  }

  /** Short inputs never fail: every signature needs at least six bytes, so shorter headers match nothing. */
  lemma ShortHeaderIsUnknown(h: seq<bv8>)
    requires |h| < 6
    ensures What(h) == None
  {
    WebpExactly(h);
    PngExactly(h);
    JpegExactly(h);
    GifExactly(h);
    WhatFirst(h);
  }

  /** The webp, png and gif signatures exclude each other and jpeg; only jpeg and gif can both accept. */
  lemma SignaturesOverlapOnlyForJpegAndGif(h: seq<bv8>)
    ensures Accepts(Webp, h) ==> !Accepts(Png, h) && !Accepts(Jpeg, h) && !Accepts(Gif, h)
    ensures Accepts(Png, h) ==> !Accepts(Jpeg, h) && !Accepts(Gif, h)
  {
    WebpExactly(h);
    PngExactly(h);
    JpegExactly(h);
    GifExactly(h);
    if Accepts(Webp, h) {
      assert h[0] == 0x52;
      assert h[8] == 0x57;
    }
    if Accepts(Png, h) {
      assert h[0] == 0x89;
      if |h| >= 11 {
        assert h[6] == 0x1A;
      }
    }
  }

  /** Order decides: a header that both the gif and the jpeg test accept is reported as jpeg. */
  lemma OrderDecidesOverlap(h: seq<bv8>)
    requires Accepts(Gif, h) && Accepts(Jpeg, h)
    ensures What(h) == Some(Jpeg)
  {
    WhatFirst(h);
    SignaturesOverlapOnlyForJpegAndGif(h);
  }

  /** The overlap happens: a GIF signature followed by a JFIF tag at byte 6 passes both tests. */
  lemma GifJfifOverlap()
    ensures var h := Gif89a + JfifTag;
      Accepts(Gif, h) && Accepts(Jpeg, h) && What(h) == Some(Jpeg)
  {
    var h := Gif89a + JfifTag;
    assert Slice(h, 6, 11) == JfifTag;
    assert Slice(h, 0, 6) == Gif89a;
    OrderDecidesOverlap(h);
  }

  /** A supplied header decides alone; otherwise only the file's first twelve bytes are consulted. */
  lemma HeaderDecides(file1: seq<bv8>, file2: seq<bv8>, h: Option<seq<bv8>>)
    requires h.Some? || file1[..Min(12, |file1|)] == file2[..Min(12, |file2|)]
    ensures WhatOf(file1, h) == WhatOf(file2, h)
  {
  }

  // ---------------------------------------------------------------------------------------
  // The jpeg test as written

  /** A four-byte slice never equals a five-byte tag, so the written jpeg test accepts nothing. */
  lemma JpegAsWrittenAcceptsNothing(h: seq<bv8>)
    ensures !AcceptsAsWritten(Jpeg, h)
    ensures WhatAsWritten(h) != Some(Jpeg)
  {
    assert |Slice(h, 6, 10)| <= 4;
  }

  /** The twelve-byte header of a JFIF file: not recognised as written, jpeg once the slice covers the tag. */
  lemma JfifHeaderMissed()
    ensures var h: seq<bv8> := [0xFF, 0xD8, 0xFF, 0xE0, 0x00, 0x10] + JfifTag + [0x01];
      WhatAsWritten(h) == None && What(h) == Some(Jpeg)
  {
    var h: seq<bv8> := [0xFF, 0xD8, 0xFF, 0xE0, 0x00, 0x10] + JfifTag + [0x01];
    assert Slice(h, 6, 11) == JfifTag;
    WhatFirst(h);
    WebpExactly(h);
    PngExactly(h);
    GifExactly(h);
    JpegAsWrittenAcceptsNothing(h);
    assert !AcceptsAsWritten(Webp, h) && !AcceptsAsWritten(Png, h) && !AcceptsAsWritten(Gif, h);
  }
}
