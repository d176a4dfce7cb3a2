/** The pixel-buffer side of a screen capture. The window system fills a
    buffer of 32-bit BGRA pixels whose rows run bottom-up; the capture
    swaps the blue and red bytes of every pixel in place and reads the
    result as a top-down RGBA image. A one-shot capture path instead reads
    the BGRA bytes in swapped order. Image dimensions and the raw buffer
    are inputs here. */
module Pixels {
  newtype byte = x: int | 0 <= x < 256

  // ---------------------------------------------------------------------
  // Buffer size

  /** Bytes in a bottom-up DIB of `w` by `h` pixels at 32 bits per pixel:
      each row rounded up to whole 32-bit words. At 32 bits per pixel no
      row needs padding, so the buffer holds exactly four bytes per pixel
      and splits into whole pixels. */
  function DibSize(w: nat, h: nat): (size: int)
    ensures size == 4 * w * h
    ensures size % 4 == 0
  {
    assert (w * 32 + 31) / 32 == w;
    assert (w * 4) * h == 4 * w * h;
    assert (4 * (w * h)) % 4 == 0;
    ((w * 32 + 31) / 32) * 4 * h
  }

  // ---------------------------------------------------------------------
  // The channel swap

  /** A buffer the swap loop can run over without indexing past the end:
      the last chunk of four, if shorter, still has a byte 2. */
  predicate Swappable(s: seq<byte>)
  {
    |s| % 4 == 0 || |s| % 4 == 3
  }

  /** The buffer after exchanging bytes 0 and 2 of every chunk of four. */
  function SwapRB(s: seq<byte>): (r: seq<byte>)
    requires Swappable(s)
    ensures |r| == |s| && Swappable(r)
    ensures forall k :: 0 <= k && 4 * k + 2 < |s| ==> r[4 * k] == s[4 * k + 2] && r[4 * k + 2] == s[4 * k]
    ensures forall k :: 0 <= k && 4 * k + 1 < |s| ==> r[4 * k + 1] == s[4 * k + 1]
    ensures forall k :: 0 <= k && 4 * k + 3 < |s| ==> r[4 * k + 3] == s[4 * k + 3]
  {
    seq(|s|, i requires 0 <= i < |s| =>
      if i % 4 == 0 then s[i + 2] else if i % 4 == 2 then s[i - 2] else s[i])
  }

  /** Swapping twice gives back the original buffer. */
  lemma SwapRBInvolution(s: seq<byte>)
    requires Swappable(s)
    ensures SwapRB(SwapRB(s)) == s
  {
  }

  /** The in-place loop over chunks of four. */
  method SwapChannels(a: array<byte>)
    requires Swappable(a[..])
    modifies a
    ensures a[..] == SwapRB(old(a[..]))
  {
    ghost var orig := a[..];
    var chunks := (a.Length + 3) / 4;
    for c := 0 to chunks
      invariant forall i :: 0 <= i < 4 * c && i < a.Length ==> a[i] == SwapRB(orig)[i]
      invariant forall i :: 4 * c <= i < a.Length ==> a[i] == orig[i]
    {
      var z := a[4 * c];
      a[4 * c] := a[4 * c + 2];
      a[4 * c + 2] := z;
    }
  }

  // ---------------------------------------------------------------------
  // Row flip

  /** Euclidean division by a positive divisor recovers quotient and
      remainder. */
  lemma {:induction false} DivModOf(q: nat, w: nat, x: nat)
    requires x < w
    ensures (q * w + x) / w == q && (q * w + x) % w == x
  {
    var n := q * w + x;
    var m := n % w;
    var d := n / w - q;
    assert n == w * (n / w) + m;
    assert w * (n / w) == d * w + q * w;
    assert d * w == x - m;
  }

  /** The source pixel of image pixel (x, y): DIB rows run bottom-up, so
      row y of the image is row h-1-y of the buffer. */
  function FlipIndex(w: nat, h: nat, x: nat, y: nat): (ind: nat)
    requires x < w && y < h
    ensures ind < w * h
    ensures ind / w == h - 1 - y && ind % w == x
  {
    assert (h - 1 - y) * w <= (h - 1) * w;
    assert (h - 1) * w + w == h * w;
    DivModOf(h - 1 - y, w, x);
    (h - 1 - y) * w + x
  }

  /** Every buffer pixel is the source of exactly the image pixel
      (ind % w, h - 1 - ind / w): the flip is a bijection. */
  lemma {:induction false} FlipIndexOnto(w: nat, h: nat, ind: nat)
    requires ind < w * h
    ensures w > 0 && ind / w < h
    ensures FlipIndex(w, h, ind % w, h - 1 - ind / w) == ind
  {
    assert w > 0;
    assert ind / w < h by {
      assert ind == w * (ind / w) + ind % w;
    }
  }

  lemma {:induction false} FlipIndexInjective(w: nat, h: nat, x1: nat, y1: nat, x2: nat, y2: nat)
    requires x1 < w && y1 < h && x2 < w && y2 < h
    ensures FlipIndex(w, h, x1, y1) == FlipIndex(w, h, x2, y2) <==> x1 == x2 && y1 == y2
  {
  }

  // ---------------------------------------------------------------------
  // Reading the image

  datatype Rgba = Rgba(r: byte, g: byte, b: byte, a: byte)

  /** Which byte of a 4-byte pixel goes to each RGBA channel. */
  datatype ChannelOrder = InOrder | BlueRedSwapped

  /** An image as rows of pixels, top row first. */
  type Image = seq<seq<Rgba>>

  function PixelAt(raw: seq<byte>, ind: nat, order: ChannelOrder): (p: Rgba)
    requires 4 * ind + 3 < |raw|
    ensures order == InOrder ==> p == Rgba(raw[4 * ind], raw[4 * ind + 1], raw[4 * ind + 2], raw[4 * ind + 3])
    ensures order == BlueRedSwapped ==> p == Rgba(raw[4 * ind + 2], raw[4 * ind + 1], raw[4 * ind], raw[4 * ind + 3])
  {
    var b0, b1, b2, b3 := raw[4 * ind], raw[4 * ind + 1], raw[4 * ind + 2], raw[4 * ind + 3];
    match order
    case InOrder => Rgba(b0, b1, b2, b3)
    case BlueRedSwapped => Rgba(b2, b1, b0, b3)
  }

  /** Pixel (x, y) of the image read from the buffer. */
  function ImagePixel(raw: seq<byte>, w: nat, h: nat, x: nat, y: nat, order: ChannelOrder): Rgba
    requires |raw| == 4 * w * h && x < w && y < h
  {
    var ind := FlipIndex(w, h, x, y);
    assert 4 * ind + 3 < 4 * (w * h) == |raw|;
    PixelAt(raw, ind, order)
  }

  /** The image built pixel by pixel from a closure over the buffer. */
  function ReadImage(raw: seq<byte>, w: nat, h: nat, order: ChannelOrder): (img: Image)
    requires |raw| == 4 * w * h
    ensures |img| == h && forall y :: 0 <= y < h ==> |img[y]| == w
    ensures forall x, y :: 0 <= x < w && 0 <= y < h ==>
              img[y][x] == PixelAt(raw, FlipIndex(w, h, x, y), order)
  {
    seq(h, y requires 0 <= y < h => seq(w, x requires 0 <= x < w => ImagePixel(raw, w, h, x, y, order)))
  }

  /** Per pixel: reading a swapped buffer in order gives what reading the
      unswapped one in swapped order gives. */
  lemma PixelSwapAgrees(raw: seq<byte>, w: nat, h: nat, x: nat, y: nat)
    requires |raw| == 4 * w * h && Swappable(raw) && x < w && y < h
    ensures ImagePixel(SwapRB(raw), w, h, x, y, InOrder) == ImagePixel(raw, w, h, x, y, BlueRedSwapped)
  {
    var ind := FlipIndex(w, h, x, y);
    assert 4 * ind + 3 < |raw| by {
      assert 4 * ind + 3 < 4 * (w * h);
    }
  }

  /** The two capture paths agree: swapping the buffer and reading it in
      order gives the same image as reading the unswapped buffer with blue
      and red exchanged. */
  lemma CapturePathsAgree(raw: seq<byte>, w: nat, h: nat)
    requires |raw| == 4 * w * h
    ensures Swappable(raw)
    ensures ReadImage(SwapRB(raw), w, h, InOrder) == ReadImage(raw, w, h, BlueRedSwapped)
  {
    assert |raw| % 4 == 0 by {
      assert |raw| == 4 * (w * h);
    }
    var left, right := ReadImage(SwapRB(raw), w, h, InOrder), ReadImage(raw, w, h, BlueRedSwapped);
    forall y | 0 <= y < h
      ensures left[y] == right[y]
    {
      forall x | 0 <= x < w
        ensures left[y][x] == right[y][x]
      {
        PixelSwapAgrees(raw, w, h, x, y);
      }
    }
  }

  /** The stateful capture: swap the buffer in place, then read it as an
      RGBA image. The result is the buffer's pixels with blue and red
      exchanged, rows flipped. */
  method CaptureImage(raw: array<byte>, w: nat, h: nat) returns (img: Image)
    requires raw.Length == DibSize(w, h)
    modifies raw
    ensures raw[..] == SwapRB(old(raw[..]))
    ensures img == ReadImage(old(raw[..]), w, h, BlueRedSwapped)
  {
    SwapChannels(raw);
    img := ReadImage(raw[..], w, h, InOrder);
    CapturePathsAgree(old(raw[..]), w, h);
  }

  /** The one-shot capture: read the unswapped buffer in swapped order. */
  function CaptureOnce(raw: seq<byte>, w: nat, h: nat): (img: Image)
    requires |raw| == DibSize(w, h)
    ensures Swappable(raw) && img == ReadImage(SwapRB(raw), w, h, InOrder)
  {
    CapturePathsAgree(raw, w, h);
    ReadImage(raw, w, h, BlueRedSwapped)
  }
}
