/** The quantization loop of `App::preview_image` (src/app.rs:118-133): a
    resized greyscale image, 80 pixels wide, becomes rows of glyphs from a
    14-glyph ramp running from sparse to dense. */
module AsciiArt {
  import opened Types

  /** The glyph ramp, sparsest first. */
  const Ramp: string := " `.!|:-=m+*#%@"

  /** The width every preview is resized to. */
  const PreviewWidth: nat := 80

  /** A greyscale image as the resizer produces it: rows of exactly
      `PreviewWidth` samples; its height is the number of rows. */
  type Luma = g: seq<seq<byte>> | forall y :: 0 <= y < |g| ==> |g[y]| == PreviewWidth

  /** Where a sample lands on the ramp: `p * 13 / 255`, rounded down. */
  function RampIndex(p: byte): (idx: nat)
    ensures idx < |Ramp|
  {
    (p as int * (|Ramp| - 1)) / 255
  }

  function Glyph(p: byte): char {
    Ramp[RampIndex(p)]
  }

  /** A brighter sample never lands lower on the ramp. */
  lemma RampMonotone(p: byte, q: byte)
    requires p <= q
    ensures RampIndex(p) <= RampIndex(q)
  {
    var a, b := p as int * 13, q as int * 13;
    assert a <= b;
    DivMonotone(a, b, 255);
  }

  lemma DivMonotone(a: nat, b: nat, d: nat)
    requires a <= b && 0 < d
    ensures a / d <= b / d
  {
    if a / d > b / d {
      assert d * (a / d) + a % d == a;
      assert d * (b / d) + b % d == b;
      assert d * (a / d) >= d * (b / d + 1) by {
        MulMonotone(d, b / d + 1, a / d);
      }
    }
  }

  lemma MulMonotone(d: nat, x: nat, y: nat)
    requires x <= y
    ensures d * x <= d * y
  {
  }

  /** Black is a space and pure white is the densest glyph; the densest glyph
      is used for pure white only, and the space for every sample below 20. */
  lemma RampEnds(p: byte)
    ensures Glyph(0) == ' ' && Glyph(255) == '@'
    ensures Glyph(p) == '@' <==> p == 255
    ensures Glyph(p) == ' ' <==> p < 20
  {
    assert |Ramp| == 14;
    assert forall i :: 0 <= i < 13 ==> Ramp[i] != '@';
    assert forall i :: 0 < i < 14 ==> Ramp[i] != ' ';
    if p < 255 {
      assert p as int * 13 < 255 * 13;
    }
    if p >= 20 {
      assert p as int * 13 >= 255;
    }
  }

  /** The preview of `gray`: one row of glyphs per image row. */
  function ArtOf(gray: Luma): (aa: seq<string>)
    ensures |aa| == |gray|
    ensures forall y :: 0 <= y < |aa| ==> |aa[y]| == PreviewWidth
    ensures forall y :: 0 <= y < |aa| ==> forall x :: 0 <= x < PreviewWidth ==> aa[y][x] in Ramp
  {
    seq(|gray|, y requires 0 <= y < |gray| => seq(PreviewWidth, x requires 0 <= x < PreviewWidth => Glyph(gray[y][x])))
  }

  /** An image of one uniform brightness gives a preview of one glyph. */
  lemma UniformImage(gray: Luma, p: byte)
    requires forall y, x :: 0 <= y < |gray| && 0 <= x < PreviewWidth ==> gray[y][x] == p
    ensures forall y, x :: 0 <= y < |gray| && 0 <= x < PreviewWidth ==> ArtOf(gray)[y][x] == Glyph(p)
  {
  }

  /** The nested loop that fills the preview row by row. */
  method Quantize(gray: Luma) returns (aa: seq<string>)
    ensures aa == ArtOf(gray)
  {
    var newH := |gray|;
    aa := [];
    for y := 0 to newH
      invariant aa == ArtOf(gray)[..y]
    {
      var row: string := [];
      for x := 0 to PreviewWidth
        invariant row == ArtOf(gray)[y][..x]
      {
        var p := gray[y][x];
        var idx := (p as int * (|Ramp| - 1)) / 255;
        row := row + [Ramp[idx]];
      }
      ghost var art := ArtOf(gray);
      assert row == art[y] by { assert art[y][..PreviewWidth] == art[y]; }
      assert art[..y + 1] == art[..y] + [art[y]];
      aa := aa + [row];
    }
    assert ArtOf(gray)[..newH] == ArtOf(gray);
  }
}
