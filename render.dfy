// What one frame draws: the quad's corner colours, its index list and the
// texture bound to it, chosen from the handler's state.

module Render {

  newtype u8 = x: int | 0 <= x < 0x100
  newtype u16 = x: int | 0 <= x < 0x1_0000

  /** Rust's `n as u16` on an unsigned size: keeps the low 16 bits. */
  function ToU16(n: nat): u16 {
    (n % 0x1_0000) as u16
  }

  /** A vertex colour; each channel is in hundredths, so 100 stands for 1.0. */
  datatype Rgba = Rgba(r: nat, g: nat, b: nat, a: nat)

  const White := Rgba(100, 100, 100, 100)
  const Magenta := Rgba(100, 0, 100, 100)
  const Yellow := Rgba(100, 100, 0, 100)
  const DarkBlue := Rgba(0, 0, 80, 100)
  /** The colour of the clear pass that precedes the quad's pass. */
  const Green := Rgba(0, 100, 0, 100)

  datatype Palette = AllWhite | Alternate

  /** The colours of the quad's corners, in vertex order: top-left,
      top-right, bottom-left, bottom-right. */
  function CornerColours(p: Palette): (c: seq<Rgba>)
    ensures |c| == 4
    ensures forall k :: 0 <= k < |c| ==> c[k].a == 100
    ensures p == AllWhite <==> forall k :: 0 <= k < |c| ==> c[k] == White
    ensures p == Alternate ==> c == [Magenta, Yellow, DarkBlue, Yellow]
    ensures p == Alternate ==> c[1] == c[3] && c[0] != c[1] && c[0] != c[2] && c[1] != c[2]
  {
    match p
    case AllWhite => [White, White, White, White]
    case Alternate =>
      var c := [Magenta, Yellow, DarkBlue, Yellow];
      assert c[0] != White;
      c
  }

  /** The index list that splits the quad into two triangles. */
  function QuadIndices(): (ix: seq<u16>)
    ensures |ix| == 6
    ensures forall k :: 0 <= k < |ix| ==> ix[k] < 4
    ensures forall v: u16 :: v < 4 ==> v in ix
    ensures ix[0] != ix[1] && ix[1] != ix[2] && ix[0] != ix[2]
    ensures ix[3] != ix[4] && ix[4] != ix[5] && ix[3] != ix[5]
    ensures multiset(ix[..3]) * multiset(ix[3..]) == multiset{1 as u16, 2}
  {
    [0, 1, 2, 1, 2, 3]
  }

  /** The rasterizer's output: the glyph's metrics and one coverage byte
      per pixel. */
  datatype Glyph = Glyph(width: nat, height: nat, coverage: seq<u8>)

  /** The decoder's output for the bundled image: its size and RGBA bytes. */
  datatype Image = Image(width: nat, height: nat, pixels: seq<u8>)

  /** Turns a coverage map into RGBA bytes: opaque white, with the coverage
      as alpha. */
  function ExpandCoverage(coverage: seq<u8>): (rgba: seq<u8>)
    ensures |rgba| == 4 * |coverage|
    ensures forall i :: 0 <= i < |coverage| ==>
      rgba[4 * i] == 255 && rgba[4 * i + 1] == 255 && rgba[4 * i + 2] == 255 && rgba[4 * i + 3] == coverage[i]
  {
    if coverage == [] then []
    else
      var rest := ExpandCoverage(coverage[1..]);
      assert forall i :: 1 <= i < |coverage| ==> coverage[1..][i - 1] == coverage[i];
      [255, 255, 255, coverage[0]] + rest
  }

  /** The texture bound for a frame: the image loaded at startup, the 1x1
      opaque white fallback, or a texture made for this frame from a glyph. */
  datatype Texture =
    | KingTexture
    /** The 1x1 texture whose one pixel is opaque white (255, 255, 255, 255). */
    | WhiteTexture
    | GlyphTexture(width: u16, height: u16, rgba: seq<u8>)

  /** The action a render pass begins with: a clear to a colour, or the
      backend's default action. */
  datatype PassAction = ClearTo(colour: Rgba) | DefaultAction

  /** One frame: the actions of its render passes in order, and the quad
      drawn in the last pass with its four vertex colours, index list and
      texture. */
  datatype Frame = Frame(passes: seq<PassAction>, colours: seq<Rgba>, indices: seq<u16>, texture: Texture)

  /** The frame drawn when the last character is `lastChar`, the image flag
      is `showKing` and the rasterizer gives `glyph` for `lastChar`. */
  function RenderFrame(lastChar: char, showKing: bool, glyph: Glyph): (f: Frame)
    ensures f.passes == [ClearTo(Green), DefaultAction]
    ensures f.indices == QuadIndices()
    ensures |f.indices| == 6 && forall k :: 0 <= k < |f.indices| ==> f.indices[k] < 4
    ensures |f.colours| == 4
    ensures (forall k :: 0 <= k < 4 ==> f.colours[k] == White) <==> !(lastChar == ' ' && !showKing)
    ensures f.colours == [Magenta, Yellow, DarkBlue, Yellow] <==> lastChar == ' ' && !showKing
    ensures f.texture == KingTexture <==> lastChar == ' ' && showKing
    ensures f.texture == WhiteTexture <==> lastChar == ' ' && !showKing
    ensures f.texture.GlyphTexture? <==> lastChar != ' '
    ensures f.texture.GlyphTexture? ==>
      f.texture.width as int == glyph.width % 0x1_0000 &&
      f.texture.height as int == glyph.height % 0x1_0000 &&
      |f.texture.rgba| == 4 * |glyph.coverage| &&
      forall i :: 0 <= i < |glyph.coverage| ==>
        f.texture.rgba[4 * i] == 255 && f.texture.rgba[4 * i + 1] == 255 &&
        f.texture.rgba[4 * i + 2] == 255 && f.texture.rgba[4 * i + 3] == glyph.coverage[i]
  {
    var palette := if lastChar == ' ' && !showKing then Alternate else AllWhite;
    var texture :=
      if lastChar == ' ' then
        if showKing then KingTexture else WhiteTexture
      else
        GlyphTexture(ToU16(glyph.width), ToU16(glyph.height), ExpandCoverage(glyph.coverage));
    Frame([ClearTo(Green), DefaultAction], CornerColours(palette), QuadIndices(), texture)
  }

  /** A glyph of `width * height` coverage bytes, with sizes that fit in 16
      bits, yields a glyph texture whose byte count is exactly what an RGBA
      texture of the sizes it is created with needs. */
  lemma GlyphPixelsFitTexture(c: char, showKing: bool, g: Glyph)
    requires |g.coverage| == g.width * g.height
    requires g.width < 0x1_0000 && g.height < 0x1_0000
    requires c != ' '
    ensures RenderFrame(c, showKing, g).texture.GlyphTexture?
    ensures var t := RenderFrame(c, showKing, g).texture;
      |t.rgba| == 4 * (t.width as int) * (t.height as int)
  {
    var t := RenderFrame(c, showKing, g).texture;
    assert t.width as int == g.width && t.height as int == g.height;
    assert 4 * (g.width * g.height) == 4 * g.width * g.height;
  }
}
