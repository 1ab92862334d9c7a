// The event handler object: the state it updates in place on key events
// and ticks, and the frame it draws from that state.

module Handler {
  import opened Input
  import opened Render
  import Machine

  class Stage {
    /** The rasterizer for the bundled font at the fixed size of 256. */
    const font: char -> Glyph
    /** The RGBA bytes of the glyph rasterized at startup. */
    const textBitmap: seq<u8>
    /** The RGBA bytes of the image decoded at startup. */
    const kingBitmap: seq<u8>
    /** The image's size as handed to the texture constructor. */
    const kingDim: (u16, u16)

    var lastChar: char
    var showKing: bool
    var keybShown: bool

    /** The handler's state as a value. */
    function Snapshot(): Machine.State
      reads this
    {
      Machine.State(lastChar, showKing, keybShown)
    }

    /** Builds the handler from the rasterizer and the decoded image. The
        glyph for 'b' is rasterized and expanded once, here. */
    constructor (font: char -> Glyph, king: Image)
      ensures Snapshot() == Machine.Initial
      ensures this.font == font
      ensures textBitmap == ExpandCoverage(font('b').coverage)
      ensures kingBitmap == king.pixels
      ensures kingDim.0 as int == king.width % 0x1_0000 && kingDim.1 as int == king.height % 0x1_0000
    {
      this.font := font;
      var glyph := font('b');
      textBitmap := ExpandCoverage(glyph.coverage);
      kingBitmap := king.pixels;
      kingDim := (ToU16(king.width), ToU16(king.height));
      lastChar := 'a';
      showKing := true;
      keybShown := false;
    }

    /** A key going down. */
    method KeyDown(key: KeyCode, mods: KeyMods, repeat: bool)
      modifies this
      ensures Snapshot() == Machine.OnKey(old(Snapshot()), key, mods, repeat)
    {
      if repeat {
        return;
      }
      if key == Space {
        lastChar := ' ';
        showKing := true;
      } else if key == Enter {
        lastChar := ' ';
        showKing := false;
      } else if IsLetter(key) {
        SelectLetter(key, mods.shift);
        if key == G {
          keybShown := false;
        }
      }
    }

    /** The letter dispatch of a key event: sets the last character to the
        letter of `key`, lower-case when `shift` is held. */
    method SelectLetter(key: KeyCode, shift: bool)
      requires IsLetter(key)
      modifies this`lastChar
      ensures lastChar == LetterChar(key, shift)
    {
      match key {
        case A => if shift { lastChar := 'a'; } else { lastChar := 'A'; }
        case B => if shift { lastChar := 'b'; } else { lastChar := 'B'; }
        case C => if shift { lastChar := 'c'; } else { lastChar := 'C'; }
        case D => if shift { lastChar := 'd'; } else { lastChar := 'D'; }
        case E => if shift { lastChar := 'e'; } else { lastChar := 'E'; }
        case F => if shift { lastChar := 'f'; } else { lastChar := 'F'; }
        case G => if shift { lastChar := 'g'; } else { lastChar := 'G'; }
        case H => if shift { lastChar := 'h'; } else { lastChar := 'H'; }
        case I => if shift { lastChar := 'i'; } else { lastChar := 'I'; }
        case J => if shift { lastChar := 'j'; } else { lastChar := 'J'; }
        case K => if shift { lastChar := 'k'; } else { lastChar := 'K'; }
        case L => if shift { lastChar := 'l'; } else { lastChar := 'L'; }
        case M => if shift { lastChar := 'm'; } else { lastChar := 'M'; }
        case N => if shift { lastChar := 'n'; } else { lastChar := 'N'; }
        case O => if shift { lastChar := 'o'; } else { lastChar := 'O'; }
        case P => if shift { lastChar := 'p'; } else { lastChar := 'P'; }
        case Q => if shift { lastChar := 'q'; } else { lastChar := 'Q'; }
        case R => if shift { lastChar := 'r'; } else { lastChar := 'R'; }
        case S => if shift { lastChar := 's'; } else { lastChar := 'S'; }
        case T => if shift { lastChar := 't'; } else { lastChar := 'T'; }
        case U => if shift { lastChar := 'u'; } else { lastChar := 'U'; }
        case V => if shift { lastChar := 'v'; } else { lastChar := 'V'; }
        case W => if shift { lastChar := 'w'; } else { lastChar := 'W'; }
        case X => if shift { lastChar := 'x'; } else { lastChar := 'X'; }
        case Y => if shift { lastChar := 'y'; } else { lastChar := 'Y'; }
        case Z => if shift { lastChar := 'z'; } else { lastChar := 'Z'; }
      }
    }

    /** A frame tick; `requested` says whether it asked the platform to
        show the on-screen keyboard. */
    method Update() returns (requested: bool)
      modifies this
      ensures Machine.TickResult(Snapshot(), requested) == Machine.OnTick(old(Snapshot()))
    {
      requested := false;
      if !keybShown && lastChar == 'g' {
        requested := true;
        keybShown := true;
      }
    }

    /** Draws one frame. The current character is rasterized on every
        frame, whether or not its texture is used. */
    method Draw() returns (f: Frame)
      ensures f == RenderFrame(lastChar, showKing, font(lastChar))
      ensures f.texture.GlyphTexture? <==> lastChar != ' '
    {
      var glyph := font(lastChar);
      f := RenderFrame(lastChar, showKing, glyph);
    }
  }
}
