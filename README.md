# fagman: the Stage event handler

fagman is a small miniquad demo. It draws one textured quad and changes the
quad's texture and corner colours in response to the keyboard. All of its
logic lives in the `Stage` event handler in `src/main.rs`. This project
models that handler's input/render state machine:

- **State.** The handler holds three fields: the last character selected
  (`last_char`), whether a space shows the loaded "king" image
  (`show_king`), and whether the on-screen keyboard has been requested
  since the last G press (`keyb_shown`). They start as `'a'`, `true` and
  `false`.
- **Key events** (`key_down_event`). A repeat is ignored. A letter key
  selects its letter, with the case inverted: shift gives lower case, no
  shift gives upper case. G also clears `keyb_shown`. Space selects `' '`
  with the image shown. Enter selects `' '` with the plain quad. Every
  other key does nothing.
- **Ticks** (`update`). A tick requests the on-screen keyboard only when
  `keyb_shown` is false and the last character is `'g'`. It then sets
  `keyb_shown`, so the request fires once.
- **Frames** (`draw`). Each frame picks the corner palette (alternate or
  all-white), the index list `[0,1,2,1,2,3]` and a texture. The texture is
  the loaded image, the 1×1 white fallback, or a new texture built from the
  current character's glyph. Glyph coverage bytes become RGBA pixels
  `[255,255,255,c]`.

Modules:

- `Input` (input.dfy): key codes, modifiers, and the letter-to-character
  mapping as a reference definition.
- `Render` (render.dfy): `u8`/`u16`, the colours, palettes, index list,
  coverage expansion and frame selection.
- `Machine` (machine.dfy): the state as a value, the two transitions, and
  lemmas about whole runs of events.
- `Handler` (handler.dfy): the `Stage` class. Its fields are updated in
  place by `KeyDown` and `Update`, and `Draw` returns the frame. Each
  method is proved against the `Machine` and `Render` functions.
- `Scenarios` (scenarios.dfy): short runs from startup.

The case is inverted (src/main.rs:266), so G without shift selects `'G'`;
only shift+G selects `'g'` and arms the keyboard request
(`Scenarios.PressGThenTickTwice`, `Scenarios.ShiftGThenTickTwice`).

External collaborators are parameters:

- The font rasterizer is a total function `char -> Glyph` (width, height,
  coverage) given to the constructor.
- The decoded image is an `Image` value (width, height, pixels).
- The keyboard request is the `bool` that `Update` returns.

Rust's `as u16` casts of the glyph and image sizes keep the low 16 bits
(`Render.ToU16`). Colours are written in hundredths of a channel, so the
dark blue `0.8` is `80`.

## Model

| member | source | states |
|---|---|---|
| `Input.LetterOrdinal` | src/main.rs:260-287 | every letter key has a place in the alphabet below 26 |
| `Input.LetterChar` | src/main.rs:260-287 | with shift a letter key gives the lower-case letter at its place in the alphabet; without shift it gives the upper-case one |
| `Input.LetterKeyOrdinal` | src/main.rs:260-287 | the letter keys in alphabet order, indexed by a key's place, give back that key |
| `Input.LetterOrdinalInjective` | src/main.rs:260-287 | two letter keys have the same place in the alphabet exactly when they are the same key |
| `Input.LetterCharInjective` | src/main.rs:260-287 | two letter events give the same character exactly when they have the same key and the same shift state |
| `Machine.OnKey` | src/main.rs:255-291 | a repeat changes nothing; a letter sets the last character by the inverted-case rule and keeps `show_king`; `keyb_shown` stays unless the key is G; Space gives `(' ', true)`; Enter gives `(' ', false)`; any other key changes nothing; no key event sets `keyb_shown`, and only G clears it |
| `Machine.OnTick` | src/main.rs:149-154 | a tick requests the keyboard exactly when `keyb_shown` is false and the last character is `'g'`; it never changes the character or `show_king`; afterwards `keyb_shown` is the old value or the request, and the tick is no longer armed |
| `Machine.OnlyShiftMatters` | src/main.rs:255-291 | ctrl, alt and logo have no effect on a key event; only shift does |
| `Machine.SpaceEnterIdempotent` | src/main.rs:288-289 | pressing Space, or Enter, twice gives the same state as pressing it once |
| `Machine.TickOneShot` | src/main.rs:149-154 | a second tick with no key event in between requests nothing and changes nothing |
| `Machine.RunKeepsSelectable` | src/main.rs:255-291 | no run of key events and ticks takes the last character outside the letters and the space |
| `Machine.ReachableCharsSelectable` | src/main.rs:139-143 | from the initial state, the last character is always a letter or the space |
| `Machine.AtMostOneRequestWithoutG` | src/main.rs:149-154 | in a run with no G press the keyboard is requested at most once; if already requested, it is not requested again and `keyb_shown` stays set |
| `Machine.RequestNeedsShiftG` | src/main.rs:150-152 | from a state where the tick is not armed, any keyboard request in a run needs a shift+G press in that run |
| `Machine.FirstRequestAfterShiftG` | src/main.rs:139-152 | from startup, no tick requests the keyboard before a shift+G press |
| `Render.CornerColours` | src/main.rs:157-204 | every palette has four opaque corners; the all-white palette is the only one with all four corners white; the alternate palette is magenta, yellow, dark blue, yellow (top-left, top-right, bottom-left, bottom-right), so yellow repeats and the other corners differ |
| `Render.QuadIndices` | src/main.rs:211 | six indices, each below 4, that use all four corners and form two triangles, each with three distinct corners, sharing exactly the top-right/bottom-left diagonal (corners 1 and 2) |
| `Render.ExpandCoverage` | src/main.rs:219-222 | n coverage bytes become 4n bytes; pixel i is 255, 255, 255 followed by coverage byte i |
| `Render.GlyphPixelsFitTexture` | src/main.rs:218-232 | for a letter whose glyph has width × height coverage bytes and sizes below 2^16, the glyph texture's byte count is exactly 4 × its 16-bit width × its 16-bit height |
| `Render.RenderFrame` | src/main.rs:156-249 | two passes in order, a clear to green and then the backend's default action, with the quad drawn in the second; the index list is exactly `[0,1,2,1,2,3]`; the alternate palette exactly when the character is a space and `show_king` is false, else all white; the king texture exactly for a space with `show_king`; the white texture exactly for a space without it; otherwise a glyph texture with the glyph's sizes truncated to 16 bits and 4n bytes where pixel i is 255, 255, 255 followed by coverage byte i |
| `Handler.Stage.constructor` | src/main.rs:131-144 | the handler starts at `('a', true, false)`; it keeps the rasterizer, the expanded startup glyph for 'b', and the image's pixels and truncated sizes |
| `Handler.Stage.KeyDown` | src/main.rs:255-291 | the fields after a key event are `Machine.OnKey` of the fields before it |
| `Handler.Stage.SelectLetter` | src/main.rs:260-287 | the 26-way letter dispatch sets the last character to `Input.LetterChar` of the key and shift |
| `Handler.Stage.Update` | src/main.rs:149-154 | the fields after a tick, and whether the keyboard was requested, are `Machine.OnTick` of the fields before it |
| `Handler.Stage.Draw` | src/main.rs:156-249 | the frame drawn is `Render.RenderFrame` of the current fields and the rasterizer's glyph for the current character |
| `Scenarios.RunKeyThenTick` | src/main.rs:149-154 | a run of one key press and one tick from startup ends in the tick's state after the key |
| `Scenarios.PressAThenTick` | src/main.rs:260 | startup, A without shift, tick: character 'A', no request, the glyph texture for 'A', white corners, after a pass that clears to green |
| `Scenarios.PressSpaceThenTick` | src/main.rs:288 | startup, Space, tick: the king texture with white corners |
| `Scenarios.PressEnterThenTick` | src/main.rs:289 | startup, Enter, tick: the white texture with magenta, yellow, dark blue and yellow corners |
| `Scenarios.PressGThenTickTwice` | src/main.rs:266-268 | startup, G without shift, two ticks: character 'G' and no keyboard request |
| `Scenarios.ShiftGThenTickTwice` | src/main.rs:149-154 | on the handler object: after shift+G, the first tick requests the keyboard and the second does not |

## Left out

- GPU work is not modelled, because it happens inside the rendering backend. This covers the rendering backend, the vertex/index buffers, texture upload, the shader and pipeline, the passes themselves, `draw` and `commit_frame` (src/main.rs:27, 51-62, 100-129, 205-252). A frame is a `Render.Frame` value that names the texture instead.
- What a render pass's default action does (src/main.rs:245) is not modelled, because the backend decides it. A frame records its passes as `ClearTo(Green)` then `DefaultAction`, so the model does not say which background is shown under the quad.
- The per-frame resource growth is not modelled, because buffers and textures live inside the backend. Each frame allocates new buffers, and a new texture for every letter frame, and none is freed.
- Vertex positions, texture coordinates, blend state and the GLSL/Metal shader text are not modelled, because they are floating-point GPU data. Colours are kept as hundredths of a channel.
- Font rasterization and image decoding are parameters, because they are library internals. The `unwrap` failures when parsing the font, decoding the image or creating the shader are not modelled; they abort startup.
- The `window::show_keyboard` side effect is not modelled, because it is a platform call. `Update` returns whether it was called instead.
- The `println!` of every key code (src/main.rs:292) is not modelled, because it is diagnostic output.
- `main` is not modelled, because it is window configuration and platform setup. That includes its unconditional `show_keyboard` at startup (src/main.rs:331).
- The commented-out code is not modelled, because it does not run. This covers the backend choice by argument, the old bindings, the checkerboard texture and the mouse handlers.
- The startup texture made from the 'b' glyph is not modelled, because it is never bound or drawn. The startup glyph's expanded bytes are kept in `textBitmap`.
- The 1×1 white texture's pixel data (src/main.rs:75) is not modelled, because it is GPU data. The `WhiteTexture` tag names that texture, whose one pixel is opaque white; it is bound whenever the character is a space and `show_king` is false.
- Render.GlyphPixelsFitTexture: covers only glyphs whose sizes are below 2^16. For a larger glyph, the `as u16` casts at src/main.rs:232 truncate the sizes, and the byte count no longer matches them.
