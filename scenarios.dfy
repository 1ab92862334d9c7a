// Runs from startup: what the handler draws and requests after a few
// events.

module Scenarios {
  import opened Input
  import opened Render
  import opened Machine
  import Handler

  /** The frame drawn in state `s` with rasterizer `font`. */
  function FrameIn(s: State, font: char -> Glyph): Frame {
    RenderFrame(s.lastChar, s.showKing, font(s.lastChar))
  }

  /** A run of one key press and one tick from startup. */
  lemma RunKeyThenTick(key: KeyCode, mods: KeyMods)
    ensures var s1 := OnKey(Initial, key, mods, false);
      Run(Initial, [KeyPress(key, mods, false), FrameTick]) ==
        Outcome(OnTick(s1).state, if OnTick(s1).requested then 1 else 0)
  {
    var events := [KeyPress(key, mods, false), FrameTick];
    var s1 := OnKey(Initial, key, mods, false);
    assert events[1..] == [FrameTick] && events[1..][1..] == [];
    assert Run(OnTick(s1).state, []) == Outcome(OnTick(s1).state, 0);
  }

  /** Startup, 'A' without shift, tick: the glyph of 'A' on white corners,
      after a pass that clears to green. */
  lemma PressAThenTick(font: char -> Glyph)
    ensures Run(Initial, [KeyPress(A, NoMods, false), FrameTick]) == Outcome(State('A', true, false), 0)
    ensures FrameIn(State('A', true, false), font).texture ==
      GlyphTexture(ToU16(font('A').width), ToU16(font('A').height), ExpandCoverage(font('A').coverage))
    ensures FrameIn(State('A', true, false), font).colours == [White, White, White, White]
    ensures FrameIn(State('A', true, false), font).passes == [ClearTo(Green), DefaultAction]
  {
    assert LetterChar(A, false) == 'A';
    RunKeyThenTick(A, NoMods);
  }

  /** Startup, Space, tick: the loaded image on white corners. */
  lemma PressSpaceThenTick(font: char -> Glyph)
    ensures Run(Initial, [KeyPress(Space, NoMods, false), FrameTick]).state == State(' ', true, false)
    ensures FrameIn(State(' ', true, false), font).texture == KingTexture
    ensures FrameIn(State(' ', true, false), font).colours == [White, White, White, White]
  {
    RunKeyThenTick(Space, NoMods);
  }

  /** Startup, Enter, tick: the white fallback texture with magenta, yellow,
      dark blue and yellow at the corners. */
  lemma PressEnterThenTick(font: char -> Glyph)
    ensures Run(Initial, [KeyPress(Enter, NoMods, false), FrameTick]).state == State(' ', false, false)
    ensures FrameIn(State(' ', false, false), font).texture == WhiteTexture
    ensures FrameIn(State(' ', false, false), font).colours == [Magenta, Yellow, DarkBlue, Yellow]
  {
    RunKeyThenTick(Enter, NoMods);
  }

  /** Startup, G without shift, two ticks: 'G' is selected and the keyboard
      is never requested, since only 'g' arms the request. */
  lemma PressGThenTickTwice()
    ensures Run(Initial, [KeyPress(G, NoMods, false), FrameTick, FrameTick]) == Outcome(State('G', true, false), 0)
  {
    var events := [KeyPress(G, NoMods, false), FrameTick, FrameTick];
    var s1 := OnKey(Initial, G, NoMods, false);
    assert LetterChar(G, false) == 'G';
    assert s1 == State('G', true, false);
    assert events[1..] == [FrameTick, FrameTick] && events[1..][1..] == [FrameTick];
    assert events[1..][1..][1..] == [];
    assert Run(s1, []) == Outcome(s1, 0);
    assert Run(s1, [FrameTick]) == Outcome(s1, 0);
    assert Run(s1, [FrameTick, FrameTick]) == Outcome(s1, 0);
  }

  /** Startup, shift+G, two ticks, on the handler object: the first tick
      requests the keyboard, the second does not. */
  method ShiftGThenTickTwice(font: char -> Glyph, king: Image) returns (first: bool, second: bool)
    ensures first && !second
  {
    var stage := new Handler.Stage(font, king);
    stage.KeyDown(G, ShiftOnly, false);
    assert LetterChar(G, true) == 'g';
    first := stage.Update();
    second := stage.Update();
  }
}
