// The handler's input state as a value, with the two transitions the
// platform drives (a key going down, a frame tick) and what runs of
// events can and cannot do.

module Machine {
  import opened Input

  /** The handler's state: the last character selected, whether a space
      shows the loaded image (rather than the plain quad), and whether the
      on-screen keyboard has been requested since the last G press. */
  datatype State = State(lastChar: char, showKing: bool, keybShown: bool)

  /** The state the handler starts in. */
  const Initial := State('a', true, false)

  /** The tick will request the on-screen keyboard. */
  predicate Armed(s: State) {
    !s.keybShown && s.lastChar == 'g'
  }

  /** A key going down. */
  function OnKey(s: State, key: KeyCode, mods: KeyMods, repeat: bool): (r: State)
    ensures repeat ==> r == s
    ensures !repeat && IsLetter(key) ==>
      r.lastChar == LetterChar(key, mods.shift) && r.showKing == s.showKing &&
      r.keybShown == (s.keybShown && key != G)
    ensures !repeat && key == Space ==> r == s.(lastChar := ' ', showKing := true)
    ensures !repeat && key == Enter ==> r == s.(lastChar := ' ', showKing := false)
    ensures key.Other? ==> r == s
    ensures r.keybShown ==> s.keybShown
    ensures s.keybShown && !r.keybShown ==> key == G && !repeat
  {
    if repeat then s
    else if key.Space? then s.(lastChar := ' ', showKing := true)
    else if key.Enter? then s.(lastChar := ' ', showKing := false)
    else if key.Other? then s
    else s.(lastChar := LetterChar(key, mods.shift), keybShown := s.keybShown && key != G)
  }

  /** A state after a tick, and whether the tick requested the keyboard. */
  datatype TickResult = TickResult(state: State, requested: bool)

  /** A frame tick, run before the frame is drawn. */
  function OnTick(s: State): (t: TickResult)
    ensures t.requested <==> !s.keybShown && s.lastChar == 'g'
    ensures t.state.lastChar == s.lastChar && t.state.showKing == s.showKing
    ensures t.state.keybShown == (s.keybShown || t.requested)
    ensures !Armed(t.state)
  {
    if Armed(s) then TickResult(s.(keybShown := true), true) else TickResult(s, false)
  }

  /** Only the modifier shift matters to a key event. */
  lemma OnlyShiftMatters(s: State, key: KeyCode, m1: KeyMods, m2: KeyMods, repeat: bool)
    requires m1.shift == m2.shift
    ensures OnKey(s, key, m1, repeat) == OnKey(s, key, m2, repeat)
  {
  }

  /** Space and Enter are idempotent: pressing one twice is pressing it once. */
  lemma SpaceEnterIdempotent(s: State, key: KeyCode, m1: KeyMods, m2: KeyMods)
    requires key == Space || key == Enter
    ensures OnKey(OnKey(s, key, m1, false), key, m2, false) == OnKey(s, key, m1, false)
  {
  }

  /** The keyboard request is one-shot: a second tick without a key event
      in between requests nothing and changes nothing. */
  lemma TickOneShot(s: State)
    ensures !OnTick(OnTick(s).state).requested
    ensures OnTick(OnTick(s).state).state == OnTick(s).state
  {
  }

  /** What the platform delivers, one at a time. */
  datatype Event = KeyPress(key: KeyCode, mods: KeyMods, repeat: bool) | FrameTick

  function Step(s: State, e: Event): TickResult {
    match e
    case KeyPress(key, mods, repeat) => TickResult(OnKey(s, key, mods, repeat), false)
    case FrameTick => OnTick(s)
  }

  /** The state after a run of events, and how many times the keyboard was
      requested along the way. */
  datatype Outcome = Outcome(state: State, requests: nat)

  function Run(s: State, events: seq<Event>): Outcome
    decreases |events|
  {
    if events == [] then Outcome(s, 0)
    else
      var t := Step(s, events[0]);
      var o := Run(t.state, events[1..]);
      Outcome(o.state, o.requests + if t.requested then 1 else 0)
  }

  /** A press of G that the handler acts on (not a repeat). */
  predicate PressesG(e: Event) {
    e.KeyPress? && e.key == G && !e.repeat
  }

  /** A press of G with shift held: the only event that selects 'g'. */
  predicate PressesShiftG(e: Event) {
    PressesG(e) && e.mods.shift
  }

  /** The characters the handler can hold. */
  predicate Selectable(c: char) {
    'a' <= c <= 'z' || 'A' <= c <= 'Z' || c == ' '
  }

  /** No run of events takes the last character outside the letters and
      the space. */
  lemma {:induction false} RunKeepsSelectable(s: State, events: seq<Event>)
    requires Selectable(s.lastChar)
    ensures Selectable(Run(s, events).state.lastChar)
    decreases |events|
  {
    if events != [] {
      var t := Step(s, events[0]);
      if events[0].KeyPress? && !events[0].repeat && IsLetter(events[0].key) {
        assert t.state.lastChar == LetterChar(events[0].key, events[0].mods.shift);
      }
      RunKeepsSelectable(t.state, events[1..]);
    }
  }

  /** From startup, the last character is always a letter or the space. */
  lemma ReachableCharsSelectable(events: seq<Event>)
    ensures Selectable(Run(Initial, events).state.lastChar)
  {
    RunKeepsSelectable(Initial, events);
  }

  /** Between two presses of G the keyboard is requested at most once, and
      not at all once it has been requested. */
  lemma {:induction false} AtMostOneRequestWithoutG(s: State, events: seq<Event>)
    requires forall i :: 0 <= i < |events| ==> !PressesG(events[i])
    ensures Run(s, events).requests <= if s.keybShown then 0 else 1
    ensures s.keybShown ==> Run(s, events).state.keybShown
    decreases |events|
  {
    if events != [] {
      var t := Step(s, events[0]);
      assert !PressesG(events[0]);
      assert t.state.keybShown == (s.keybShown || t.requested);
      assert forall i :: 0 <= i < |events[1..]| ==> !PressesG(events[1..][i]) by {
        forall i | 0 <= i < |events[1..]| ensures !PressesG(events[1..][i]) {
          assert events[1..][i] == events[i + 1];
        }
      }
      AtMostOneRequestWithoutG(t.state, events[1..]);
    }
  }

  /** Unless the tick is already armed, the keyboard is requested only after
      a press of shift+G. */
  lemma {:induction false} RequestNeedsShiftG(s: State, events: seq<Event>)
    requires !Armed(s)
    requires Run(s, events).requests > 0
    ensures exists i :: 0 <= i < |events| && PressesShiftG(events[i])
    decreases |events|
  {
    var t := Step(s, events[0]);
    if Armed(t.state) {
      assert PressesShiftG(events[0]);
    } else {
      RequestNeedsShiftG(t.state, events[1..]);
      var i :| 0 <= i < |events[1..]| && PressesShiftG(events[1..][i]);
      assert events[1..][i] == events[i + 1];
    }
  }

  /** From startup, no tick requests the keyboard before a press of
      shift+G. */
  lemma FirstRequestAfterShiftG(events: seq<Event>)
    requires Run(Initial, events).requests > 0
    ensures exists i :: 0 <= i < |events| && PressesShiftG(events[i])
  {
    RequestNeedsShiftG(Initial, events);
  }
}
