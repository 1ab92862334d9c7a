// Keyboard input as the event handler receives it: a key code, the
// modifier state and the repeat flag.

module Input {

  /** The key codes the handler distinguishes. Every other key the platform
      can report is `Other`, carrying its platform code. */
  datatype KeyCode =
    | A | B | C | D | E | F | G | H | I | J | K | L | M
    | N | O | P | Q | R | S | T | U | V | W | X | Y | Z
    | Space
    | Enter
    | Other(code: nat)

  /** The modifier keys held while a key goes down. */
  datatype KeyMods = KeyMods(shift: bool, ctrl: bool, alt: bool, logo: bool)

  const NoMods := KeyMods(false, false, false, false)
  const ShiftOnly := KeyMods(true, false, false, false)

  predicate IsLetter(key: KeyCode) {
    !(key.Space? || key.Enter? || key.Other?)
  }

  /** Position of a letter key in the alphabet, A being 0. */
  function LetterOrdinal(key: KeyCode): (n: nat)
    requires IsLetter(key)
    ensures n < 26
  {
    match key
    case A => 0  case B => 1  case C => 2  case D => 3  case E => 4
    case F => 5  case G => 6  case H => 7  case I => 8  case J => 9
    case K => 10 case L => 11 case M => 12 case N => 13 case O => 14
    case P => 15 case Q => 16 case R => 17 case S => 18 case T => 19
    case U => 20 case V => 21 case W => 22 case X => 23 case Y => 24
    case Z => 25
  }

  /** The character a letter key selects. The case is inverted with
      respect to the usual convention: shift gives the lower-case letter,
      no shift the upper-case one. */
  function LetterChar(key: KeyCode, shift: bool): (c: char)
    requires IsLetter(key)
    ensures shift ==> 'a' <= c <= 'z' && c as int - 'a' as int == LetterOrdinal(key)
    ensures !shift ==> 'A' <= c <= 'Z' && c as int - 'A' as int == LetterOrdinal(key)
  {
    ((if shift then 'a' else 'A') as int + LetterOrdinal(key)) as char
  }

  /** The letter key at a place in the alphabet. */
  function LetterKey(n: nat): (key: KeyCode)
    requires n < 26
    ensures IsLetter(key)
  {
    [A, B, C, D, E, F, G, H, I, J, K, L, M, N, O, P, Q, R, S, T, U, V, W, X, Y, Z][n]
  }

  /** A letter key's place in the alphabet identifies the key. */
  lemma LetterKeyOrdinal(key: KeyCode)
    requires IsLetter(key)
    ensures LetterKey(LetterOrdinal(key)) == key
  {
    match key
    case A => case B => case C => case D => case E => case F => case G =>
    case H => case I => case J => case K => case L => case M => case N =>
    case O => case P => case Q => case R => case S => case T => case U =>
    case V => case W => case X => case Y => case Z =>
  }

  /** Different letter keys have different places in the alphabet. */
  lemma LetterOrdinalInjective(k1: KeyCode, k2: KeyCode)
    requires IsLetter(k1) && IsLetter(k2)
    ensures LetterOrdinal(k1) == LetterOrdinal(k2) <==> k1 == k2
  {
    LetterKeyOrdinal(k1);
    LetterKeyOrdinal(k2);
  }

  /** Different letter keys select different characters, and the two
      cases of one key differ. */
  lemma LetterCharInjective(k1: KeyCode, s1: bool, k2: KeyCode, s2: bool)
    requires IsLetter(k1) && IsLetter(k2)
    ensures LetterChar(k1, s1) == LetterChar(k2, s2) <==> k1 == k2 && s1 == s2
  {
    var c1, c2 := LetterChar(k1, s1), LetterChar(k2, s2);
    LetterOrdinalInjective(k1, k2);
    if c1 == c2 {
      assert s1 == s2;
    }
  }
}
