/** The two tables from keys to the codes the firmware's keyboard library expects. */
module HidMap {
  import opened Basics

  // Every key named by one of the two tables; `OtherKey` stands for the keys in neither.
  datatype Key =
    | ControlLeft | ControlRight | ShiftLeft | ShiftRight | Alt | AltGr | MetaLeft | MetaRight
    | UpArrow | DownArrow | LeftArrow | RightArrow | Home | End | PageUp | PageDown | Backspace
    | Tab | Return | Escape | Insert | Delete | F1 | F2 | F3 | F4 | F5 | F6 | F7 | F8 | F9 | F10
    | F11 | F12 | Space | KeyA | KeyB | KeyC | KeyD | KeyE | KeyF | KeyG | KeyH | KeyI | KeyJ
    | KeyK | KeyL | KeyM | KeyN | KeyO | KeyP | KeyQ | KeyR | KeyS | KeyT | KeyU | KeyV | KeyW
    | KeyX | KeyY | KeyZ | Num0 | Num1 | Num2 | Num3 | Num4 | Num5 | Num6 | Num7 | Num8 | Num9
    | Comma | Minus | Slash | Equal | BackQuote | OtherKey(id: nat)

  // Codes of the left-hand modifiers, which stand for their class in a report.
  const HID_CTRL: Byte := 0x80
  const HID_SHIFT: Byte := 0x81
  const HID_ALT: Byte := 0x82

  function KeyToHid(key: Key): Option<Byte> {
    match key
    case ControlLeft => Some(HID_CTRL)
    case ControlRight => Some(0x84)
    case ShiftLeft => Some(HID_SHIFT)
    case ShiftRight => Some(0x85)
    case Alt => Some(HID_ALT)
    case AltGr => Some(0x86)
    case MetaLeft => Some(0x83)
    case MetaRight => Some(0x87)
    case UpArrow => Some(0xDA)
    case DownArrow => Some(0xD9)
    case LeftArrow => Some(0xD8)
    case RightArrow => Some(0xD7)
    case Home => Some(0xD2)
    case End => Some(0xD5)
    case PageUp => Some(0xD3)
    case PageDown => Some(0xD6)
    case Backspace => Some(0xB2)
    case Tab => Some(0xB3)
    case Return => Some(0xB0)
    case Escape => Some(0xB1)
    case Insert => Some(0xD1)
    case Delete => Some(0xD4)
    case F1 => Some(0xC2)
    case F2 => Some(0xC3)
    case F3 => Some(0xC4)
    case F4 => Some(0xC5)
    case F5 => Some(0xC6)
    case F6 => Some(0xC7)
    case F7 => Some(0xC8)
    case F8 => Some(0xC9)
    case F9 => Some(0xCA)
    case F10 => Some(0xCB)
    case F11 => Some(0xCC)
    case F12 => Some(0xCD)
    case _ => None
  }

  /** ASCII code of a printing key. */
  function KeyToAscii(key: Key): Option<Byte> {
    match key
    case Space => Some(0x20)
    case KeyA => Some(0x61)
    case KeyB => Some(0x62)
    case KeyC => Some(0x63)
    case KeyD => Some(0x64)
    case KeyE => Some(0x65)
    case KeyF => Some(0x66)
    case KeyG => Some(0x67)
    case KeyH => Some(0x68)
    case KeyI => Some(0x69)
    case KeyJ => Some(0x6A)
    case KeyK => Some(0x6B)
    case KeyL => Some(0x6C)
    case KeyM => Some(0x6D)
    case KeyN => Some(0x6E)
    case KeyO => Some(0x6F)
    case KeyP => Some(0x70)
    case KeyQ => Some(0x71)
    case KeyR => Some(0x72)
    case KeyS => Some(0x73)
    case KeyT => Some(0x74)
    case KeyU => Some(0x75)
    case KeyV => Some(0x76)
    case KeyW => Some(0x77)
    case KeyX => Some(0x78)
    case KeyY => Some(0x79)
    case KeyZ => Some(0x7A)
    case Num0 => Some(0x30)
    case Num1 => Some(0x31)
    case Num2 => Some(0x32)
    case Num3 => Some(0x33)
    case Num4 => Some(0x34)
    case Num5 => Some(0x35)
    case Num6 => Some(0x36)
    case Num7 => Some(0x37)
    case Num8 => Some(0x38)
    case Num9 => Some(0x39)
    case Comma => Some(0x2C)
    case Minus => Some(0x2D)
    case Slash => Some(0x2F)
    case Equal => Some(0x3D)
    case BackQuote => Some(0x60)
    case _ => None
  }

  /** The code a report carries for a key: the special table first, then the printing table. */
  function KeyCode(key: Key): Option<Byte> {
    if KeyToHid(key).Some? then KeyToHid(key) else KeyToAscii(key)
  }

  predicate IsModifier(key: Key) {
    || key.ControlLeft? || key.ControlRight? || key.ShiftLeft? || key.ShiftRight?
    || key.Alt? || key.AltGr? || key.MetaLeft? || key.MetaRight?
  }

  // ---- The codes, read backwards ------------------------------------------

  // The keys of each unbroken run of codes, in the order of their codes.
  const MODIFIER_KEYS: seq<Key> :=
    [ControlLeft, ShiftLeft, Alt, MetaLeft, ControlRight, ShiftRight, AltGr, MetaRight]
  const CONTROL_KEYS: seq<Key> := [Return, Escape, Backspace, Tab]
  const FUNCTION_KEYS: seq<Key> := [F1, F2, F3, F4, F5, F6, F7, F8, F9, F10, F11, F12]
  const MOVEMENT_KEYS: seq<Key> :=
    [Insert, Home, PageUp, Delete, End, PageDown, RightArrow, LeftArrow, DownArrow, UpArrow]
  const LETTER_KEYS: seq<Key> :=
    [KeyA, KeyB, KeyC, KeyD, KeyE, KeyF, KeyG, KeyH, KeyI, KeyJ, KeyK, KeyL, KeyM,
     KeyN, KeyO, KeyP, KeyQ, KeyR, KeyS, KeyT, KeyU, KeyV, KeyW, KeyX, KeyY, KeyZ]
  const DIGIT_KEYS: seq<Key> := [Num0, Num1, Num2, Num3, Num4, Num5, Num6, Num7, Num8, Num9]

  function At(keys: seq<Key>, i: int): Option<Key> { if 0 <= i < |keys| then Some(keys[i]) else None }

  /** The key with a code: ASCII below 0x80, and above it the codes of the firmware's keyboard library. */
  function KeyWithCode(code: Byte): Option<Key> {
    if code >= 0xD1 then At(MOVEMENT_KEYS, code - 0xD1)
    else if code >= 0xC2 then At(FUNCTION_KEYS, code - 0xC2)
    else if code >= 0xB0 then At(CONTROL_KEYS, code - 0xB0)
    else if code >= 0x80 then At(MODIFIER_KEYS, code - 0x80)
    else if code >= 'a' as int then At(LETTER_KEYS, code - 'a' as int)
    else if '0' as int <= code <= '9' as int then At(DIGIT_KEYS, code - '0' as int)
    else if code == ' ' as int then Some(Space)
    else if code == ',' as int then Some(Comma)
    else if code == '-' as int then Some(Minus)
    else if code == '/' as int then Some(Slash)
    else if code == '=' as int then Some(Equal)
    else if code == '`' as int then Some(BackQuote)
    else None
  }

  lemma LettersRead(key: Key)
    requires KeyToAscii(key).Some? && KeyToAscii(key).value >= 0x61
    ensures KeyWithCode(KeyToAscii(key).value) == Some(key)
  {
  }

  lemma OtherCharactersRead(key: Key)
    requires KeyToAscii(key).Some? && KeyToAscii(key).value < 0x61
    ensures KeyWithCode(KeyToAscii(key).value) == Some(key)
  {
  }

  lemma MovementKeysRead(key: Key)
    requires KeyToHid(key).Some? && KeyToHid(key).value >= 0xD1
    ensures KeyWithCode(KeyToHid(key).value) == Some(key)
  {
  }

  lemma FunctionKeysRead(key: Key)
    requires KeyToHid(key).Some? && 0xC2 <= KeyToHid(key).value < 0xD1
    ensures KeyWithCode(KeyToHid(key).value) == Some(key)
  {
  }

  lemma LowSpecialKeysRead(key: Key)
    requires KeyToHid(key).Some? && KeyToHid(key).value < 0xC2
    ensures KeyToHid(key).value >= 0x80 && KeyWithCode(KeyToHid(key).value) == Some(key)
  {
  }

  /** The key is found again by its code, which is that of its table. */
  predicate ReadsBack(code: Option<Byte>, key: Key, special: bool) {
    code.Some? ==> (code.value >= 0x80 <==> special) && KeyWithCode(code.value) == Some(key)
  }

  lemma SpecialKeysRead(key: Key)
    ensures ReadsBack(KeyToHid(key), key, true)
  {
    if KeyToHid(key).Some? {
      if KeyToHid(key).value >= 0xD1 {
        MovementKeysRead(key);
      } else if KeyToHid(key).value >= 0xC2 {
        FunctionKeysRead(key);
      } else {
        LowSpecialKeysRead(key);
      }
    }
  }

  lemma CharactersRead(key: Key)
    ensures ReadsBack(KeyToAscii(key), key, false)
  {
    if KeyToAscii(key).Some? {
      if KeyToAscii(key).value >= 0x61 {
        LettersRead(key);
        LettersEnd(key);
      } else {
        OtherCharactersRead(key);
      }
    }
  }

  lemma LettersEnd(key: Key)
    ensures KeyToAscii(key).Some? ==> KeyToAscii(key).value < 0x80
  {
  }

  /** The tables lose nothing: every code leads back to its key, so no two keys share one; printing keys have the
      ASCII code of the character on them, and special keys those of the firmware's library. */
  lemma CodesIdentifyKeys(key: Key)
    ensures ReadsBack(KeyToHid(key), key, true) && ReadsBack(KeyToAscii(key), key, false)
  {
    SpecialKeysRead(key);
    CharactersRead(key);
  }

  lemma HighCodesAreKeys(code: Byte)
    requires code >= 0xC2 && KeyWithCode(code).Some?
    ensures KeyToHid(KeyWithCode(code).value) == Some(code)
  {
  }

  lemma LowSpecialCodesAreKeys(code: Byte)
    requires 0x80 <= code < 0xC2 && KeyWithCode(code).Some?
    ensures KeyToHid(KeyWithCode(code).value) == Some(code)
  {
  }

  lemma FirstLettersAreKeys(code: Byte)
    requires 'a' as int <= code < 'n' as int && KeyWithCode(code).Some?
    ensures KeyToAscii(KeyWithCode(code).value) == Some(code)
  {
  }

  lemma LastLettersAreKeys(code: Byte)
    requires 'n' as int <= code < 0x80 && KeyWithCode(code).Some?
    ensures KeyToAscii(KeyWithCode(code).value) == Some(code)
  {
  }

  lemma FirstDigitsAreKeys(code: Byte)
    requires '0' as int <= code < '5' as int && KeyWithCode(code).Some?
    ensures KeyToAscii(KeyWithCode(code).value) == Some(code)
  {
  }

  lemma LastDigitsAreKeys(code: Byte)
    requires '5' as int <= code <= '9' as int && KeyWithCode(code).Some?
    ensures KeyToAscii(KeyWithCode(code).value) == Some(code)
  {
  }

  lemma OtherCharactersAreKeys(code: Byte)
    requires code < 'a' as int && !('0' as int <= code <= '9' as int) && KeyWithCode(code).Some?
    ensures KeyToAscii(KeyWithCode(code).value) == Some(code)
  {
  }

  lemma CharactersAreNotSpecial(key: Key)
    requires KeyToAscii(key).Some?
    ensures KeyToHid(key).None?
  {
  }

  /** And no key of these runs is missing: a code is that of the key it stands for. */
  lemma KeysHaveCodes(code: Byte)
    requires KeyWithCode(code).Some?
    ensures KeyCode(KeyWithCode(code).value) == Some(code)
  {
    if code >= 0xC2 {
      HighCodesAreKeys(code);
    } else if code >= 0x80 {
      LowSpecialCodesAreKeys(code);
    } else {
      if code >= 'n' as int {
        LastLettersAreKeys(code);
      } else if code >= 'a' as int {
        FirstLettersAreKeys(code);
      } else if '5' as int <= code <= '9' as int {
        LastDigitsAreKeys(code);
      } else if '0' as int <= code < '5' as int {
        FirstDigitsAreKeys(code);
      } else {
        OtherCharactersAreKeys(code);
      }
      CharactersAreNotSpecial(KeyWithCode(code).value);
    }
  }
}
