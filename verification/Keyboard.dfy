/** Pressed keys, the reports built from them, and the Ctrl+Alt hot keys. */
module Keyboard {
  import opened Basics
  import opened HidMap
  import opened AppModel
  import opened Combo

  datatype KeyEvent = Press(key: Key) | Release(key: Key)

  function Apply(pressed: set<Key>, e: KeyEvent): set<Key> {
    match e
    case Press(k) => pressed + {k}
    case Release(k) => pressed - {k}
  }

  function PressedAfter(history: seq<KeyEvent>): set<Key> {
    if history == [] then {} else Apply(PressedAfter(DropLast(history)), Last(history))
  }

  predicate CtrlDown(pressed: set<Key>) { ControlLeft in pressed || ControlRight in pressed }
  predicate AltDown(pressed: set<Key>) { Alt in pressed || AltGr in pressed }
  predicate ShiftDown(pressed: set<Key>) { ShiftLeft in pressed || ShiftRight in pressed }

  // ---- Reports ------------------------------------------------------------

  /** Codes of the modifier classes held down, in the order of the report. */
  function ModifierCodes(ctrl: bool, shift: bool, alt: bool): seq<Byte> {
    Held(ctrl, shift, alt, HID_CTRL, HID_SHIFT, HID_ALT)
  }

  function Held<T>(ctrl: bool, shift: bool, alt: bool, c: T, s: T, a: T): seq<T> {
    (if ctrl then [c] else []) + (if shift then [s] else []) + (if alt then [a] else [])
  }

  function HidReport(ctrl: bool, shift: bool, alt: bool, code: Option<Byte>): Option<Bytes> {
    match code
    case None => None
    case Some(c) => Some(Report(ModifierCodes(ctrl, shift, alt), c))
  }

  /** What a captured press of a key with these codes offers: a report if a modifier is held or the key is a
      special one, otherwise the event itself if the key prints. */
  function CodeOffer(pressed: set<Key>, hid: Option<Byte>, ascii: Option<Byte>, event: Event): seq<InputEvent> {
    if CtrlDown(pressed) || AltDown(pressed) || ShiftDown(pressed) || hid.Some? then
      match HidReport(CtrlDown(pressed), ShiftDown(pressed), AltDown(pressed), if hid.Some? then hid else ascii)
      case None => []
      case Some(report) => [Keycode(report)]
    else if ascii.Some? then [RDevEvent(event)]
    else []
  }

  function KeyOffer(pressed: set<Key>, key: Key, event: Event): seq<InputEvent> {
    CodeOffer(pressed, KeyToHid(key), KeyToAscii(key), event)
  }

  function ClipboardOffer(pressed: set<Key>, key: Key, clipboard: Option<string>): seq<InputEvent> {
    if key == KeyV && CtrlDown(pressed) && clipboard.Some? then [Clipboard(clipboard.value)] else []
  }

  // ---- Hot keys -----------------------------------------------------------

  predicate HotKey(pressed: set<Key>, key: Key, target: Key) {
    key == target && CtrlDown(pressed) && AltDown(pressed)
  }

  /** The snapshot with the flag of the hot key flipped; nothing is published for other keys. */
  function Published(pressed: set<Key>, key: Key, snapshot: AppState): Option<AppState> {
    if HotKey(pressed, key, KeyC) then Some(snapshot.(enableKeyCapture := !snapshot.enableKeyCapture))
    else if HotKey(pressed, key, KeyV) then
      Some(snapshot.(enableClipboardCapture := !snapshot.enableClipboardCapture))
    else if HotKey(pressed, key, KeyM) then
      Some(snapshot.(enableMouseCapture := !snapshot.enableMouseCapture))
    else None
  }

  // ---- Reports and histories ----------------------------------------------

  /** The last event of the key was a press. */
  ghost predicate IsDown(history: seq<KeyEvent>, key: Key) {
    exists i :: 0 <= i < |history| && history[i] == Press(key)
             && forall j :: i < j < |history| ==> history[j] != Release(key)
  }

  lemma EventDecidesDown(before: seq<KeyEvent>, e: KeyEvent, key: Key)
    ensures e == Press(key) ==> IsDown(before + [e], key)
    ensures e == Release(key) ==> !IsDown(before + [e], key)
  {
    assert (before + [e])[|before|] == e;
  }

  lemma OtherEventKeepsDown(before: seq<KeyEvent>, e: KeyEvent, key: Key)
    requires e != Press(key) && e != Release(key)
    ensures IsDown(before + [e], key) <==> IsDown(before, key)
  {
    var all, n := before + [e], |before|;
    if IsDown(before, key) {
      var i :| 0 <= i < n && before[i] == Press(key) && forall j :: i < j < n ==> before[j] != Release(key);
      assert all[i] == Press(key);
      assert forall j :: i < j < |all| ==> all[j] == if j < n then before[j] else e;
    }
    if IsDown(all, key) {
      var i :| 0 <= i < |all| && all[i] == Press(key) && forall j :: i < j < |all| ==> all[j] != Release(key);
      assert before[i] == Press(key);
      assert forall j :: i < j < n ==> before[j] == all[j];
    }
  }

  lemma {:induction false} PressedIsDown(history: seq<KeyEvent>, key: Key)
    ensures key in PressedAfter(history) <==> IsDown(history, key)
  {
    if history != [] {
      var before, e := DropLast(history), Last(history);
      assert history == before + [e];
      PressedIsDown(before, key);
      if e == Press(key) || e == Release(key) {
        EventDecidesDown(before, e, key);
      } else {
        OtherEventKeepsDown(before, e, key);
      }
    }
  }

  ghost predicate ClassDown(history: seq<KeyEvent>, left: Key, right: Key) {
    IsDown(history, left) || IsDown(history, right)
  }

  lemma ClassesAreDown(history: seq<KeyEvent>)
    ensures CtrlDown(PressedAfter(history)) <==> ClassDown(history, ControlLeft, ControlRight)
    ensures ShiftDown(PressedAfter(history)) <==> ClassDown(history, ShiftLeft, ShiftRight)
    ensures AltDown(PressedAfter(history)) <==> ClassDown(history, Alt, AltGr)
  {
    PressedIsDown(history, ControlLeft);
    PressedIsDown(history, ControlRight);
    PressedIsDown(history, ShiftLeft);
    PressedIsDown(history, ShiftRight);
    PressedIsDown(history, Alt);
    PressedIsDown(history, AltGr);
  }

  /** A press offers something exactly if the key has a code in one of the tables. */
  lemma OfferHasCode(pressed: set<Key>, hid: Option<Byte>, ascii: Option<Byte>, event: Event)
    ensures var offer, code := CodeOffer(pressed, hid, ascii, event), if hid.Some? then hid else ascii;
            var ctrl, shift, alt := CtrlDown(pressed), ShiftDown(pressed), AltDown(pressed);
            && (code.None? <==> offer == [])
            && (code.Some? ==>
                  offer == if !ctrl && !shift && !alt && hid.None? then [RDevEvent(event)]
                           else [Keycode(Report(ModifierCodes(ctrl, shift, alt), code.value))])
  {
  }

  /** After any history ending in a press, a captured press is offered exactly when its key has a code, and
      a report encodes exactly the modifier classes whose last event was a press. */
  lemma CapturedPress(history: seq<KeyEvent>, key: Key, event: Event)
    requires history != [] && Last(history) == Press(key)
    ensures var offer := KeyOffer(PressedAfter(history), key, event);
            var ctrl := ClassDown(history, ControlLeft, ControlRight);
            var shift := ClassDown(history, ShiftLeft, ShiftRight);
            var alt := ClassDown(history, Alt, AltGr);
            && (KeyCode(key).None? <==> offer == [])
            && (KeyCode(key).Some? ==>
                  offer == if !ctrl && !shift && !alt && KeyToHid(key).None?
                           then [RDevEvent(event)]
                           else [Keycode(Report(ModifierCodes(ctrl, shift, alt), KeyCode(key).value))])
  {
    ClassesAreDown(history);
    OfferHasCode(PressedAfter(history), KeyToHid(key), KeyToAscii(key), event);
  }

  // ---- Agreement with the combo parser ------------------------------------

  function SpecialText(key: Key): string {
    match key
    case UpArrow => "up"
    case DownArrow => "down"
    case LeftArrow => "left"
    case RightArrow => "right"
    case Home => "home"
    case End => "end"
    case PageUp => "pageup"
    case PageDown => "pagedown"
    case Backspace => "backspace"
    case Tab => "tab"
    case Return => "return"
    case Escape => "escape"
    case Insert => "insert"
    case Delete => "delete"
    case F1 => "f1"
    case F2 => "f2"
    case F3 => "f3"
    case F4 => "f4"
    case F5 => "f5"
    case F6 => "f6"
    case F7 => "f7"
    case F8 => "f8"
    case F9 => "f9"
    case F10 => "f10"
    case F11 => "f11"
    case F12 => "f12"
    case _ => ""
  }

  /** How a key other than a modifier is written in a combo. */
  function KeyText(key: Key): string {
    match KeyToAscii(key)
    case Some(c) => [c as char]
    case None => SpecialText(key)
  }

  function ModifierNames(ctrl: bool, shift: bool, alt: bool): seq<string> {
    Held(ctrl, shift, alt, "ctrl", "shift", "alt")
  }

  predicate IsPlainText(s: string) {
    && IsAscii(s)
    && forall i :: 0 <= i < |s| ==> s[i] != PLUS && !('A' <= s[i] <= 'Z')
  }

  lemma PlainTextIsLower(lower: Lowercasing, s: string)
    requires IsPlainText(s)
    ensures lower(s) == s && PLUS !in s
  {
    assert IsLowercasing(lower);
    assert AsciiLower(s) == s;
  }

  lemma IsNamed(key: Key, name: string, code: Byte)
    requires SpecialText(key) == name && KeyToHid(key) == Some(code)
    requires NamedKeyCode(name) == Some(code) && IsPlainText(name)
    ensures NamedKeyCode(SpecialText(key)) == KeyToHid(key) && IsPlainText(SpecialText(key))
  {
  }

  lemma ArrowNames()
    ensures NamedKeyCode("up") == Some(0xDA) && NamedKeyCode("down") == Some(0xD9)
    ensures NamedKeyCode("left") == Some(0xD8) && NamedKeyCode("right") == Some(0xD7)
    ensures IsPlainText("up") && IsPlainText("down") && IsPlainText("left") && IsPlainText("right")
  {
  }

  lemma PagingNames()
    ensures NamedKeyCode("home") == Some(0xD2) && NamedKeyCode("end") == Some(0xD5)
    ensures NamedKeyCode("pageup") == Some(0xD3) && NamedKeyCode("pagedown") == Some(0xD6)
    ensures IsPlainText("home") && IsPlainText("end") && IsPlainText("pageup") && IsPlainText("pagedown")
  {
  }

  lemma EditingNames()
    ensures NamedKeyCode("backspace") == Some(0xB2)
    ensures NamedKeyCode("insert") == Some(0xD1) && NamedKeyCode("delete") == Some(0xD4)
    ensures IsPlainText("backspace") && IsPlainText("insert") && IsPlainText("delete")
  {
  }

  lemma ControlNames()
    ensures NamedKeyCode("tab") == Some(0xB3) && NamedKeyCode("return") == Some(0xB0)
    ensures NamedKeyCode("escape") == Some(0xB1)
    ensures IsPlainText("tab") && IsPlainText("return") && IsPlainText("escape")
  {
  }

  lemma ArrowKeysAreNamed(key: Key)
    requires key.UpArrow? || key.DownArrow? || key.LeftArrow? || key.RightArrow?
    ensures NamedKeyCode(SpecialText(key)) == KeyToHid(key) && IsPlainText(SpecialText(key))
  {
    ArrowNames();
    match key {
      case UpArrow => IsNamed(key, "up", 0xDA);
      case DownArrow => IsNamed(key, "down", 0xD9);
      case LeftArrow => IsNamed(key, "left", 0xD8);
      case RightArrow => IsNamed(key, "right", 0xD7);
    }
  }

  lemma PagingKeysAreNamed(key: Key)
    requires key.Home? || key.End? || key.PageUp? || key.PageDown?
    ensures NamedKeyCode(SpecialText(key)) == KeyToHid(key) && IsPlainText(SpecialText(key))
  {
    PagingNames();
    match key {
      case Home => IsNamed(key, "home", 0xD2);
      case End => IsNamed(key, "end", 0xD5);
      case PageUp => IsNamed(key, "pageup", 0xD3);
      case PageDown => IsNamed(key, "pagedown", 0xD6);
    }
  }

  lemma EditingKeysAreNamed(key: Key)
    requires key.Backspace? || key.Insert? || key.Delete?
    ensures NamedKeyCode(SpecialText(key)) == KeyToHid(key) && IsPlainText(SpecialText(key))
  {
    EditingNames();
    match key {
      case Backspace => IsNamed(key, "backspace", 0xB2);
      case Insert => IsNamed(key, "insert", 0xD1);
      case Delete => IsNamed(key, "delete", 0xD4);
    }
  }

  lemma ControlKeysAreNamed(key: Key)
    requires key.Tab? || key.Return? || key.Escape?
    ensures NamedKeyCode(SpecialText(key)) == KeyToHid(key) && IsPlainText(SpecialText(key))
  {
    ControlNames();
    match key {
      case Tab => IsNamed(key, "tab", 0xB3);
      case Return => IsNamed(key, "return", 0xB0);
      case Escape => IsNamed(key, "escape", 0xB1);
    }
  }

  /** No other name begins with an F. */
  lemma FunctionNamesStandAlone(name: string)
    requires |name| > 1 && name[0] == 'f'
    ensures NamedKeyCode(name) == FunctionKeyCode(name)
  {
  }

  lemma LowFunctionKeysAreNamed(key: Key)
    requires key.F1? || key.F2? || key.F3? || key.F4?
    ensures FunctionKeyCode(SpecialText(key)) == KeyToHid(key)
    ensures |SpecialText(key)| > 1 && SpecialText(key)[0] == 'f' && IsPlainText(SpecialText(key))
  {
  }

  lemma MiddleFunctionKeysAreNamed(key: Key)
    requires key.F5? || key.F6? || key.F7? || key.F8?
    ensures FunctionKeyCode(SpecialText(key)) == KeyToHid(key)
    ensures |SpecialText(key)| > 1 && SpecialText(key)[0] == 'f' && IsPlainText(SpecialText(key))
  {
  }

  lemma HighFunctionKeysAreNamed(key: Key)
    requires key.F9? || key.F10? || key.F11? || key.F12?
    ensures FunctionKeyCode(SpecialText(key)) == KeyToHid(key)
    ensures |SpecialText(key)| > 1 && SpecialText(key)[0] == 'f' && IsPlainText(SpecialText(key))
  {
  }

  lemma AsciiKeysArePlain(key: Key)
    requires KeyToAscii(key).Some?
    ensures KeyToHid(key).None?
    ensures KeyToAscii(key).value < 0x80 && IsPlainText([KeyToAscii(key).value as char])
  {
  }

  lemma SpecialKeysAreNamed(key: Key)
    requires KeyToHid(key).Some? && !IsModifier(key)
    ensures NamedKeyCode(SpecialText(key)) == KeyToHid(key) && IsPlainText(SpecialText(key))
  {
    match key
    case UpArrow | DownArrow | LeftArrow | RightArrow => ArrowKeysAreNamed(key);
    case Home | End | PageUp | PageDown => PagingKeysAreNamed(key);
    case Backspace | Insert | Delete => EditingKeysAreNamed(key);
    case Tab | Return | Escape => ControlKeysAreNamed(key);
    case F1 | F2 | F3 | F4 =>
      LowFunctionKeysAreNamed(key);
      FunctionNamesStandAlone(SpecialText(key));
    case F5 | F6 | F7 | F8 =>
      MiddleFunctionKeysAreNamed(key);
      FunctionNamesStandAlone(SpecialText(key));
    case _ =>
      HighFunctionKeysAreNamed(key);
      FunctionNamesStandAlone(SpecialText(key));
  }

  lemma KeyTextIsNamed(key: Key)
    requires KeyCode(key).Some? && !IsModifier(key)
    ensures IsPlainText(KeyText(key))
    ensures NamedKeyCode(KeyText(key)) == KeyCode(key)
  {
    if KeyToAscii(key).Some? {
      AsciiKeysArePlain(key);
      OneByteName(KeyToAscii(key).value);
    } else {
      SpecialKeysAreNamed(key);
    }
  }

  lemma NamedModifier(lower: Lowercasing, name: string, code: Byte)
    requires IsPlainText(name) && ModifierCode(name) == Some(code)
    ensures ModifierOf(lower, name) == Some(code) && PLUS !in name
  {
    PlainTextIsLower(lower, name);
  }

  lemma HeldNames(lower: Lowercasing, held: (bool, bool, bool), c: string, s: string, a: string,
                  cc: Byte, sc: Byte, ac: Byte)
    requires ModifierOf(lower, c) == Some(cc) && ModifierOf(lower, s) == Some(sc) && ModifierOf(lower, a) == Some(ac)
    requires PLUS !in c && PLUS !in s && PLUS !in a
    ensures AreModifiers(lower, Held(held.0, held.1, held.2, c, s, a), Held(held.0, held.1, held.2, cc, sc, ac))
    ensures forall p :: p in Held(held.0, held.1, held.2, c, s, a) ==> PLUS !in p
  {
  }

  lemma HeldModifiersAreNamed(lower: Lowercasing, ctrl: bool, shift: bool, alt: bool)
    ensures AreModifiers(lower, ModifierNames(ctrl, shift, alt), ModifierCodes(ctrl, shift, alt))
    ensures forall p :: p in ModifierNames(ctrl, shift, alt) ==> PLUS !in p
  {
    NamedModifier(lower, "ctrl", HID_CTRL);
    NamedModifier(lower, "shift", HID_SHIFT);
    NamedModifier(lower, "alt", HID_ALT);
    HeldNames(lower, (ctrl, shift, alt), "ctrl", "shift", "alt", HID_CTRL, HID_SHIFT, HID_ALT);
  }

  /** The encoder of captured keys and the parser of key combos agree: the report built for a key and the
      held modifiers is the one its text denotes. */
  lemma EncodersAgree(lower: Lowercasing, ctrl: bool, shift: bool, alt: bool, key: Key)
    requires KeyCode(key).Some? && !IsModifier(key)
    ensures Denotes(lower, Join(ModifierNames(ctrl, shift, alt) + [KeyText(key)]),
                    HidReport(ctrl, shift, alt, KeyCode(key)).value)
  {
    KeyTextIsNamed(key);
    PlainTextIsLower(lower, KeyText(key));
    HeldModifiersAreNamed(lower, ctrl, shift, alt);
    JoinedNamesDenote(lower, ModifierNames(ctrl, shift, alt), KeyText(key),
                      ModifierCodes(ctrl, shift, alt), KeyCode(key).value);
  }

  // ---- Other names --------------------------------------------------------

  /** Every modifier name stands for the left-hand key of its class. */
  lemma ModifierNamesAreKeys(name: string)
    ensures name == "ctrl" || name == "control" <==> ModifierCode(name) == KeyToHid(ControlLeft)
    ensures name == "shift" <==> ModifierCode(name) == KeyToHid(ShiftLeft)
    ensures name == "alt" <==> ModifierCode(name) == KeyToHid(Alt)
    ensures name == "meta" || name == "win" || name == "cmd" || name == "gui"
       <==> ModifierCode(name) == KeyToHid(MetaLeft)
    ensures ModifierCode(name).Some? ==>
              ModifierCode(name) in {KeyToHid(ControlLeft), KeyToHid(ShiftLeft), KeyToHid(Alt), KeyToHid(MetaLeft)}
  {
  }

  lemma LongNames()
    ensures NamedKeyCode("enter") == KeyToHid(Return) && NamedKeyCode("esc") == KeyToHid(Escape)
    ensures NamedKeyCode("del") == KeyToHid(Delete) && NamedKeyCode("space") == KeyToAscii(Space)
  {
  }

  lemma PageNames()
    ensures NamedKeyCode("pgup") == KeyToHid(PageUp)
    ensures NamedKeyCode("pgdn") == KeyToHid(PageDown) && NamedKeyCode("pgdown") == KeyToHid(PageDown)
  {
  }

  /** The second names of keys stand for the same keys as the first. */
  lemma SecondNamesAreKeys()
    ensures NamedKeyCode("enter") == KeyToHid(Return) && NamedKeyCode("esc") == KeyToHid(Escape)
    ensures NamedKeyCode("del") == KeyToHid(Delete) && NamedKeyCode("space") == KeyToAscii(Space)
    ensures NamedKeyCode("pgup") == KeyToHid(PageUp)
    ensures NamedKeyCode("pgdn") == KeyToHid(PageDown) && NamedKeyCode("pgdown") == KeyToHid(PageDown)
  {
    LongNames();
    PageNames();
  }

  /** A name of more than one character is refused unless it is the name of a special key or the space bar, and a
      name of one character unless it is an ASCII character. */
  lemma OtherNamesAreRefused(name: string)
    requires NamedKeyCode(name).Some? && |name| != 1
    ensures NamedKeyCode(name).value == ' ' as int || KeyWithCode(NamedKeyCode(name).value).Some?
    ensures NamedKeyCode(name).value == ' ' as int || NamedKeyCode(name).value >= 0xB0
  {
  }

  lemma ExampleJoined()
    ensures Join(["ctrl", "shift", "t"]) == "ctrl+shift+t"
  {
    var parts := ["ctrl", "shift", "t"];
    assert parts[1..] == ["shift", "t"] && ["shift", "t"][1..] == ["t"];
    assert Join(["shift", "t"]) == "shift" + [PLUS] + Join(["t"]) == "shift+t";
  }

  lemma ExampleReport()
    ensures HidReport(true, true, false, Some(0x74)) == Some([0x80, 0x81, 0, 0, 0, 0x74, 0, 0])
  {
    assert ModifierCodes(true, true, false) == [0x80, 0x81];
    ReportIsOne([0x80, 0x81], 0x74, [0x80, 0x81, 0, 0, 0, 0x74, 0, 0]);
  }

  /** The example of the documentation: Ctrl, Shift and T. */
  lemma DocumentedExample(lower: Lowercasing)
    ensures Denotes(lower, "ctrl+shift+t", [0x80, 0x81, 0, 0, 0, 't' as int, 0, 0])
  {
    assert KeyToHid(KeyT).None? && KeyToAscii(KeyT) == Some(0x74);
    EncodersAgree(lower, true, true, false, KeyT);
    assert ModifierNames(true, true, false) + [KeyText(KeyT)] == ["ctrl", "shift", "t"];
    ExampleJoined();
    ExampleReport();
  }
}
