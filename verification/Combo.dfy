/** Key combos written as text, such as "ctrl+shift+t", and the eight-byte reports they denote. */
module Combo {
  import opened Basics

  const PLUS: char := '+'
  const MODIFIER_SLOTS: nat := 5

  // ---- Splitting ----------------------------------------------------------

  /** The parts between the plus signs; an empty string has one empty part. */
  function Split(s: string): (parts: seq<string>)
    ensures parts != []
    ensures forall p :: p in parts ==> PLUS !in p
  {
    if s == [] then [[]]
    else
      var rest := Split(s[1..]);
      if s[0] == PLUS then [[]] + rest
      else [[s[0]] + rest[0]] + rest[1..]
  }

  function Join(parts: seq<string>): string
    requires parts != []
  {
    if |parts| == 1 then parts[0] else parts[0] + [PLUS] + Join(parts[1..])
  }

  lemma {:induction false} SplitPlain(p: string)
    requires PLUS !in p
    ensures Split(p) == [p]
  {
    if p != [] {
      SplitPlain(p[1..]);
      assert [p[0]] + p[1..] == p;
    }
  }

  lemma {:induction false} SplitAtPlus(p: string, tail: string)
    requires PLUS !in p
    ensures Split(p + [PLUS] + tail) == [p] + Split(tail)
  {
    var s := p + [PLUS] + tail;
    if p == [] {
      assert s[1..] == tail;
    } else {
      assert s[1..] == p[1..] + [PLUS] + tail;
      SplitAtPlus(p[1..], tail);
      assert [p[0]] + p[1..] == p;
    }
  }

  /** Splitting undoes joining for parts that hold no plus sign... */
  lemma {:induction false} SplitUndoesJoin(parts: seq<string>)
    requires parts != [] && forall p :: p in parts ==> PLUS !in p
    ensures Split(Join(parts)) == parts
  {
    assert parts[0] in parts;
    if |parts| == 1 {
      SplitPlain(parts[0]);
    } else {
      assert forall p :: p in parts[1..] ==> p in parts;
      SplitUndoesJoin(parts[1..]);
      SplitAtPlus(parts[0], Join(parts[1..]));
    }
  }

  /** ...and joining undoes splitting on every string. */
  lemma {:induction false} JoinUndoesSplit(s: string)
    ensures Join(Split(s)) == s
  {
    if s != [] {
      JoinUndoesSplit(s[1..]);
      var rest, parts := Split(s[1..]), Split(s);
      if s[0] == PLUS {
        assert parts[1..] == rest;
      } else if |rest| > 1 {
        assert parts[1..] == rest[1..];
        assert [s[0]] + rest[0] + [PLUS] + Join(rest[1..]) == [s[0]] + Join(rest);
      }
    }
  }

  // ---- Letter case --------------------------------------------------------

  predicate IsAscii(s: string) { forall i :: 0 <= i < |s| ==> s[i] as int < 0x80 }

  function LowerChar(c: char): char {
    if 'A' <= c <= 'Z' then (c as int + 32) as char else c
  }

  function AsciiLower(s: string): string { seq(|s|, i requires 0 <= i < |s| => LowerChar(s[i])) }

  /** What the parser relies on in Unicode lower-casing: on ASCII text it is ASCII lower-casing, ASCII case
      makes no difference to it, and it never invents a plus sign. */
  ghost predicate IsLowercasing(f: string -> string) {
    && (forall s :: IsAscii(s) ==> f(s) == AsciiLower(s))
    && (forall s :: f(AsciiLower(s)) == f(s))
    && (forall s :: PLUS !in s ==> PLUS !in f(s))
  }

  type Lowercasing = f: string -> string | IsLowercasing(f)
    ghost witness (AsciiLowerIsLowercasing(); AsciiLower)

  lemma AsciiLowerIsLowercasing()
    ensures IsLowercasing(AsciiLower)
  {
    forall s: string
      ensures AsciiLower(AsciiLower(s)) == AsciiLower(s)
      ensures PLUS !in s ==> PLUS !in AsciiLower(s)
    {
    }
  }

  // ---- Names --------------------------------------------------------------

  /** Code of a lower-case modifier name. */
  function ModifierCode(name: string): Option<Byte> {
    if name == "ctrl" || name == "control" then Some(0x80)
    else if name == "shift" then Some(0x81)
    else if name == "alt" then Some(0x82)
    else if name == "meta" || name == "win" || name == "cmd" || name == "gui" then Some(0x83)
    else None
  }

  function FunctionKeyCode(name: string): Option<Byte> {
    if name == "f1" then Some(0xC2)
    else if name == "f2" then Some(0xC3)
    else if name == "f3" then Some(0xC4)
    else if name == "f4" then Some(0xC5)
    else if name == "f5" then Some(0xC6)
    else if name == "f6" then Some(0xC7)
    else if name == "f7" then Some(0xC8)
    else if name == "f8" then Some(0xC9)
    else if name == "f9" then Some(0xCA)
    else if name == "f10" then Some(0xCB)
    else if name == "f11" then Some(0xCC)
    else if name == "f12" then Some(0xCD)
    else None
  }

  /** Code of a lower-case key name; any one-byte name stands for itself. */
  function NamedKeyCode(name: string): Option<Byte> {
    if name == "return" || name == "enter" then Some(0xB0)
    else if name == "backspace" then Some(0xB2)
    else if name == "tab" then Some(0xB3)
    else if name == "escape" || name == "esc" then Some(0xB1)
    else if name == "delete" || name == "del" then Some(0xD4)
    else if name == "insert" then Some(0xD1)
    else if name == "home" then Some(0xD2)
    else if name == "end" then Some(0xD5)
    else if name == "pageup" || name == "pgup" then Some(0xD3)
    else if name == "pagedown" || name == "pgdn" || name == "pgdown" then Some(0xD6)
    else if name == "up" then Some(0xDA)
    else if name == "down" then Some(0xD9)
    else if name == "left" then Some(0xD8)
    else if name == "right" then Some(0xD7)
    else if FunctionKeyCode(name).Some? then FunctionKeyCode(name)
    else if name == "space" then Some(0x20)
    else if |name| == 1 && name[0] as int < 0x80 then Some(name[0] as int)
    else None
  }

  function ModifierOf(lower: Lowercasing, name: string): Option<Byte> { ModifierCode(lower(name)) }

  function KeyOf(lower: Lowercasing, name: string): Option<Byte> { NamedKeyCode(lower(name)) }

  // ---- Reports ------------------------------------------------------------

  /** Eight bytes: the first five modifier codes from byte 0 on, the key in byte 5, zeros elsewhere. */
  function Report(mods: seq<Byte>, key: Byte): (r: Bytes)
    ensures |r| == 8
  {
    seq(8, i requires 0 <= i < 8 =>
      if i == MODIFIER_SLOTS then key else if i < MODIFIER_SLOTS && i < |mods| then mods[i] else 0)
  }

  lemma ReportExtends(mods: seq<Byte>, code: Byte)
    ensures |mods| < MODIFIER_SLOTS ==> Report(mods, 0)[|mods| := code] == Report(mods + [code], 0)
    ensures Report(mods, 0)[5 := code] == Report(mods, code)
  {
  }

  ghost predicate AreModifiers(lower: Lowercasing, names: seq<string>, codes: seq<Byte>) {
    && |names| == |codes|
    && forall i :: 0 <= i < |names| ==> ModifierOf(lower, names[i]) == Some(codes[i])
  }

  /** Byte 5 is the key, bytes 0 to 4 are the first five modifier codes and then zeros, bytes 6 and 7 are zero. */
  predicate IsReport(r: Bytes, mods: seq<Byte>, key: Byte) {
    && |r| == 8 && r[5] == key && r[6] == 0 && r[7] == 0
    && forall i :: 0 <= i < 5 ==> r[i] == if i < |mods| then mods[i] else 0
  }

  lemma ReportIsOne(mods: seq<Byte>, key: Byte, r: Bytes)
    ensures IsReport(r, mods, key) <==> r == Report(mods, key)
  {
  }

  /** The parse of `s` is `r`: the parts before the last are modifier names, the last one is a key. */
  ghost predicate Denotes(lower: Lowercasing, s: string, r: Bytes) {
    exists codes: seq<Byte>, key: Byte ::
      && AreModifiers(lower, DropLast(Split(s)), codes)
      && KeyOf(lower, Last(Split(s))) == Some(key)
      && IsReport(r, codes, key)
  }

  method ParseKeyCombo(lower: Lowercasing, keyStr: string) returns (result: Option<Bytes>)
    ensures result.Some? ==> Denotes(lower, keyStr, result.value)
    ensures result.None? ==> forall r :: !Denotes(lower, keyStr, r)
  {
    var parts := Split(keyStr);
    var report := new Byte[8](_ => 0);
    var modIdx := 0;
    var mods, main := DropLast(parts), Last(parts);
    ghost var codes: seq<Byte> := [];
    for i := 0 to |mods|
      invariant fresh(report)
      invariant AreModifiers(lower, mods[..i], codes)
      invariant modIdx == if i < MODIFIER_SLOTS then i else MODIFIER_SLOTS
      invariant forall j :: 0 <= j < 8 ==> report[j] == if j < modIdx then codes[j] else 0
    {
      var code := ModifierOf(lower, mods[i]);
      if code.None? {
        forall r
          ensures !Denotes(lower, keyStr, r)
        {
          assert ModifierOf(lower, DropLast(Split(keyStr))[i]).None?;
        }
        return None;
      }
      if modIdx < MODIFIER_SLOTS {
        report[modIdx] := code.value;
        modIdx := modIdx + 1;
      }
      codes := codes + [code.value];
      assert mods[..i + 1] == mods[..i] + [mods[i]];
    }
    assert mods[..|mods|] == mods;
    var key := KeyOf(lower, main);
    if key.None? {
      return None;
    }
    report[5] := key.value;
    assert IsReport(report[..], codes, key.value);
    return Some(report[..]);
  }

  // ---- Properties of the parse --------------------------------------------

  /** A string denotes at most one report. */
  lemma DenotesOnce(lower: Lowercasing, s: string, r: Bytes, r': Bytes)
    requires Denotes(lower, s, r) && Denotes(lower, s, r')
    ensures r == r'
  {
    var codes: seq<Byte>, key: Byte :|
      && AreModifiers(lower, DropLast(Split(s)), codes)
      && KeyOf(lower, Last(Split(s))) == Some(key)
      && IsReport(r, codes, key);
    var codes': seq<Byte>, key': Byte :|
      && AreModifiers(lower, DropLast(Split(s)), codes')
      && KeyOf(lower, Last(Split(s))) == Some(key')
      && IsReport(r', codes', key');
    forall i | 0 <= i < |codes|
      ensures codes[i] == codes'[i]
    {
      assert ModifierOf(lower, DropLast(Split(s))[i]) == Some(codes[i]);
    }
    assert codes == codes';
    ReportIsOne(codes, key, r);
    ReportIsOne(codes, key, r');
  }

  /** Any list of modifier names and a key name, joined with plus signs, denotes their report. */
  lemma JoinedNamesDenote(lower: Lowercasing, mods: seq<string>, key: string, codes: seq<Byte>, code: Byte)
    requires forall p :: p in mods + [key] ==> PLUS !in p
    requires AreModifiers(lower, mods, codes)
    requires KeyOf(lower, key) == Some(code)
    ensures Denotes(lower, Join(mods + [key]), Report(codes, code))
  {
    var parts := mods + [key];
    SplitUndoesJoin(parts);
    assert DropLast(parts) == mods && Last(parts) == key;
    ReportIsOne(codes, code, Report(codes, code));
  }

  /** Conversely every accepted string is such a list, and its report never types a plus sign. */
  lemma AcceptedShape(lower: Lowercasing, s: string, r: Bytes)
    returns (mods: seq<string>, key: string, codes: seq<Byte>, code: Byte)
    requires Denotes(lower, s, r)
    ensures s == Join(mods + [key])
    ensures AreModifiers(lower, mods, codes) && KeyOf(lower, key) == Some(code)
    ensures IsReport(r, codes, code) && r[5] != PLUS as int
  {
    var parts := Split(s);
    JoinUndoesSplit(s);
    mods, key := DropLast(parts), Last(parts);
    assert mods + [key] == parts;
    var cs: seq<Byte>, c: Byte :|
      && AreModifiers(lower, mods, cs) && KeyOf(lower, key) == Some(c) && IsReport(r, cs, c);
    codes, code := cs, c;
    assert key in parts && PLUS !in key;
    NeverPlus(lower(key));
  }

  lemma NeverPlus(name: string)
    requires PLUS !in name
    ensures NamedKeyCode(name) != Some(PLUS as int)
  {
    if |name| == 1 {
      assert name[0] in name;
    }
  }

  lemma OneByteName(c: Byte)
    requires c < 0x80
    ensures NamedKeyCode([c as char]) == Some(c)
  {
  }

  lemma {:induction false} SplitIgnoresCase(s: string)
    ensures |Split(AsciiLower(s))| == |Split(s)|
    ensures forall i :: 0 <= i < |Split(s)| ==> Split(AsciiLower(s))[i] == AsciiLower(Split(s)[i])
  {
    if s == [] {
      assert AsciiLower(s) == [];
    } else {
      var t := AsciiLower(s);
      assert t[1..] == AsciiLower(s[1..]);
      SplitIgnoresCase(s[1..]);
      var rest := Split(s[1..]);
      assert AsciiLower([]) == [];
      assert AsciiLower([s[0]] + rest[0]) == [LowerChar(s[0])] + AsciiLower(rest[0]);
    }
  }

  /** ASCII letter case makes no difference to the parse. */
  lemma ParseIgnoresCase(lower: Lowercasing, s: string, r: Bytes)
    ensures Denotes(lower, s, r) <==> Denotes(lower, AsciiLower(s), r)
  {
    var a, b := Split(s), Split(AsciiLower(s));
    SplitIgnoresCase(s);
    assert forall i :: 0 <= i < |a| ==> lower(b[i]) == lower(a[i]);
    forall codes: seq<Byte>
      ensures AreModifiers(lower, DropLast(a), codes) <==> AreModifiers(lower, DropLast(b), codes)
    {
      assert forall i :: 0 <= i < |a| - 1 ==>
        ModifierOf(lower, DropLast(a)[i]) == ModifierOf(lower, DropLast(b)[i]);
    }
    assert KeyOf(lower, Last(a)) == KeyOf(lower, Last(b));
  }
}
