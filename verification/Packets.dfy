/** The payloads sent to the device: mouse frames, keyboard text cut into messages of at most
    one hundred characters, and key codes. */
module Packets {
  import opened Basics

  const CHUNK: nat := 100
  const I32_MIN: int := -0x8000_0000
  const I32_MAX: int := 0x7FFF_FFFF

  datatype Frame = Frame(x: int, y: int)

  datatype EncryptedData =
    | MousePacket(numFrames: nat, frames: seq<Frame>, lClick: int, rClick: int, wheel: int)
    | KeyboardPacket(length: nat, message: string)
    | KeycodePacket(length: nat, code: Bytes)
    | ConsumerControlPacket(codes: seq<nat>, length: nat)
    | MouseJigglePacket(enable: bool)

  function AsU32(n: nat): nat { n % 0x1_0000_0000 }

  /** Rounds half away from zero. */
  function Round(r: real): int {
    if r >= 0.0 then (r + 0.5).Floor else -((0.5 - r).Floor)
  }

  /** The saturating cast from a float to a 32-bit integer. */
  function AsI32(n: int): int {
    if n < I32_MIN then I32_MIN else if n > I32_MAX then I32_MAX else n
  }

  function CreateMousePacket(x: real, y: real, left: bool, right: bool, wheel: int): EncryptedData {
    MousePacket(1, [Frame(AsI32(Round(x)), AsI32(Round(y)))],
                if left then 1 else 0, if right then 1 else 0, wheel)
  }

  function CreateKeyboardPacket(text: string): EncryptedData {
    KeyboardPacket(AsU32(|text|), text)
  }

  function CreateKeycodePacket(code: Bytes): EncryptedData {
    KeycodePacket(AsU32(|code|), code)
  }

  function CreateConsumerControlPacket(code: nat): EncryptedData {
    ConsumerControlPacket([code], 1)
  }

  function CreateMouseJigglePacket(enable: bool): EncryptedData {
    MouseJigglePacket(enable)
  }

  function CreateKeyboardStream(input: string): (packets: seq<EncryptedData>)
    ensures forall p :: p in packets ==> p.KeyboardPacket?
  {
    if input == [] then []
    else if |input| <= CHUNK then [CreateKeyboardPacket(input)]
    else [CreateKeyboardPacket(input[..CHUNK])] + CreateKeyboardStream(input[CHUNK..])
  }

  function Messages(packets: seq<EncryptedData>): string
    requires forall p :: p in packets ==> p.KeyboardPacket?
  {
    if packets == [] then [] else packets[0].message + Messages(packets[1..])
  }

  function Min(a: nat, b: nat): nat { if a < b then a else b }

  // ---- Mouse rounding -----------------------------------------------------

  lemma RoundIsClose(r: real)
    ensures -0.5 <= Round(r) as real - r <= 0.5
  {
    if r >= 0.0 {
      FloorIsClose(r + 0.5);
    } else {
      FloorIsClose(0.5 - r);
    }
  }

  /** Halves are rounded away from zero, alike on both sides. */
  lemma RoundsHalvesAway(n: int)
    requires n >= 0
    ensures Round(n as real + 0.5) == n + 1 && Round(-(n as real + 0.5)) == -(n + 1)
  {
    CastsAdd(n, 1);
    FloorIs(n as real + 0.5 + 0.5, n + 1);
    assert 0.5 - -(n as real + 0.5) == n as real + 0.5 + 0.5;
  }

  /** The cast gives the 32-bit integer that is nearest. */
  lemma CastIsNearest(n: int, m: int)
    requires I32_MIN <= m <= I32_MAX
    ensures -0x8000_0000 <= AsI32(n) <= 0x7FFF_FFFF
    ensures (if AsI32(n) < n then n - AsI32(n) else AsI32(n) - n) <= if m < n then n - m else m - n
  {
  }

  lemma RoundIsExact(r: real, n: int)
    requires r == n as real
    ensures Round(r) == n
  {
    if r >= 0.0 {
      FloorIs(r + 0.5, n);
    } else {
      FloorIs(0.5 - r, -n);
    }
  }

  // ---- Chunking -----------------------------------------------------------

  lemma SliceOfRest<T>(xs: seq<T>, n: nat, from: nat, to: nat)
    requires n <= |xs| && from <= to <= |xs| - n
    ensures xs[n..][from..to] == xs[from + n..to + n]
  {
  }

  /** Message k is exactly characters 100k to 100k+99 of the input; only the last may be shorter. */
  lemma {:induction false} ChunkAt(input: string, k: nat)
    requires k < |CreateKeyboardStream(input)|
    ensures CHUNK * k < |input|
    ensures CreateKeyboardStream(input)[k]
         == KeyboardPacket(Min(CHUNK, |input| - CHUNK * k), input[CHUNK * k..Min(CHUNK * (k + 1), |input|)])
  {
    if |input| <= CHUNK {
      assert input[..|input|] == input;
    } else if k > 0 {
      var rest := input[CHUNK..];
      var from, to := CHUNK * (k - 1), Min(CHUNK * k, |rest|);
      ChunkAt(rest, k - 1);
      assert CHUNK * k == from + CHUNK && Min(CHUNK * (k + 1), |input|) == to + CHUNK;
      assert CreateKeyboardStream(input)[k] == CreateKeyboardStream(rest)[k - 1];
      SliceOfRest(input, CHUNK, from, to);
    }
  }

  lemma {:induction false} ChunkCount(input: string)
    ensures |CreateKeyboardStream(input)| == (|input| + CHUNK - 1) / CHUNK
  {
    if |input| > CHUNK {
      ChunkCount(input[CHUNK..]);
    }
  }

  /** A device that received the first k messages holds exactly the first min(100k, n) characters;
      all of them together are the input. */
  lemma {:induction false} PrefixDelivered(input: string, k: nat)
    requires k <= |CreateKeyboardStream(input)|
    ensures Messages(CreateKeyboardStream(input)[..k]) == input[..Min(CHUNK * k, |input|)]
    ensures k == |CreateKeyboardStream(input)| ==> Messages(CreateKeyboardStream(input)[..k]) == input
  {
    var stream := CreateKeyboardStream(input);
    if k == 0 {
    } else if |input| <= CHUNK {
      assert stream[..k] == stream;
      assert Messages(stream) == input + Messages([]);
    } else {
      var rest := input[CHUNK..];
      PrefixDelivered(rest, k - 1);
      assert stream[1..] == CreateKeyboardStream(rest);
      assert stream[..k][1..] == CreateKeyboardStream(rest)[..k - 1];
      assert stream[..k][0] == CreateKeyboardPacket(input[..CHUNK]);
      assert input[..CHUNK] + rest[..Min(CHUNK * (k - 1), |rest|)] == input[..Min(CHUNK * k, |input|)];
      assert input == input[..CHUNK] + rest;
    }
  }

  // ---- Clipboard text -----------------------------------------------------

  /** The characters with the Unicode property White_Space. */
  predicate IsWhitespace(c: char) {
    var n := c as int;
    || 0x09 <= n <= 0x0D || n == 0x20 || n == 0x85 || n == 0xA0 || n == 0x1680
    || 0x2000 <= n <= 0x200A || n == 0x2028 || n == 0x2029 || n == 0x202F || n == 0x205F || n == 0x3000
  }

  predicate IsAsciiGraphic(c: char) { '!' <= c <= '~' }

  predicate Typeable(c: char) { IsAsciiGraphic(c) || c == ' ' }

  function TrimStart(s: string): string {
    if s != [] && IsWhitespace(s[0]) then TrimStart(s[1..]) else s
  }

  function TrimEnd(s: string): string {
    if s != [] && IsWhitespace(Last(s)) then TrimEnd(DropLast(s)) else s
  }

  function Trim(s: string): string { TrimEnd(TrimStart(s)) }

  function Filter(keep: char -> bool, s: string): string {
    if s == [] then []
    else if keep(s[0]) then [s[0]] + Filter(keep, s[1..])
    else Filter(keep, s[1..])
  }

  function Sanitize(text: string): string { Filter(Typeable, Trim(text)) }

  function Utf8Length(s: string): nat {
    if s == [] then 0
    else (var n := s[0] as int; if n < 0x80 then 1 else if n < 0x800 then 2 else if n < 0x1_0000 then 3 else 4)
         + Utf8Length(s[1..])
  }

  lemma {:induction false} FilterKeeps(keep: char -> bool, s: string)
    ensures forall c :: c in Filter(keep, s) ==> keep(c)
    ensures IsSubsequence(Filter(keep, s), s)
  {
    if s != [] {
      FilterKeeps(keep, s[1..]);
      var f := Filter(keep, s);
      if keep(s[0]) {
        assert f[1..] == Filter(keep, s[1..]);
      }
    }
  }

  /** Filtering keeps every character that is to be kept as often as it occurs. */
  lemma {:induction false} FilterCounts(keep: char -> bool, s: string, c: char)
    ensures multiset(Filter(keep, s))[c] == if keep(c) then multiset(s)[c] else 0
  {
    if s != [] {
      FilterCounts(keep, s[1..], c);
      assert s == [s[0]] + s[1..];
    }
  }

  predicate AllWhitespace(s: string) { forall i :: 0 <= i < |s| ==> IsWhitespace(s[i]) }

  lemma {:induction false} TrimStartCuts(s: string) returns (before: string)
    ensures s == before + TrimStart(s) && AllWhitespace(before)
    ensures TrimStart(s) != [] ==> !IsWhitespace(TrimStart(s)[0])
  {
    before := [];
    if s != [] && IsWhitespace(s[0]) {
      var rest := TrimStartCuts(s[1..]);
      before := [s[0]] + rest;
    }
  }

  lemma {:induction false} TrimEndCuts(s: string) returns (after: string)
    ensures s == TrimEnd(s) + after && AllWhitespace(after)
    ensures TrimEnd(s) != [] ==> !IsWhitespace(Last(TrimEnd(s)))
  {
    after := [];
    if s != [] && IsWhitespace(Last(s)) {
      var rest := TrimEndCuts(DropLast(s));
      after := rest + [Last(s)];
      assert s == DropLast(s) + [Last(s)];
    }
  }

  /** Trimming cuts off whitespace at both ends and nothing else, and all of it. */
  lemma TrimCutsWhitespace(s: string) returns (before: string, after: string)
    ensures s == before + Trim(s) + after && AllWhitespace(before) && AllWhitespace(after)
    ensures Trim(s) != [] ==> !IsWhitespace(Trim(s)[0]) && !IsWhitespace(Last(Trim(s)))
  {
    before := TrimStartCuts(s);
    after := TrimEndCuts(TrimStart(s));
    assert before + (Trim(s) + after) == before + Trim(s) + after;
  }

  /** Every typeable character between the first and the last that is not whitespace is kept, as often as it occurs. */
  lemma SanitizeKeepsCounts(text: string, c: char)
    ensures multiset(Sanitize(text))[c] == if c == ' ' || '!' <= c <= '~' then multiset(Trim(text))[c] else 0
  {
    FilterCounts(Typeable, Trim(text), c);
  }

  lemma {:induction false} FilterTwice(inner: char -> bool, outer: char -> bool, s: string)
    requires forall c :: outer(c) ==> inner(c)
    ensures Filter(outer, Filter(inner, s)) == Filter(outer, s)
  {
    if s != [] {
      FilterTwice(inner, outer, s[1..]);
      if inner(s[0]) {
        assert Filter(inner, s)[1..] == Filter(inner, s[1..]);
      }
    }
  }

  lemma {:induction false} FilterAppend(keep: char -> bool, a: string, b: string)
    ensures Filter(keep, a + b) == Filter(keep, a) + Filter(keep, b)
  {
    if a == [] {
      assert a + b == b;
    } else {
      assert (a + b)[1..] == a[1..] + b;
      FilterAppend(keep, a[1..], b);
    }
  }

  lemma {:induction false} TrimStartKeepsGraphic(s: string)
    ensures Filter(IsAsciiGraphic, TrimStart(s)) == Filter(IsAsciiGraphic, s)
    ensures forall sub :: IsSubsequence(sub, TrimStart(s)) ==> IsSubsequence(sub, s)
  {
    if s != [] && IsWhitespace(s[0]) {
      TrimStartKeepsGraphic(s[1..]);
    }
  }

  lemma {:induction false} SubsequenceExtends<T>(sub: seq<T>, xs: seq<T>, x: T)
    requires IsSubsequence(sub, xs)
    ensures IsSubsequence(sub, xs + [x])
  {
    if sub != [] {
      assert (xs + [x])[1..] == xs[1..] + [x];
      if sub[0] == xs[0] && IsSubsequence(sub[1..], xs[1..]) {
        SubsequenceExtends(sub[1..], xs[1..], x);
      } else {
        SubsequenceExtends(sub, xs[1..], x);
      }
    }
  }

  lemma {:induction false} TrimEndKeepsGraphic(s: string, sub: string)
    requires IsSubsequence(sub, TrimEnd(s))
    ensures Filter(IsAsciiGraphic, TrimEnd(s)) == Filter(IsAsciiGraphic, s)
    ensures IsSubsequence(sub, s)
  {
    if s != [] && IsWhitespace(Last(s)) {
      var p, c := DropLast(s), Last(s);
      assert s == p + [c];
      TrimEndKeepsGraphic(p, sub);
      SubsequenceExtends(sub, p, c);
      FilterAppend(IsAsciiGraphic, p, [c]);
      assert [c][1..] == [];
    }
  }

  /** Sanitized clipboard text is an in-order part of the original, holds only characters the
      keyboard can type, and loses no graphic ASCII character. */
  lemma SanitizeKeepsTypeableText(text: string)
    ensures IsSubsequence(Sanitize(text), text)
    ensures forall c :: c in Sanitize(text) ==> Typeable(c)
    ensures Filter(IsAsciiGraphic, Sanitize(text)) == Filter(IsAsciiGraphic, text)
  {
    var t := TrimStart(text);
    FilterKeeps(Typeable, Trim(text));
    TrimEndKeepsGraphic(t, Sanitize(text));
    TrimStartKeepsGraphic(text);
    FilterTwice(Typeable, IsAsciiGraphic, Trim(text));
  }

  lemma {:induction false} AsciiIsOneByteEach(s: string)
    requires forall c :: c in s ==> Typeable(c)
    ensures Utf8Length(s) == |s|
  {
    if s != [] {
      assert s[0] in s && forall c :: c in s[1..] ==> c in s;
      AsciiIsOneByteEach(s[1..]);
    }
  }

  /** No message typed from the clipboard takes more than one hundred bytes. */
  lemma ClipboardMessagesFit(text: string, k: nat)
    requires k < |CreateKeyboardStream(Sanitize(text))|
    ensures var m := CreateKeyboardStream(Sanitize(text))[k];
            0 < m.length == |m.message| == Utf8Length(m.message) <= CHUNK
  {
    var clean := Sanitize(text);
    SanitizeKeepsTypeableText(text);
    ChunkAt(clean, k);
    var m := CreateKeyboardStream(clean)[k].message;
    assert forall c :: c in m ==> c in clean;
    AsciiIsOneByteEach(m);
  }
}
