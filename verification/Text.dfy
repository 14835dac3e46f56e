// Text fields as bytes: which byte strings are UTF-8, field limits, callsigns.
module Text {
  import opened Prelude

  predicate Continuation(b: byte) {
    0x80 <= b <= 0xBF
  }

  // Length of the well-formed UTF-8 character that starts `s`, or 0
  // (the syntax table in section 4 of RFC 3629).
  function CharacterLength(s: Bytes): (n: nat)
    ensures n <= |s| && n <= 4
  {
    if |s| >= 1 && s[0] <= 0x7F then 1
    else if |s| >= 2 && 0xC2 <= s[0] <= 0xDF && Continuation(s[1]) then 2
    else if |s| >= 3 && SecondOfThree(s[0], s[1]) && Continuation(s[2]) then 3
    else if |s| >= 4 && SecondOfFour(s[0], s[1]) && Continuation(s[2]) && Continuation(s[3]) then 4
    else 0
  }

  predicate SecondOfThree(first: byte, second: byte) {
    if first == 0xE0 then 0xA0 <= second <= 0xBF
    else if first == 0xED then 0x80 <= second <= 0x9F
    else 0xE1 <= first <= 0xEF && Continuation(second)
  }

  predicate SecondOfFour(first: byte, second: byte) {
    if first == 0xF0 then 0x90 <= second <= 0xBF
    else if first == 0xF4 then 0x80 <= second <= 0x8F
    else 0xF1 <= first <= 0xF3 && Continuation(second)
  }

  predicate IsUtf8(s: Bytes) {
    s == [] || (CharacterLength(s) > 0 && IsUtf8(s[CharacterLength(s)..]))
  }

  predicate Printable(s: Bytes) {
    forall i :: 0 <= i < |s| ==> 0x20 <= s[i] <= 0x7E
  }

  lemma {:induction false} PrintableIsUtf8(s: Bytes)
    requires Printable(s)
    ensures IsUtf8(s)
  {
    if s == [] {
    } else {
      PrintableIsUtf8(s[1..]);
    }
  }

  predicate ValidText(s: Bytes, minimum: nat, maximum: nat) {
    minimum <= |s| <= maximum && 0 !in s && IsUtf8(s)
  }

  predicate IsLetter(b: byte) {
    'A' as int <= b <= 'Z' as int
  }

  predicate IsDigit(b: byte) {
    '0' as int <= b <= '9' as int
  }

  predicate IsCallsign(s: Bytes) {
    && 3 <= |s| <= 12
    && (forall i :: 0 <= i < |s| ==> IsLetter(s[i]) || IsDigit(s[i]))
    && (exists i :: 0 <= i < |s| && IsLetter(s[i]))
    && (exists i :: 0 <= i < |s| && IsDigit(s[i]))
  }

  lemma CallsignIsText(s: Bytes)
    requires IsCallsign(s)
    ensures ValidText(s, 3, 12)
  {
    PrintableIsUtf8(s);
  }

  // -------------------------------------------------- big-endian integers

  function U32Bytes(v: nat): (s: Bytes)
    requires v <= MAX_U32
    ensures |s| == 4
  {
    [v / 256 / 256 / 256, v / 256 / 256 % 256, v / 256 % 256, v % 256]
  }

  function U32Value(s: Bytes): (v: nat)
    requires |s| == 4
    ensures v <= MAX_U32
  {
    ((s[0] as int * 256 + s[1] as int) * 256 + s[2] as int) * 256 + s[3] as int
  }

  lemma U32RoundTrip(v: nat)
    requires v <= MAX_U32
    ensures U32Value(U32Bytes(v)) == v
  {
  }

  lemma U32Canonical(s: Bytes)
    requires |s| == 4
    ensures U32Bytes(U32Value(s)) == s
  {
    var a := s[0] as int * 256 + s[1] as int;
    var b := a * 256 + s[2] as int;
    LastByte(s[0] as int, s[1]);
    LastByte(a, s[2]);
    LastByte(b, s[3]);
  }

  lemma LastByte(high: int, low: byte)
    ensures (high * 256 + low as int) / 256 == high && (high * 256 + low as int) % 256 == low as int
  {
  }
}
