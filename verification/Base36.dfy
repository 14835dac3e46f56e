// Fixed-width upper-case base-36 numbers.
module Base36 {
  import opened Prelude

  function Digit(i: nat): char
    requires i < 36
  {
    if i < 10 then '0' + i as char else 'A' + (i - 10) as char
  }

  predicate IsDigit36(c: char) {
    '0' <= c <= '9' || 'A' <= c <= 'Z'
  }

  function DigitValue(c: char): (i: nat)
    requires IsDigit36(c)
    ensures i < 36
  {
    if c <= '9' then c as int - '0' as int else c as int - 'A' as int + 10
  }

  predicate IsBase36(text: string) {
    forall i :: 0 <= i < |text| ==> IsDigit36(text[i])
  }

  function Pow36(width: nat): (p: nat)
    ensures p > 0
  {
    if width == 0 then 1 else 36 * Pow36(width - 1)
  }

  function Digits(value: nat, width: nat): (text: string)
    ensures |text| == width && IsBase36(text)
  {
    if width == 0 then "" else Digits(value / 36, width - 1) + [Digit(value % 36)]
  }

  function Number(text: string): nat
    requires IsBase36(text)
  {
    if text == "" then 0 else 36 * Number(text[..|text| - 1]) + DigitValue(text[|text| - 1])
  }

  // `None` where the source raises.
  function Render36(value: int, width: nat): Option<string> {
    if 0 <= value < Pow36(width) then Some(Digits(value, width)) else None
  }

  function Parse36(text: string, width: nat): Option<nat> {
    if |text| == width && IsBase36(text) then Some(Number(text)) else None
  }

  method RenderBase36(value: int, width: nat) returns (r: Option<string>)
    ensures r == Render36(value, width)
  {
    if value < 0 || value >= Pow36(width) {
      return None;
    }
    var rest: nat, text := value, "";
    for i := 0 to width
      invariant Digits(value, width) == Digits(rest, width - i) + text
    {
      assert Digits(rest, width - i) + text
          == Digits(rest / 36, width - i - 1) + ([Digit(rest % 36)] + text);
      text := [Digit(rest % 36)] + text;
      rest := rest / 36;
    }
    assert "" + text == text;
    r := Some(text);
  }

  lemma {:induction false} DigitsRoundTrip(value: nat, width: nat)
    requires value < Pow36(width)
    ensures Number(Digits(value, width)) == value
  {
    if width == 0 {
    } else {
      var text := Digits(value, width);
      assert text[..|text| - 1] == Digits(value / 36, width - 1);
      DigitsRoundTrip(value / 36, width - 1);
    }
  }

  lemma {:induction false} NumberRoundTrip(text: string)
    requires IsBase36(text)
    ensures Number(text) < Pow36(|text|)
    ensures Digits(Number(text), |text|) == text
  {
    if text == "" {
    } else {
      NumberRoundTrip(text[..|text| - 1]);
      assert text == text[..|text| - 1] + [text[|text| - 1]];
    }
  }

  // Rendering and parsing are inverse wherever either is defined.
  lemma RoundTrips(value: int, text: string, width: nat)
    ensures Render36(value, width) == Some(text) <==> Parse36(text, width).Some? && Parse36(text, width).value == value
  {
    if 0 <= value < Pow36(width) {
      DigitsRoundTrip(value, width);
    }
    if |text| == width && IsBase36(text) {
      NumberRoundTrip(text);
    }
  }

  lemma Pow36Values()
    ensures Pow36(2) == 1296 && Pow36(3) == 46656
  {
    assert Pow36(1) == 36;
  }
}
