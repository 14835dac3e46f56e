// Transaction-level control messages: A2 (received), N2 (send these again),
// S2 (stored), and the Q1A/Q1N forms older peers still send.
module Control {
  import opened Prelude
  import opened Base36
  import opened Carriage
  import Base91

  datatype Control = Ack(transactionId: string) | Missing(transactionId: string, indices: set<nat>)

  function Tagged(tag: string, payload: Bytes): string {
    tag + Base91.Encoded(payload)
  }

  function EncodeAck(transactionId: string): Result<string, CarriageError> {
    var n :- TransactionByte(transactionId);
    Ok(Tagged("A2", [n]))
  }

  function EncodeStored(transactionId: string): Result<string, CarriageError> {
    var n :- TransactionByte(transactionId);
    Ok(Tagged("S2", [n]))
  }

  // The 16-bit mask with exactly the bits of `indices` below n.
  function MaskBelow(indices: set<nat>, n: nat): nat {
    if n == 0 then 0
    else BitOr(MaskBelow(indices, n - 1), if n - 1 in indices then Pow2(n - 1) else 0)
  }

  function EncodeMissing(transactionId: string, indices: set<nat>): Result<string, CarriageError> {
    if exists i :: i in indices && i >= 16 then Err(BadIndex)
    else if indices == {} then Err(BadIndex)
    else
      var n :- TransactionByte(transactionId);
      MaskBelowBits(indices, 16);
      var mask := MaskBelow(indices, 16);
      Pow2Values();
      Ok(Tagged("N2", [n, mask / 256, mask % 256]))
  }

  lemma {:induction false} MaskBelowBits(indices: set<nat>, n: nat)
    ensures MaskBelow(indices, n) < Pow2(n)
    ensures forall i: nat :: Bit(MaskBelow(indices, n), i) <==> i < n && i in indices
  {
    if n == 0 {
      forall i: nat
        ensures !Bit(0, i)
      {
        BitOfZero(i);
      }
    } else {
      MaskBelowBits(indices, n - 1);
      var low, high := MaskBelow(indices, n - 1), if n - 1 in indices then Pow2(n - 1) else 0;
      Pow2Monotone(n - 1, n);
      OrBound(low, high, n);
      forall i: nat
        ensures Bit(MaskBelow(indices, n), i) <==> i < n && i in indices
      {
        BitOfOr(low, high, i);
        BitOfZero(i);
        BitOfPow2(n - 1, i);
      }
    }
  }

  // The source's loop meets the indices in no particular order.
  method BuildMissing(transactionId: string, indices: set<nat>) returns (r: Result<string, CarriageError>)
    ensures r == EncodeMissing(transactionId, indices)
  {
    var mask: nat, rest := 0, indices;
    Pow2Values();
    forall i: nat
      ensures !Bit(0, i)
    {
      BitOfZero(i);
    }
    while rest != {}
      invariant rest <= indices && mask < Pow2(16)
      invariant forall i :: i in indices && i !in rest ==> i < 16
      invariant forall i: nat :: Bit(mask, i) <==> i in indices - rest
      decreases rest
    {
      var index :| index in rest;
      if index >= 16 {
        return Err(BadIndex);
      }
      MaskGains(mask, index, indices - rest);
      mask := BitOr(mask, Pow2(index));
      rest := rest - {index};
    }
    MaskBelowBits(indices, 16);
    BitsDetermine(mask, MaskBelow(indices, 16), 16);
    if indices != {} {
      MaskGivesIndices(indices);
    }
    if mask == 0 {
      return Err(BadIndex);
    }
    MaskNonzero(indices);
    var n := TransactionByte(transactionId);
    if n.Err? {
      return Err(n.error);
    }
    r := Ok(Tagged("N2", [n.value, mask / 256, mask % 256]));
  }

  lemma MaskGains(mask: nat, index: nat, held: set<nat>)
    requires mask < Pow2(16) && index < 16
    requires forall i: nat :: Bit(mask, i) <==> i in held
    ensures BitOr(mask, Pow2(index)) < Pow2(16)
    ensures forall i: nat :: Bit(BitOr(mask, Pow2(index)), i) <==> i in held + {index}
  {
    Pow2Monotone(index + 1, 16);
    OrBound(mask, Pow2(index), 16);
    forall i: nat
      ensures Bit(BitOr(mask, Pow2(index)), i) <==> i in held + {index}
    {
      BitOfOr(mask, Pow2(index), i);
      BitOfPow2(index, i);
    }
  }

  lemma MaskNonzero(indices: set<nat>)
    requires MaskBelow(indices, 16) != 0
    ensures indices != {}
  {
    MaskBelowBits({}, 16);
    forall i: nat
      ensures !Bit(0, i)
    {
      BitOfZero(i);
    }
    assert Pow2(16) > 0;
    BitsDetermine(MaskBelow({}, 16), 0, 16);
  }

  // ----------------------------------------------------------------- parsing

  function SingleByte(text: string): Option<string> {
    match Base91.Decoded(text)
    case Err(_) => None
    case Ok(payload) => if |payload| == 1 then Some(TransactionText(payload[0])) else None
  }

  function ParseStored(body: string): Option<string> {
    if StartsWith(body, "S2") then SingleByte(body[2..]) else None
  }

  function IndicesOf(mask: nat): set<nat> {
    set i: nat | i < 16 && Bit(mask, i)
  }

  function HexValue(c: char): Option<nat> {
    if '0' <= c <= '9' then Some(c as int - '0' as int)
    else if 'A' <= c <= 'F' then Some(c as int - 'A' as int + 10)
    else None
  }

  function ParseHex4(text: string): Option<nat>
    requires |text| == 4
  {
    var a :- HexValue(text[0]);
    var b :- HexValue(text[1]);
    var c :- HexValue(text[2]);
    var d :- HexValue(text[3]);
    Some(((a * 16 + b) * 16 + c) * 16 + d)
  }

  function MissingOf(transactionId: string, mask: nat): Option<Control> {
    if mask == 0 then None else Some(Missing(transactionId, IndicesOf(mask)))
  }

  function ParseLegacy(body: string): Option<Control> {
    if |body| == 7 && body[..4] == "Q1A:" && IsBase36(body[4..7]) then Some(Ack(body[4..7]))
    else if |body| == 12 && body[..4] == "Q1N:" && IsBase36(body[4..7]) && body[7] == ':' then
      var mask :- ParseHex4(body[8..12]);
      MissingOf(body[4..7], mask)
    else None
  }

  function ParseControl(body: string): Option<Control> {
    if StartsWith(body, "A2") then
      var id :- SingleByte(body[2..]);
      Some(Ack(id))
    else if StartsWith(body, "N2") then
      match Base91.Decoded(body[2..])
      case Err(_) => None
      case Ok(payload) =>
        if |payload| != 3 then None
        else MissingOf(TransactionText(payload[0]), payload[1] as int * 256 + payload[2] as int)
    else ParseLegacy(body)
  }

  // ---------------------------------------------------------------- theorems

  lemma TaggedParses(tag: string, payload: Bytes)
    requires |tag| == 2 && payload != []
    ensures StartsWith(Tagged(tag, payload), tag)
    ensures Base91.Decoded(Tagged(tag, payload)[2..]) == Ok(payload)
  {
    Base91.RoundTrip(payload);
    assert Tagged(tag, payload)[2..] == Base91.Encoded(payload);
  }

  lemma AckRoundTrip(transactionId: string)
    requires TransactionByte(transactionId).Ok?
    ensures EncodeAck(transactionId).Ok?
    ensures ParseControl(EncodeAck(transactionId).value) == Some(Ack(transactionId))
  {
    TaggedParses("A2", [TransactionByte(transactionId).value]);
    TransactionTextRoundTrip(transactionId);
  }

  lemma StoredRoundTrip(transactionId: string)
    requires TransactionByte(transactionId).Ok?
    ensures EncodeStored(transactionId).Ok?
    ensures ParseStored(EncodeStored(transactionId).value) == Some(transactionId)
    ensures ParseControl(EncodeStored(transactionId).value) == None
  {
    TaggedParses("S2", [TransactionByte(transactionId).value]);
    TransactionTextRoundTrip(transactionId);
    var body := EncodeStored(transactionId).value;
    assert body[0] == 'S';
    NotLegacy(body);
  }

  lemma NotLegacy(body: string)
    requires body != "" && !StartsWith(body, "Q1")
    ensures ParseLegacy(body) == None
  {
    if |body| >= 4 {
      assert body[..2] == body[..4][..2];
    }
  }

  // An N2 asks for exactly the indices it was built from.
  lemma MissingRoundTrip(transactionId: string, indices: set<nat>)
    requires TransactionByte(transactionId).Ok?
    requires indices != {} && forall i :: i in indices ==> i < 16
    ensures EncodeMissing(transactionId, indices).Ok?
    ensures ParseControl(EncodeMissing(transactionId, indices).value) == Some(Missing(transactionId, indices))
  {
    MaskBelowBits(indices, 16);
    Pow2Values();
    var mask := MaskBelow(indices, 16);
    var payload: Bytes := [TransactionByte(transactionId).value, mask / 256, mask % 256];
    TaggedParses("N2", payload);
    TransactionTextRoundTrip(transactionId);
    assert payload[1] as int * 256 + payload[2] as int == mask;
    MaskGivesIndices(indices);
  }

  lemma MaskGivesIndices(indices: set<nat>)
    requires indices != {} && forall i :: i in indices ==> i < 16
    ensures MaskBelow(indices, 16) != 0 && IndicesOf(MaskBelow(indices, 16)) == indices
  {
    MaskBelowBits(indices, 16);
    var i :| i in indices;
    BitOfZero(i);
  }

  // No control parser takes a Q2 fragment for itself.
  lemma FragmentIsNoControl(body: string)
    requires StartsWith(body, "Q2")
    ensures ParseControl(body) == None && ParseStored(body) == None
  {
    assert body[0] == 'Q' && body[1] == '2';
    NotLegacy(body);
  }

  // Only the two data prefixes can start a fragment.
  lemma OtherPrefixIsNoFragment(body: string)
    requires !StartsWith(body, "Q2") && !StartsWith(body, "Q1:")
    ensures ParseFragment(body).Err?
  {
    SplitKeepsHead(body);
    var (carriage, id) := SplitMessageId(body);
    if |carriage| > 13 {
      assert carriage[..3] == body[..3];
    }
  }

  lemma {:induction false} SplitKeepsHead(body: string)
    ensures var (carriage, id) := SplitMessageId(body);
            |carriage| <= |body| && body[..|carriage|] == carriage
    decreases |body|
  {
    if '{' in body && body[|body| - 1] != '{' {
      SplitKeepsHead(body[..|body| - 1]);
    }
  }

  lemma ControlIsNoFragment(tag: string, payload: Bytes)
    requires tag == "A2" || tag == "N2" || tag == "S2"
    ensures ParseFragment(Tagged(tag, payload)).Err?
  {
    var body := Tagged(tag, payload);
    assert body[0] == tag[0] != 'Q';
    OtherPrefixIsNoFragment(body);
  }
}
