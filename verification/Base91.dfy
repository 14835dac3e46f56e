// basE91 over the APRS-safe alphabet: a bit stream cut into 13- or 14-bit
// groups, each written as two of 91 characters.
module Base91 {
  import opened Prelude

  datatype CodecError = EmptyText | BadCharacter

  // The alphabet is '!'..'z' followed by '}'; '{', '|' and '~' are left out.
  function Symbol(i: nat): (c: char)
    requires i < 91
    ensures '!' <= c <= '}' && c != '{' && c != '|'
  {
    if i < 90 then (33 + i) as char else '}'
  }

  function SymbolIndex(c: char): (i: Option<nat>)
    ensures i.Some? ==> i.value < 91
  {
    if '!' <= c <= 'z' then Some(c as int - 33)
    else if c == '}' then Some(90)
    else None
  }

  lemma SymbolRoundTrip(i: nat)
    requires i < 91
    ensures SymbolIndex(Symbol(i)) == Some(i)
  {
  }

  predicate Alphabetic(text: string) {
    forall i :: 0 <= i < |text| ==> SymbolIndex(text[i]).Some?
  }

  // ---------------------------------------------------------------- encoding

  // `value` holds the low `bits` bits that no character carries yet.
  datatype EncState = EncState(value: nat, bits: nat, out: string)

  function Pair(group: nat): (text: string)
    requires group < 91 * 91
    ensures |text| == 2 && Alphabetic(text)
  {
    [Symbol(group % 91), Symbol(group / 91)]
  }

  function Feed(s: EncState, b: byte): EncState {
    var value := BitOr(s.value, Shl(b, s.bits));
    var bits := s.bits + 8;
    if bits <= 13 then EncState(value, bits, s.out)
    else if value % 8192 > 88 then EncState(value / 8192, bits - 13, s.out + Pair(value % 8192))
    else EncState(value / 16384, bits - 14, s.out + Pair(value % 16384))
  }

  // Either kind of group fits in two characters, and says which kind it is.
  lemma GroupWidth(value: nat)
    ensures value % 8192 / 91 < 91
    ensures value % 8192 <= 88 ==> value % 16384 < 91 * 91 && value % 16384 / 91 < 91
    ensures value % 16384 % 8192 == value % 8192
  {
    var q, r := value / 8192, value % 8192;
    TwoHalves(q / 2, q % 2, r);
    assert value == 16384 * (q / 2) + (8192 * (q % 2) + r);
  }

  lemma TwoHalves(high: nat, carry: nat, low: nat)
    requires carry < 2 && low < 8192
    ensures (16384 * high + (8192 * carry + low)) % 16384 == 8192 * carry + low
  {
  }

  function FeedAll(data: Bytes): EncState {
    if |data| == 0 then EncState(0, 0, "")
    else Feed(FeedAll(data[..|data| - 1]), data[|data| - 1])
  }

  // A left-over that needs more than one character gets two.
  predicate TwoTailSymbols(s: EncState) {
    s.bits > 7 || s.value > 90
  }

  function Tail(s: EncState): string
    requires s.value < 91 * 91
  {
    if s.bits == 0 then ""
    else if TwoTailSymbols(s) then Pair(s.value)
    else [Symbol(s.value % 91)]
  }

  function Encoded(data: Bytes): string {
    FeedAllBounds(data);
    FeedAll(data).out + Tail(FeedAll(data))
  }

  method Encode(data: Bytes) returns (text: string)
    ensures text == Encoded(data)
  {
    var value, bits := 0, 0;
    text := "";
    for i := 0 to |data|
      invariant FeedAll(data[..i]) == EncState(value, bits, text)
    {
      assert data[..i + 1][..i] == data[..i];
      ghost var before := EncState(value, bits, text);
      value := BitOr(value, Shl(data[i], bits));
      bits := bits + 8;
      GroupWidth(value);
      if bits > 13 {
        var group := value % 8192;
        if group > 88 {
          value := value / 8192;
          bits := bits - 13;
        } else {
          group := value % 16384;
          value := value / 16384;
          bits := bits - 14;
        }
        text := text + [Symbol(group % 91)];
        text := text + [Symbol(group / 91)];
        assert text == before.out + Pair(group);
      }
      assert EncState(value, bits, text) == Feed(before, data[i]);
    }
    assert data[..|data|] == data;
    FeedAllBounds(data);
    ghost var body := text;
    if bits != 0 {
      text := text + [Symbol(value % 91)];
      if bits > 7 || value > 90 {
        text := text + [Symbol(value / 91)];
        assert text == body + Pair(value);
      }
    }
  }

  // ---------------------------------------------------------------- decoding

  // `value` is -1 between pairs, as in the source.
  datatype DecState = DecState(value: int, acc: nat, bits: nat, out: Bytes)

  function GroupBits(group: nat): nat {
    if group % 8192 > 88 then 13 else 14
  }

  function Drain(s: DecState): (r: DecState)
    ensures r.bits < 8 && r.value == s.value
    decreases s.bits
  {
    if s.bits < 8 then s
    else Drain(DecState(s.value, s.acc / 256, s.bits - 8, s.out + [s.acc % 256]))
  }

  function TakeGroup(s: DecState, group: nat, width: nat): DecState {
    Drain(DecState(-1, BitOr(s.acc, Shl(group, s.bits)), s.bits + width, s.out))
  }

  function Absorb(s: DecState, c: char): Option<DecState> {
    var i :- SymbolIndex(c);
    if s.value < 0 then Some(s.(value := i))
    else Some(TakeGroup(s, s.value + i * 91, GroupBits(s.value + i * 91)))
  }

  const START := DecState(-1, 0, 0, [])

  function AbsorbAll(text: string): Option<DecState> {
    if |text| == 0 then Some(START)
    else
      var s :- AbsorbAll(text[..|text| - 1]);
      Absorb(s, text[|text| - 1])
  }

  function Decoded(text: string): Result<Bytes, CodecError> {
    if text == "" then Err(EmptyText)
    else match AbsorbAll(text)
      case None => Err(BadCharacter)
      case Some(s) => Ok(if s.value >= 0 then TakeGroup(s, s.value, 7).out else s.out)
  }

  method DrainBytes(acc0: nat, bits0: nat, out0: Bytes) returns (acc: nat, bits: nat, out: Bytes)
    ensures DecState(-1, acc, bits, out) == Drain(DecState(-1, acc0, bits0, out0))
  {
    acc, bits, out := acc0, bits0, out0;
    while bits >= 8
      invariant Drain(DecState(-1, acc, bits, out)) == Drain(DecState(-1, acc0, bits0, out0))
    {
      out := out + [acc % 256];
      acc := acc / 256;
      bits := bits - 8;
    }
  }

  lemma {:induction false} AbsorbAllStops(text: string, n: nat)
    requires n <= |text| && AbsorbAll(text[..n]).None?
    ensures AbsorbAll(text).None?
    decreases |text| - n
  {
    if n == |text| {
      assert text[..n] == text;
    } else {
      assert text[..n + 1][..n] == text[..n];
      AbsorbAllStops(text, n + 1);
    }
  }

  method Decode(text: string) returns (r: Result<Bytes, CodecError>)
    ensures r == Decoded(text)
  {
    if text == "" {
      return Err(EmptyText);
    }
    var value: int, acc, bits, out := -1, 0, 0, [];
    for i := 0 to |text|
      invariant AbsorbAll(text[..i]) == Some(DecState(value, acc, bits, out))
    {
      assert text[..i + 1][..i] == text[..i];
      var symbol := SymbolIndex(text[i]);
      if symbol.None? {
        AbsorbAllStops(text, i + 1);
        return Err(BadCharacter);
      }
      if value < 0 {
        value := symbol.value;
      } else {
        value := value + symbol.value * 91;
        acc := BitOr(acc, Shl(value, bits));
        bits := bits + if value % 8192 > 88 then 13 else 14;
        acc, bits, out := DrainBytes(acc, bits, out);
        value := -1;
      }
    }
    assert text[..|text|] == text;
    if value >= 0 {
      acc := BitOr(acc, Shl(value, bits));
      acc, bits, out := DrainBytes(acc, bits + 7, out);
    }
    r := Ok(out);
  }

  // -------------------------------------------------------------- round trip

  // The bytes as one little-endian number: what encoder and decoder share.
  ghost function Number(data: Bytes): nat {
    if |data| == 0 then 0
    else Number(data[..|data| - 1]) + Shl(data[|data| - 1], 8 * (|data| - 1))
  }

  lemma {:induction false} NumberBound(data: Bytes)
    ensures Number(data) < Pow2(8 * |data|)
  {
    if |data| == 0 {
    } else {
      var k := |data| - 1;
      NumberBound(data[..k]);
      Pow2Values();
      ShlBound(Number(data[..k]), data[k], 8 * k, 8);
    }
  }

  lemma {:induction false} NumberInjective(a: Bytes, b: Bytes)
    requires |a| == |b| && Number(a) == Number(b)
    ensures a == b
  {
    if |a| == 0 {
    } else {
      var k := |a| - 1;
      NumberBound(a[..k]);
      NumberBound(b[..k]);
      ShlUnique(Number(a[..k]), a[k], Number(b[..k]), b[k], 8 * k);
      NumberInjective(a[..k], b[..k]);
      assert a == a[..k] + [a[k]] && b == b[..k] + [b[k]];
    }
  }

  // What the decoder has consumed, as a number: finished bytes below, the
  // accumulator above.
  ghost function Consumed(s: DecState): nat {
    Number(s.out) + Shl(s.acc, 8 * |s.out|)
  }

  ghost function Position(s: DecState): nat {
    8 * |s.out| + s.bits
  }

  ghost predicate Settled(s: DecState) {
    s.bits < 8 && s.acc < Pow2(s.bits)
  }

  lemma {:induction false} DrainConserves(s: DecState)
    requires s.acc < Pow2(s.bits)
    ensures Settled(Drain(s))
    ensures Position(Drain(s)) == Position(s)
    ensures Consumed(Drain(s)) == Consumed(s)
    decreases s.bits
  {
    if s.bits < 8 {
    } else {
      ByteConserved(s);
      DrainConserves(DecState(s.value, s.acc / 256, s.bits - 8, s.out + [s.acc % 256]));
    }
  }

  lemma ByteConserved(s: DecState)
    requires s.acc < Pow2(s.bits) && s.bits >= 8
    ensures var t := DecState(s.value, s.acc / 256, s.bits - 8, s.out + [s.acc % 256]);
            t.acc < Pow2(t.bits) && Position(t) == Position(s) && Consumed(t) == Consumed(s)
  {
    var high, low, at := s.acc / 256, s.acc % 256, 8 * |s.out|;
    ShlValues(high);
    ShiftedOutBound(low, high, 8, s.bits - 8);
    var out := s.out + [low];
    assert out[..|out| - 1] == s.out;
    assert Number(out) == Number(s.out) + Shl(low, at);
    ShlSum(low, Shl(high, 8), at);
    ShlShl(high, 8, at);
  }

  lemma TakeGroupConserves(s: DecState, group: nat, width: nat)
    requires Settled(s) && group < Pow2(width)
    ensures var t := TakeGroup(s, group, width);
            && Settled(t) && t.value == -1
            && Position(t) == Position(s) + width
            && Consumed(t) == Consumed(s) + Shl(group, Position(s))
  {
    OrDisjoint(s.acc, group, s.bits);
    ShlBound(s.acc, group, s.bits, width);
    var full := DecState(-1, s.acc + Shl(group, s.bits), s.bits + width, s.out);
    assert TakeGroup(s, group, width) == Drain(full);
    DrainConserves(full);
    ConsumedAbove(s, full, group);
  }

  lemma ConsumedAbove(s: DecState, full: DecState, group: nat)
    requires full.out == s.out && full.acc == s.acc + Shl(group, s.bits)
    ensures Consumed(full) == Consumed(s) + Shl(group, Position(s))
  {
    var at := 8 * |s.out|;
    ShlSum(s.acc, Shl(group, s.bits), at);
    ShlShl(group, s.bits, at);
  }

  ghost predicate Sound(e: EncState) {
    e.value < Pow2(e.bits) && e.bits <= 13
  }

  lemma FeedBounds(e: EncState, b: byte)
    requires Sound(e)
    ensures BitOr(e.value, Shl(b, e.bits)) == e.value + Shl(b, e.bits) < Pow2(e.bits + 8)
    ensures Sound(Feed(e, b))
  {
    OrDisjoint(e.value, b, e.bits);
    Pow2Values();
    ShlBound(e.value, b, e.bits, 8);
    var value := e.value + Shl(b, e.bits);
    if e.bits + 8 > 13 {
      RestBounds(value, e.bits + 8);
    }
  }

  // What stays behind once a group is taken out.
  lemma RestBounds(value: nat, bits: nat)
    requires 14 <= bits && value < Pow2(bits)
    ensures value / 8192 < Pow2(bits - 13) && value / 16384 < Pow2(bits - 14)
  {
    ShlValues(value / 8192);
    ShlValues(value / 16384);
    ShiftedOutBound(value % 8192, value / 8192, 13, bits - 13);
    ShiftedOutBound(value % 16384, value / 16384, 14, bits - 14);
  }

  lemma {:induction false} FeedAllBounds(data: Bytes)
    ensures Sound(FeedAll(data)) && FeedAll(data).value < 91 * 91
  {
    if |data| == 0 {
    } else {
      FeedAllBounds(data[..|data| - 1]);
      FeedBounds(FeedAll(data[..|data| - 1]), data[|data| - 1]);
    }
    Pow2Values();
    Pow2Monotone(FeedAll(data).bits, 13);
  }

  lemma AbsorbPair(text: string, group: nat)
    requires group < 91 * 91 && AbsorbAll(text).Some? && AbsorbAll(text).value.value == -1
    ensures AbsorbAll(text + Pair(group)) ==
            Some(TakeGroup(AbsorbAll(text).value, group, GroupBits(group)))
  {
    var full := text + Pair(group);
    assert full[..|full| - 1][..|text|] == text;
    assert full[..|full| - 1] == text + [Symbol(group % 91)];
    SymbolRoundTrip(group % 91);
    SymbolRoundTrip(group / 91);
    assert group % 91 + group / 91 * 91 == group;
  }

  // Decoder `d` has read everything encoder `e` wrote, and the encoder's
  // left-over is exactly what is still missing from the input.
  ghost predicate InStep(e: EncState, d: DecState, data: Bytes) {
    && AbsorbAll(e.out) == Some(d)
    && d.value == -1 && Settled(d)
    && Position(d) + e.bits == 8 * |data|
    && Consumed(d) + Shl(e.value, Position(d)) == Number(data)
  }

  lemma {:induction false} Coupled(data: Bytes) returns (d: DecState)
    ensures InStep(FeedAll(data), d, data)
  {
    if |data| == 0 {
      d := START;
    } else {
      var prefix := data[..|data| - 1];
      d := Coupled(prefix);
      FeedAllBounds(prefix);
      d := CoupledStep(FeedAll(prefix), d, prefix, data[|data| - 1]);
      assert prefix + [data[|data| - 1]] == data;
    }
  }

  lemma CoupledStep(e: EncState, d: DecState, data: Bytes, b: byte) returns (d': DecState)
    requires Sound(e) && InStep(e, d, data)
    ensures InStep(Feed(e, b), d', data + [b])
  {
    hide Pow2, Number, Pair, BitOr, AbsorbAll, Shl;
    FeedBounds(e, b);
    NumberOfByte(e, d, data, b);
    var value := e.value + Shl(b, e.bits);
    if e.bits + 8 <= 13 {
      d' := d;
    } else {
      d' := GroupInStep(e.out, d, value, e.bits + 8, data + [b]);
    }
  }

  lemma NumberOfByte(e: EncState, d: DecState, data: Bytes, b: byte)
    requires InStep(e, d, data)
    ensures Consumed(d) + Shl(e.value + Shl(b, e.bits), Position(d)) == Number(data + [b])
  {
    assert (data + [b])[..|data|] == data;
    ShlSum(e.value, Shl(b, e.bits), Position(d));
    ShlShl(b, e.bits, Position(d));
  }

  // The decoder follows when the encoder writes one group.
  lemma GroupInStep(out: string, d: DecState, value: nat, bits: nat, data: Bytes)
    returns (d': DecState)
    requires 14 <= bits && AbsorbAll(out) == Some(d) && d.value == -1 && Settled(d)
    requires Position(d) + bits == 8 * |data|
    requires Consumed(d) + Shl(value, Position(d)) == Number(data)
    ensures InStep(if value % 8192 > 88 then EncState(value / 8192, bits - 13, out + Pair(value % 8192))
                   else EncState(value / 16384, bits - 14, out + Pair(value % 16384)), d', data)
  {
    hide Pow2, Shl, Number, Pair, BitOr, AbsorbAll;
    var width := if value % 8192 > 88 then 13 else 14;
    var low, high := LowBits(value, width);
    AbsorbPair(out, low);
    TakeGroupConserves(d, low, width);
    d' := TakeGroup(d, low, width);
    ShlSum(low, Shl(high, width), Position(d));
    ShlShl(high, width, Position(d));
  }

  // The width the encoder chose is the width the decoder reads off the group.
  lemma LowBits(value: nat, width: nat) returns (low: nat, high: nat)
    requires width == if value % 8192 > 88 then 13 else 14
    ensures value == low + Shl(high, width) && low < Pow2(width)
    ensures low < 91 * 91 && GroupBits(low) == width
    ensures if width == 13 then low == value % 8192 && high == value / 8192
            else low == value % 16384 && high == value / 16384
  {
    Pow2Values();
    if width == 13 {
      low, high := value % 8192, value / 8192;
    } else {
      low, high := value % 16384, value / 16384;
      assert low % 8192 == value % 8192;
    }
    ShlValues(high);
  }

  // Decoding an encoding gives the bytes back, for every non-empty input.
  lemma RoundTrip(data: Bytes)
    requires data != []
    ensures Decoded(Encoded(data)) == Ok(data)
  {
    var e := FeedAll(data);
    var d := Coupled(data);
    FeedAllBounds(data);
    if e.bits == 0 {
      ShlZero(Position(d));
      Finish(d, data);
      assert Encoded(data) == e.out;
    } else {
      TailDecodes(e, d, data);
    }
  }

  // A settled state that has consumed the right number and fewer than eight
  // spare bits holds exactly the input.
  lemma Finish(s: DecState, data: Bytes)
    requires Settled(s) && Consumed(s) == Number(data)
    requires 8 * |data| <= Position(s) < 8 * |data| + 8
    ensures s.out == data
  {
    assert |s.out| == |data|;
    ShlZero(8 * |data|);
    NumberBound(s.out);
    NumberBound(data);
    ShlUnique(Number(s.out), s.acc, Number(data), 0, 8 * |data|);
    NumberInjective(s.out, data);
  }

  lemma TailDecodes(e: EncState, d: DecState, data: Bytes)
    requires InStep(e, d, data) && Sound(e) && 0 < e.bits && e.value < 91 * 91
    ensures Decoded(e.out + Tail(e)) == Ok(data)
  {
    hide Pow2, Shl, Number, BitOr;
    Pow2Values();
    var text := e.out + Tail(e);
    if TwoTailSymbols(e) {
      AbsorbPair(e.out, e.value);
      var width := GroupBits(e.value);
      TailWidth(e);
      TakeGroupConserves(d, e.value, width);
      Finish(TakeGroup(d, e.value, width), data);
    } else {
      assert text[..|text| - 1] == e.out;
      SymbolRoundTrip(e.value);
      var pending := d.(value := e.value);
      Pow2Monotone(e.bits, 7);
      TakeGroupConserves(pending, e.value, 7);
      Finish(TakeGroup(pending, e.value, 7), data);
    }
  }

  lemma TailWidth(e: EncState)
    requires Sound(e) && TwoTailSymbols(e)
    ensures e.value < Pow2(GroupBits(e.value)) && 7 <= e.bits && GroupBits(e.value) - e.bits < 8
  {
    Pow2Values();
    if e.bits < 7 {
      Pow2Monotone(e.bits, 6);
    } else if e.bits == 7 {
    } else {
      Pow2Monotone(e.bits, GroupBits(e.value));
    }
  }

  // -------------------------------------------------------------------- size

  lemma {:induction false} PairsCarryThirteenBits(data: Bytes)
    ensures var e := FeedAll(data);
            |e.out| % 2 == 0 && 13 * (|e.out| / 2) + e.bits <= 8 * |data| && Alphabetic(e.out)
  {
    hide Feed, Alphabetic, Symbol;
    if |data| == 0 {
      NothingWritten();
    } else {
      var prefix := data[..|data| - 1];
      PairsCarryThirteenBits(prefix);
      FeedWritesPairs(FeedAll(prefix), data[|data| - 1]);
      PairExtends(FeedAll(prefix), Feed(FeedAll(prefix), data[|data| - 1]));
    }
  }

  lemma NothingWritten()
    ensures Alphabetic("")
  {
  }

  lemma PairExtends(e: EncState, f: EncState)
    requires |e.out| % 2 == 0 && Alphabetic(e.out)
    requires f.out == e.out || exists g: nat | g < 91 * 91 :: f.out == e.out + Pair(g)
    ensures Alphabetic(f.out) && |f.out| % 2 == 0
    ensures |f.out| == |e.out| || |f.out| == |e.out| + 2
    ensures f.out != e.out ==> |f.out| == |e.out| + 2
  {
    hide Symbol;
  }

  lemma FeedWritesPairs(e: EncState, b: byte)
    ensures var f := Feed(e, b);
            || (f.out == e.out && f.bits == e.bits + 8)
            || (exists g: nat | g < 91 * 91 :: f.out == e.out + Pair(g) && f.bits <= e.bits - 5)
  {
    var value := BitOr(e.value, Shl(b, e.bits));
    if e.bits + 8 > 13 {
      var low, high := LowBits(value, if value % 8192 > 88 then 13 else 14);
    }
  }

  // At most two characters for every started group of 13 bits.
  lemma SizeBound(data: Bytes)
    ensures |Encoded(data)| <= 2 * ((8 * |data| + 12) / 13)
    ensures Alphabetic(Encoded(data))
    ensures data != [] ==> Encoded(data) != ""
  {
    PairsCarryThirteenBits(data);
    FeedAllBounds(data);
    if data != [] && Encoded(data) == "" {
      var d := Coupled(data);
    }
  }

  lemma EncodedInjective(a: Bytes, b: Bytes)
    requires a != [] && b != [] && Encoded(a) == Encoded(b)
    ensures a == b
  {
    RoundTrip(a);
    RoundTrip(b);
  }
}
