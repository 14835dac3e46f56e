// APRS message bodies that carry pieces of Core frames: the compact Q2
// profile, and the Q1 profile whose payload text stays opaque here.
module Carriage {
  import opened Prelude
  import opened Base36
  import opened Codec
  import Base91

  const CHUNK_SIZE: nat := 50
  const Q1_CHUNK_SIZE: nat := 48
  const MAX_FRAGMENTS: nat := 16
  const MAX_BODY: nat := 67

  datatype CarriageError =
    | BadTransaction | BadSize | BadFrame | TooManyFragments | BadIndex | MissingRaw | BodyTooLong
    | BadText | Truncated | BadMessageId | Malformed

  datatype Fragment = Fragment(
    transactionId: string,
    index: int,
    total: int,
    data: string,
    messageId: Option<string>,
    version: nat,
    rawData: Option<Bytes>)

  function TransactionByte(transactionId: string): Result<byte, CarriageError> {
    match Parse36(transactionId, 3)
    case None => Err(BadTransaction)
    case Some(n) => if n > 0xFF then Err(BadTransaction) else Ok(n)
  }

  function TransactionText(n: byte): (text: string)
    ensures |text| == 3 && IsBase36(text)
  {
    Digits(n, 3)
  }

  function Descriptor(index: nat, total: nat): nat
    requires 0 < total
  {
    BitOr(Shl(index, 4), total - 1)
  }

  function BodyQ2(f: Fragment): Result<string, CarriageError> {
    var transaction :- TransactionByte(f.transactionId);
    if !(0 <= f.index < f.total <= MAX_FRAGMENTS) then Err(BadIndex)
    else if f.rawData.None? then Err(MissingRaw)
    else
      DescriptorFits(f.index, f.total);
      var text := "Q2" + Base91.Encoded([transaction, Descriptor(f.index, f.total) as byte] + f.rawData.value);
      if |text| > MAX_BODY then Err(BodyTooLong) else Ok(text)
  }

  function BodyQ1(f: Fragment): Result<string, CarriageError> {
    match (Render36(f.index, 2), Render36(f.total, 2))
    case (Some(index), Some(total)) =>
      var text := "Q1:" + f.transactionId + ":" + index + "/" + total + ":" + f.data;
      Ok(if f.messageId.None? then text else text + "{" + f.messageId.value)
    case _ => Err(BadIndex)
  }

  function Body(f: Fragment): Result<string, CarriageError> {
    if f.version == 2 then BodyQ2(f) else BodyQ1(f)
  }

  // ------------------------------------------------------------- fragmenting

  function Chunks(frame: Bytes): (chunks: seq<Bytes>)
    ensures |chunks| == (|frame| + 49) / 50
    ensures forall i :: 0 <= i < |chunks| ==> chunks[i] == frame[50 * i..Min(50 * i + 50, |frame|)]
  {
    seq((|frame| + 49) / 50, i requires 0 <= i < (|frame| + 49) / 50 => frame[50 * i..Min(50 * i + 50, |frame|)])
  }

  function FragmentOf(transactionId: string, chunks: seq<Bytes>, i: nat): Fragment
    requires i < |chunks|
  {
    Fragment(transactionId, i, |chunks|, Base91.Encoded(chunks[i]), None, 2, Some(chunks[i]))
  }

  function Fragments(transactionId: string, chunks: seq<Bytes>): (fs: seq<Fragment>)
    ensures |fs| == |chunks|
    ensures forall i :: 0 <= i < |fs| ==> fs[i] == FragmentOf(transactionId, chunks, i)
  {
    seq(|chunks|, i requires 0 <= i < |chunks| => FragmentOf(transactionId, chunks, i))
  }

  function FragmentFrame(frame: Bytes, transactionId: string): Result<seq<Fragment>, CarriageError> {
    var transaction :- TransactionByte(transactionId);
    if frame == [] || |frame| > MAX_FRAME_SIZE then Err(BadSize)
    else if DecodeFrameWithFlags(frame).Err? then Err(BadFrame)
    else if |Chunks(frame)| > MAX_FRAGMENTS then Err(TooManyFragments)
    else
      var fragments := Fragments(transactionId, Chunks(frame));
      if exists i :: 0 <= i < |fragments| && Body(fragments[i]).Err? then Err(BodyTooLong)
      else Ok(fragments)
  }

  // ----------------------------------------------------------------- parsing

  predicate StartsWith(text: string, prefix: string) {
    |prefix| <= |text| && text[..|prefix|] == prefix
  }

  function ParseQ2(body: string): Result<Fragment, CarriageError>
    requires |body| >= 2
  {
    if '{' in body then Err(BadMessageId)
    else match Base91.Decoded(body[2..])
      case Err(_) => Err(BadText)
      case Ok(decoded) =>
        if |decoded| < 3 then Err(Truncated)
        else
          var index, total := decoded[1] / 16, decoded[1] % 16 + 1;
          var raw := decoded[2..];
          if index >= total then Err(BadIndex)
          else if |raw| > CHUNK_SIZE then Err(BadSize)
          else Ok(Fragment(TransactionText(decoded[0]), index, total, Base91.Encoded(raw), None, 2, Some(raw)))
  }

  predicate IsUrlSafe(c: char) {
    'A' <= c <= 'Z' || 'a' <= c <= 'z' || '0' <= c <= '9' || c == '_' || c == '-'
  }

  predicate IsQ1Data(data: string) {
    1 <= |data| <= Q1_CHUNK_SIZE && forall i :: 0 <= i < |data| ==> IsUrlSafe(data[i])
  }

  predicate IsMessageId(id: string) {
    1 <= |id| <= 5 && IsBase36(id)
  }

  // Everything before and after the last '{', when there is one.
  function SplitMessageId(body: string): (string, Option<string>)
    decreases |body|
  {
    if '{' !in body then (body, None)
    else
      var last := |body| - 1;
      if body[last] == '{' then (body[..last], Some(""))
      else
        var (carriage, id) := SplitMessageId(body[..last]);
        (carriage, if id.Some? then Some(id.value + [body[last]]) else None)
  }

  function ParseQ1(carriage: string, messageId: Option<string>): Result<Fragment, CarriageError> {
    if !(|carriage| > 13 && carriage[..3] == "Q1:" && carriage[6] == ':' && carriage[9] == '/' && carriage[12] == ':'
         && IsBase36(carriage[3..6]) && IsBase36(carriage[7..9]) && IsBase36(carriage[10..12])
         && IsQ1Data(carriage[13..])) then Err(Malformed)
    else
      var index, total := Number(carriage[7..9]), Number(carriage[10..12]);
      if !(1 <= total <= MAX_FRAGMENTS) || index >= total then Err(BadIndex)
      else Ok(Fragment(carriage[3..6], index, total, carriage[13..], messageId, 1, None))
  }

  function ParseFragment(body: string): Result<Fragment, CarriageError> {
    if StartsWith(body, "Q2") then ParseQ2(body)
    else
      var (carriage, messageId) := SplitMessageId(body);
      if messageId.Some? && !IsMessageId(messageId.value) then Err(BadMessageId)
      else ParseQ1(carriage, messageId)
  }

  // ---------------------------------------------------------------- theorems

  lemma DescriptorFits(index: nat, total: nat)
    requires index < total <= MAX_FRAGMENTS
    ensures Descriptor(index, total) == 16 * index + (total - 1) < 256
  {
    ShlValues(index);
    OrCommutes(Shl(index, 4), total - 1);
    assert Pow2(4) == 16;
    OrDisjoint(total - 1, index, 4);
  }

  lemma TransactionRoundTrip(n: byte)
    ensures TransactionByte(TransactionText(n)) == Ok(n)
  {
    Pow36Values();
    DigitsRoundTrip(n, 3);
  }

  lemma TransactionTextRoundTrip(text: string)
    requires TransactionByte(text).Ok?
    ensures TransactionText(TransactionByte(text).value) == text
  {
    NumberRoundTrip(text);
  }

  // The fragments Q2 can carry.
  predicate ValidQ2(f: Fragment) {
    && f.version == 2 && f.messageId == None
    && TransactionByte(f.transactionId).Ok?
    && 0 <= f.index < f.total <= MAX_FRAGMENTS
    && f.rawData.Some? && 1 <= |f.rawData.value| <= CHUNK_SIZE
    && f.data == Base91.Encoded(f.rawData.value)
  }

  // Every valid Q2 fragment fits one APRS message and parses back unchanged.
  lemma Q2RoundTrip(f: Fragment)
    requires ValidQ2(f)
    ensures Body(f).Ok? && |Body(f).value| <= MAX_BODY && StartsWith(Body(f).value, "Q2")
    ensures ParseFragment(Body(f).value) == Ok(f)
  {
    hide TransactionByte, Base91.Encoded, ParseQ2, Descriptor;
    DescriptorFits(f.index, f.total);
    var transaction := TransactionByte(f.transactionId).value;
    var payload: Bytes := [transaction, (16 * f.index + f.total - 1) as byte] + f.rawData.value;
    Base91.SizeBound(payload);
    PayloadParses(f, payload);
  }

  lemma PayloadParses(f: Fragment, payload: Bytes)
    requires ValidQ2(f) && |payload| >= 3
    requires payload[0] == TransactionByte(f.transactionId).value
    requires payload[1] == 16 * f.index + f.total - 1 && payload[2..] == f.rawData.value
    ensures ParseQ2("Q2" + Base91.Encoded(payload)) == Ok(f)
  {
    var text := "Q2" + Base91.Encoded(payload);
    assert text[2..] == Base91.Encoded(payload);
    NoBrace(payload);
    Base91.RoundTrip(payload);
    TransactionTextRoundTrip(f.transactionId);
    assert payload[1] / 16 == f.index && payload[1] % 16 + 1 == f.total;
  }

  lemma NoBrace(payload: Bytes)
    ensures '{' !in "Q2" + Base91.Encoded(payload)
  {
    Base91.SizeBound(payload);
    var text := Base91.Encoded(payload);
    forall i | 0 <= i < |text|
      ensures text[i] != '{'
    {
      assert Base91.SymbolIndex(text[i]).Some?;
    }
  }

  // Whatever the parser accepts as Q2 is a fragment the sender could have made.
  lemma Q2ParsesValid(body: string)
    requires StartsWith(body, "Q2") && ParseFragment(body).Ok?
    ensures ValidQ2(ParseFragment(body).value)
  {
    TransactionRoundTrip(Base91.Decoded(body[2..]).value[0]);
  }

  function Concat(parts: seq<Bytes>): Bytes {
    if parts == [] then [] else Concat(parts[..|parts| - 1]) + parts[|parts| - 1]
  }

  lemma {:induction false} ChunkPrefix(frame: Bytes, n: nat)
    requires n <= |Chunks(frame)|
    ensures Concat(Chunks(frame)[..n]) == frame[..Min(50 * n, |frame|)]
  {
    if n == 0 {
    } else {
      var chunks := Chunks(frame);
      ChunkPrefix(frame, n - 1);
      assert chunks[..n][..n - 1] == chunks[..n - 1];
      assert frame[..Min(50 * n, |frame|)] == frame[..50 * (n - 1)] + chunks[n - 1];
    }
  }

  lemma ChunksJoin(frame: Bytes)
    ensures Concat(Chunks(frame)) == frame
  {
    ChunkPrefix(frame, |Chunks(frame)|);
    assert Chunks(frame)[..|Chunks(frame)|] == Chunks(frame);
  }

  // Fragmenting succeeds for every frame the decoder accepts, and each piece
  // survives the trip through an APRS message body.
  lemma FragmentingIsTotal(frame: Bytes, n: byte)
    requires DecodeFrameWithFlags(frame).Ok?
    ensures var r := FragmentFrame(frame, TransactionText(n));
            && r == Ok(Fragments(TransactionText(n), Chunks(frame)))
            && 1 <= |r.value| <= MAX_FRAGMENTS
            && (forall i :: 0 <= i < |r.value| ==>
                  ValidQ2(r.value[i]) && Body(r.value[i]).Ok? && ParseFragment(Body(r.value[i]).value) == Ok(r.value[i]))
  {
    TransactionRoundTrip(n);
    var fragments := Fragments(TransactionText(n), Chunks(frame));
    forall i | 0 <= i < |fragments|
      ensures ValidQ2(fragments[i]) && Body(fragments[i]).Ok?
      ensures ParseFragment(Body(fragments[i]).value) == Ok(fragments[i])
    {
      Q2RoundTrip(fragments[i]);
    }
  }

  // ---------------------------------------------------------------------- Q1

  predicate ValidQ1(f: Fragment) {
    && f.version == 1 && f.rawData == None
    && |f.transactionId| == 3 && IsBase36(f.transactionId)
    && 0 <= f.index < f.total <= MAX_FRAGMENTS
    && IsQ1Data(f.data)
    && (f.messageId.Some? ==> IsMessageId(f.messageId.value))
  }

  lemma {:induction false} SplitFinds(carriage: string, id: string)
    requires '{' !in carriage && '{' !in id
    ensures SplitMessageId(carriage + "{" + id) == (carriage, Some(id))
    decreases |id|
  {
    var body := carriage + "{" + id;
    assert body[|carriage|] == '{';
    if id == "" {
      assert body[..|body| - 1] == carriage;
    } else {
      var shorter := id[..|id| - 1];
      assert body[..|body| - 1] == carriage + "{" + shorter;
      SplitFinds(carriage, shorter);
      assert id == shorter + [id[|id| - 1]];
    }
  }

  // A Q1 fragment's body parses back to it, message id included.
  lemma Q1RoundTrip(f: Fragment)
    requires ValidQ1(f)
    ensures Body(f).Ok? && ParseFragment(Body(f).value) == Ok(f)
  {
    Pow36Values();
    var text := BodyQ1(f.(messageId := None)).value;
    Q1Shape(f, text);
    Q1ShapeParses(f, text);
    if f.messageId.Some? {
      SplitFinds(text, f.messageId.value);
      assert Body(f).value[..2] == "Q1";
    }
  }

  lemma Q1ShapeParses(f: Fragment, text: string)
    requires ValidQ1(f)
    requires |text| > 13 && text[..3] == "Q1:" && text[3..6] == f.transactionId && text[6] == ':'
    requires text[7..9] == Digits(f.index, 2) && text[9] == '/' && text[10..12] == Digits(f.total, 2)
    requires text[12] == ':' && text[13..] == f.data
    ensures ParseQ1(text, f.messageId) == Ok(f)
  {
    Pow36Values();
    DigitsRoundTrip(f.index, 2);
    DigitsRoundTrip(f.total, 2);
  }

  lemma Q1Shape(f: Fragment, text: string)
    requires ValidQ1(f) && BodyQ1(f.(messageId := None)) == Ok(text)
    ensures |text| > 13 && text[..3] == "Q1:" && text[3..6] == f.transactionId && text[6] == ':'
    ensures text[7..9] == Digits(f.index, 2) && text[9] == '/' && text[10..12] == Digits(f.total, 2)
    ensures text[12] == ':' && text[13..] == f.data && '{' !in text && text[..2] == "Q1"
  {
    Pow36Values();
    var head := "Q1:" + f.transactionId + ":" + Digits(f.index, 2) + "/" + Digits(f.total, 2) + ":";
    assert text == head + f.data;
    forall i | 0 <= i < |f.data|
      ensures f.data[i] != '{'
    {
      assert IsUrlSafe(f.data[i]);
    }
    assert '{' !in head;
  }
}
