/**
 The execute message on its way to the chain: encoded as a cell, placed in an out-action, placed in
 the body of a wallet transfer; and the reader that finds message id and source chain in that body.
 Strings are their UTF-8 bytes.
 */
module ExecuteMessage {
  import opened Wrappers
  import opened Cells
  import opened BufferCell
  import opened Powers

  const OP_RELAYER_EXECUTE: nat := 0x08
  const SEND_MODE_IGNORE_ERRORS: nat := 2
  const ACTION_SEND_MSG: nat := 0x0ec3c86d
  const INTERNAL_TRANSFER: nat := 0xae42e5a4
  const MAX_ACTIONS: nat := 254

  type Text = seq<Byte>

  datatype TonAddress = TonAddress(workchain: int, hash: seq<Byte>) {
    predicate Valid() {
      |hash| == 32
    }

    /** The address written as `addr_none`. */
    predicate Null() {
      workchain == 0 && forall i | 0 <= i < |hash| :: hash[i] == 0
    }
  }

  datatype RelayerExecuteMessage = RelayerExecuteMessage(
    messageId: Text,
    sourceChain: Text,
    sourceAddress: Text,
    destinationChain: Text,
    destinationAddress: TonAddress,
    payload: string,
    relayerAddress: TonAddress) {
    predicate Valid() {
      destinationAddress.Valid() && relayerAddress.Valid()
    }
  }

  function HexDigit(c: char): (r: Option<nat>)
    ensures r.Some? ==> r.value < 16
  {
    if '0' <= c <= '9' then Some(c as int - '0' as int)
    else if 'a' <= c <= 'f' then Some(c as int - 'a' as int + 10)
    else if 'A' <= c <= 'F' then Some(c as int - 'A' as int + 10)
    else None
  }

  function HexDecode(s: string): Option<seq<Byte>>
    decreases |s|
  {
    if s == [] then Some([])
    else if |s| == 1 || HexDigit(s[0]).None? || HexDigit(s[1]).None? || HexDecode(s[2..]).None? then None
    else
      var high, low := HexDigit(s[0]).value, HexDigit(s[1]).value;
      Some([16 * high + low] + HexDecode(s[2..]).value)
  }

  function AddressBits(a: TonAddress): (bits: Bits)
    requires a.Valid()
    ensures |bits| <= 267
  {
    if a.Null() then [false, false]
    else [true, false, false] + ToBits(a.workchain % 256, 8) + BytesToBits(a.hash)
  }

  // ----- Encoding -----

  function InnerCell(m: RelayerExecuteMessage, payload: seq<Byte>, payloadHash: seq<Byte>): Cell {
    Cell(BytesToBits(payloadHash),
         [Chain(payload), Chain(m.destinationAddress.hash), Chain(m.destinationChain)])
  }

  function MessageCell(m: RelayerExecuteMessage, payload: seq<Byte>, payloadHash: seq<Byte>): Cell {
    Cell([], [Chain(m.messageId), Chain(m.sourceChain), Chain(m.sourceAddress), InnerCell(m, payload, payloadHash)])
  }

  function ExecuteCell(m: RelayerExecuteMessage, payload: seq<Byte>, payloadHash: seq<Byte>): Cell
    requires m.Valid()
  {
    Cell(ToBits(OP_RELAYER_EXECUTE, 32) + AddressBits(m.relayerAddress), [MessageCell(m, payload, payloadHash)])
  }

  // ----- What a reader finds in an encoded message -----

  /** Bits that read as an optional address: `addr_none`, or an internal one without anycast. */
  predicate ReadsAddress(bits: Bits, a: TonAddress) {
    if a.workchain == 0 && forall i | 0 <= i < |a.hash| :: a.hash[i] == 0 then bits == [false, false]
    else
      && |bits| == 267 && bits[..3] == [true, false, false]
      && FromBits(bits[3..11]) == a.workchain % 256 && TakeBytes(bits[11..], 32) == a.hash
  }

  /** The cell reads, field by field, as the execute message with this payload and digest. */
  predicate ReadsExecute(c: Cell, m: RelayerExecuteMessage, payload: seq<Byte>, payloadHash: seq<Byte>) {
    && |c.data| >= 32 && FromBits(c.data[..32]) == 0x08 && ReadsAddress(c.data[32..], m.relayerAddress) && |c.refs| == 1
    && ReadsMessage(c.refs[0], m, payload, payloadHash)
  }

  predicate ReadsMessage(c: Cell, m: RelayerExecuteMessage, payload: seq<Byte>, payloadHash: seq<Byte>) {
    && c.data == [] && |c.refs| == 4 && Unchain(c.refs[0]) == m.messageId && Unchain(c.refs[1]) == m.sourceChain
    && Unchain(c.refs[2]) == m.sourceAddress && ReadsInner(c.refs[3], m, payload, payloadHash)
  }

  predicate ReadsInner(inner: Cell, m: RelayerExecuteMessage, payload: seq<Byte>, payloadHash: seq<Byte>) {
    && |inner.data| == 256 && TakeBytes(inner.data, 32) == payloadHash
    && |inner.refs| == 3 && Unchain(inner.refs[0]) == payload
    && Unchain(inner.refs[1]) == m.destinationAddress.hash && Unchain(inner.refs[2]) == m.destinationChain
  }

  lemma AddressReadsBack(a: TonAddress)
    requires a.Valid()
    ensures ReadsAddress(AddressBits(a), a)
  {
    if !a.Null() {
      var bits := AddressBits(a);
      PowersOfTwo();
      BitsRoundTrip(a.workchain % 256, 8);
      assert bits[3..11] == ToBits(a.workchain % 256, 8) && bits[11..] == BytesToBits(a.hash);
      TakeBytesRoundTrip(a.hash, 32);
    }
  }

  lemma MessageReadsFields(m: RelayerExecuteMessage, payload: seq<Byte>, payloadHash: seq<Byte>)
    requires m.Valid() && |payloadHash| == 32
    ensures ReadsMessage(MessageCell(m, payload, payloadHash), m, payload, payloadHash)
  {
    ChainRoundTrip(m.messageId);
    ChainRoundTrip(m.sourceChain);
    ChainRoundTrip(m.sourceAddress);
    InnerReadsFields(m, payload, payloadHash);
  }

  lemma InnerReadsFields(m: RelayerExecuteMessage, payload: seq<Byte>, payloadHash: seq<Byte>)
    requires m.Valid() && |payloadHash| == 32
    ensures ReadsInner(InnerCell(m, payload, payloadHash), m, payload, payloadHash)
  {
    ChainRoundTrip(payload);
    ChainRoundTrip(m.destinationAddress.hash);
    ChainRoundTrip(m.destinationChain);
    TakeBytesRoundTrip(payloadHash, |payloadHash|);
  }

  lemma ExecuteCellReadsBack(m: RelayerExecuteMessage, payload: seq<Byte>, payloadHash: seq<Byte>)
    requires m.Valid() && |payloadHash| == 32
    ensures ReadsExecute(ExecuteCell(m, payload, payloadHash), m, payload, payloadHash)
  {
    var op, address := ToBits(OP_RELAYER_EXECUTE, 32), AddressBits(m.relayerAddress);
    assert (op + address)[..32] == op && (op + address)[32..] == address;
    PowersOfTwo();
    BitsRoundTrip(OP_RELAYER_EXECUTE, 32);
    AddressReadsBack(m.relayerAddress);
    MessageReadsFields(m, payload, payloadHash);
  }

  // ----- Hexadecimal text -----

  const LOWER_DIGITS: string := "0123456789abcdef"
  const UPPER_DIGITS: string := "0123456789ABCDEF"

  /** Exactly the sixteen digits, in either case, have a value: their place. */
  lemma HexDigitIsPlace(c: char, n: nat)
    requires n < 16
    ensures HexDigit(c) == Some(n) <==> c == LOWER_DIGITS[n] || c == UPPER_DIGITS[n]
  {
  }

  /** Decoding succeeds exactly on an even number of digits, and reads each pair as one byte. */
  lemma {:induction false} HexDecodesPairs(s: string)
    ensures HexDecode(s).Some? <==> |s| % 2 == 0 && forall i | 0 <= i < |s| :: HexDigit(s[i]).Some?
    ensures HexDecode(s).Some? ==> 2 * |HexDecode(s).value| == |s|
    ensures HexDecode(s).Some? ==>
              forall i | 0 <= i < |HexDecode(s).value| ::
                HexDecode(s).value[i] == 16 * HexDigit(s[2 * i]).value + HexDigit(s[2 * i + 1]).value
    decreases |s|
  {
    if |s| >= 2 {
      HexDecodesPairs(s[2..]);
      assert forall i | 2 <= i < |s| :: s[i] == s[2..][i - 2];
      if HexDecode(s).Some? {
        forall i | 0 < i < |HexDecode(s).value|
          ensures HexDecode(s).value[i] == 16 * HexDigit(s[2 * i]).value + HexDigit(s[2 * i + 1]).value
        {
          assert HexDecode(s).value[i] == HexDecode(s[2..]).value[i - 1];
          assert s[2..][2 * (i - 1)] == s[2 * i] && s[2..][2 * (i - 1) + 1] == s[2 * i + 1];
        }
      }
    }
  }

  function HexDigitOf(n: nat): (c: char)
    requires n < 16
    ensures HexDigit(c) == Some(n)
  {
    HexDigitIsPlace(LOWER_DIGITS[n], n);
    LOWER_DIGITS[n]
  }

  function HexEncode(bytes: seq<Byte>): string {
    if bytes == [] then [] else [HexDigitOf(bytes[0] / 16), HexDigitOf(bytes[0] % 16)] + HexEncode(bytes[1..])
  }

  /** A payload put into hexadecimal text is decoded to itself. */
  lemma {:induction false} HexRoundTrip(bytes: seq<Byte>)
    ensures HexDecode(HexEncode(bytes)) == Some(bytes)
  {
    if bytes != [] {
      HexRoundTrip(bytes[1..]);
      HexByte(bytes[0], HexEncode(bytes[1..]));
      assert bytes == [bytes[0]] + bytes[1..];
    }
  }

  lemma HexByte(b: Byte, rest: string)
    requires HexDecode(rest).Some?
    ensures HexDecode([HexDigitOf(b / 16), HexDigitOf(b % 16)] + rest) == Some([b] + HexDecode(rest).value)
  {
    HexPair(HexDigitOf(b / 16), HexDigitOf(b % 16), rest);
  }

  lemma HexPair(a: char, b: char, rest: string)
    requires HexDigit(a).Some? && HexDigit(b).Some? && HexDecode(rest).Some?
    ensures HexDecode([a, b] + rest) == Some([16 * HexDigit(a).value + HexDigit(b).value] + HexDecode(rest).value)
  {
    assert ([a, b] + rest)[2..] == rest;
  }

  /** Builds a cell from data and references already made. */
  method MakeCell(data: Bits, refs: seq<Cell>) returns (r: Option<Cell>)
    ensures r == if |data| <= MAX_CELL_BITS && |refs| <= MAX_REFERENCES then Some(Cell(data, refs)) else None
  {
    var builder := new CellBuilder();
    for i := 0 to |refs|
      invariant builder.refs == refs[..i] && builder.data == [] && i <= MAX_REFERENCES
    {
      var ok := builder.StoreReference(refs[i]);
      if !ok {
        return None;
      }
    }
    assert refs[..|refs|] == refs;
    builder.StoreBits(data);
    assert builder.data == data;
    r := builder.Build();
  }

  /** `payloadHash` is the Keccak-256 digest of the decoded payload. Fails exactly when the payload is not hex. */
  method ToCell(m: RelayerExecuteMessage, payloadHash: seq<Byte>) returns (r: Option<Cell>)
    requires m.Valid() && |payloadHash| == 32
    ensures r == if HexDecode(m.payload).Some?
                 then Some(ExecuteCell(m, HexDecode(m.payload).value, payloadHash)) else None
    ensures r.Some? ==> ReadsExecute(r.value, m, HexDecode(m.payload).value, payloadHash)
  {
    var messageId := BufferToCell(m.messageId);
    var sourceChain := BufferToCell(m.sourceChain);
    var sourceAddress := BufferToCell(m.sourceAddress);
    var destinationChain := BufferToCell(m.destinationChain);
    var destinationAddress := BufferToCell(m.destinationAddress.hash);
    var payloadBytes := HexDecode(m.payload);
    if payloadBytes.None? {
      return None;
    }
    ExecuteCellReadsBack(m, payloadBytes.value, payloadHash);
    var payload := BufferToCell(payloadBytes.value);
    var inner := MakeCell(BytesToBits(payloadHash), [payload.value, destinationAddress.value, destinationChain.value]);
    var message := MakeCell([], [messageId.value, sourceChain.value, sourceAddress.value, inner.value]);
    r := MakeCell(ToBits(OP_RELAYER_EXECUTE, 32) + AddressBits(m.relayerAddress), [message.value]);
  }

  // ----- Wrapping -----

  datatype OutAction = SendMsg(mode: Byte, outMsg: Cell)

  function ByteLength(n: nat): nat {
    if n == 0 then 0 else 1 + ByteLength(n / 256)
  }

  /** A coin amount: a four-bit byte count, then the bytes. */
  function CoinBits(n: nat): (bits: Bits)
    ensures |bits| == 4 + 8 * ByteLength(n)
  {
    ToBits(ByteLength(n), 4) + ToBits(n, 8 * ByteLength(n))
  }

  function Zeros(n: nat): (bits: Bits)
    ensures |bits| == n
  {
    if n == 0 then [] else Zeros(n - 1) + [false]
  }

  /** Header of an internal message that bounces, carries `value` and has its body behind a reference. */
  function TransferBits(value: nat, destination: TonAddress): (bits: Bits)
    requires destination.Valid() && ByteLength(value) <= 15
    ensures |bits| <= 600
  {
    [false, false, true, false] + [false, false] + AddressBits(destination) + CoinBits(value) + Tail()
  }

  function MakeOutAction(body: Cell, value: nat, destination: TonAddress): Option<OutAction>
    requires destination.Valid()
  {
    if ByteLength(value) > 15 then None
    else Some(SendMsg(SEND_MODE_IGNORE_ERRORS, Cell(TransferBits(value, destination), [body])))
  }

  /** Bits that read as a coin amount: the byte count, as small as can be, and the number. */
  predicate ReadsCoins(bits: Bits, n: nat) {
    && |bits| >= 4
    && var count := FromBits(bits[..4]);
    && |bits| == 4 + 8 * count && FromBits(bits[4..]) == n && (count > 0 ==> n >= Pow2(8 * (count - 1)))
  }

  /** The message of a transfer: header flags, no source, destination, value, zero fields, body by reference. */
  predicate ReadsTransfer(c: Cell, body: Cell, value: nat, destination: TonAddress) {
    var coinsAt := if destination.Null() then 8 else 273;
    var zerosAt := |c.data| - 107;
    && c.refs == [body] && coinsAt <= zerosAt
    && ReadsHeader(c.data[..6], c.data[6..coinsAt], c.data[coinsAt..zerosAt], c.data[zerosAt..], value, destination)
  }

  predicate ReadsHeader(flags: Bits, address: Bits, coins: Bits, tail: Bits, value: nat, destination: TonAddress) {
    && flags == [false, false, true, false, false, false]       // bounces, nothing else; no source
    && ReadsAddress(address, destination) && ReadsCoins(coins, value)
    && |tail| == 107 && tail[106] && forall i | 0 <= i < 106 :: !tail[i]
  }

  lemma {:induction false} ByteLengthIsLeast(n: nat, k: nat)
    ensures ByteLength(n) <= k <==> n < Pow2(8 * k)
    decreases k
  {
    if k > 0 {
      PowersOfTwo();
      Pow2Join(8 * (k - 1), 8);
      ByteLengthIsLeast(n / 256, k - 1);
      assert n / 256 < Pow2(8 * (k - 1)) <==> n < 256 * Pow2(8 * (k - 1));
    }
  }

  lemma CoinsReadBack(n: nat)
    requires ByteLength(n) <= 15
    ensures ReadsCoins(CoinBits(n), n)
  {
    var bits, count := CoinBits(n), ByteLength(n);
    assert bits[..4] == ToBits(count, 4) && bits[4..] == ToBits(n, 8 * count);
    assert Pow2(4) == 16;
    BitsRoundTrip(count, 4);
    ByteLengthIsLeast(n, count);
    BitsRoundTrip(n, 8 * count);
    if count > 0 {
      ByteLengthIsLeast(n, count - 1);
    }
  }

  lemma {:induction false} ZerosAreFalse(n: nat)
    ensures forall i | 0 <= i < n :: !Zeros(n)[i]
    decreases n + 0
  {
    if n > 0 {
      ZerosAreFalse(n - 1);
    }
  }

  lemma TransferReadsBack(body: Cell, value: nat, destination: TonAddress)
    requires destination.Valid() && ByteLength(value) <= 15
    ensures ReadsTransfer(Cell(TransferBits(value, destination), [body]), body, value, destination)
  {
    var flags, address, coins := [false, false, true, false, false, false], AddressBits(destination), CoinBits(value);
    var tail := Tail();
    TransferParts(value, destination);
    FourParts(flags, address, coins, tail);
    TailIsZeros();
    AddressReadsBack(destination);
    CoinsReadBack(value);
  }

  lemma TransferParts(value: nat, destination: TonAddress)
    requires destination.Valid() && ByteLength(value) <= 15
    ensures TransferBits(value, destination)
            == [false, false, true, false, false, false] + AddressBits(destination) + CoinBits(value) + Tail()
  {
  }

  lemma FourParts(a: Bits, b: Bits, c: Bits, d: Bits)
    ensures var s := a + b + c + d;
            && s[..|a|] == a && s[|a|..|a| + |b|] == b && s[|a| + |b|..|a| + |b| + |c|] == c && s[|a| + |b| + |c|..] == d
  {
  }

  /** No extra currencies, no fees, no times, no initial state, and the body behind a reference. */
  function Tail(): Bits {
    [false] + Zeros(4) + Zeros(4) + Zeros(64) + Zeros(32) + [false] + [true]
  }

  lemma TailIsZeros()
    ensures |Tail()| == 107 && Tail()[106] && forall i | 0 <= i < 106 :: !Tail()[i]
  {
    ZerosAreFalse(4);
    ZerosAreFalse(64);
    ZerosAreFalse(32);
  }

  /** An action fails to build exactly for 2^120 coins or more; it ignores errors and carries the body. */
  lemma OutActionReadsBack(body: Cell, value: nat, destination: TonAddress)
    requires destination.Valid()
    ensures var action := MakeOutAction(body, value, destination);
            && (action.Some? <==> value < Pow2(120))
            && (action.Some? ==> action.value.mode == 2 && ReadsTransfer(action.value.outMsg, body, value, destination))
  {
    ByteLengthIsLeast(value, 15);
    if ByteLength(value) <= 15 {
      TransferReadsBack(body, value, destination);
    }
  }

  /** An action list: the earlier actions behind the first reference, the last action's message behind the second. */
  function ActionsCell(actions: seq<OutAction>): Cell {
    if actions == [] then Cell([], [])
    else
      var last := actions[|actions| - 1];
      Cell(ToBits(ACTION_SEND_MSG, 32) + ToBits(last.mode, 8), [ActionsCell(actions[..|actions| - 1]), last.outMsg])
  }

  function TransferBody(actions: seq<OutAction>, queryId: nat): Cell {
    Cell(ToBits(INTERNAL_TRANSFER, 32) + ToBits(queryId, 64), [ActionsCell(actions)])
  }

  /** Walking the first references back to the empty cell finds the actions, each with its mode and message. */
  predicate ReadsActions(c: Cell, actions: seq<OutAction>)
    decreases |actions|
  {
    if actions == [] then c == Cell([], [])
    else
      var last := actions[|actions| - 1];
      && |c.data| == 40 && FromBits(c.data[..32]) == 0x0ec3c86d && FromBits(c.data[32..]) == last.mode
      && |c.refs| == 2 && c.refs[1] == last.outMsg && ReadsActions(c.refs[0], actions[..|actions| - 1])
  }

  /** The body reads as an internal transfer with this query id and these actions. */
  predicate ReadsBody(c: Cell, actions: seq<OutAction>, queryId: nat) {
    && |c.data| == 96 && FromBits(c.data[..32]) == 0xae42e5a4 && FromBits(c.data[32..]) == queryId
    && |c.refs| == 1 && ReadsActions(c.refs[0], actions)
  }

  lemma {:induction false} ActionsReadBack(actions: seq<OutAction>)
    ensures ReadsActions(ActionsCell(actions), actions)
    decreases |actions|
  {
    if actions != [] {
      var last, c := actions[|actions| - 1], ActionsCell(actions);
      assert c.data[..32] == ToBits(ACTION_SEND_MSG, 32) && c.data[32..] == ToBits(last.mode, 8);
      PowersOfTwo();
      BitsRoundTrip(ACTION_SEND_MSG, 32);
      BitsRoundTrip(last.mode, 8);
      ActionsReadBack(actions[..|actions| - 1]);
    }
  }

  lemma BodyReadsBack(actions: seq<OutAction>, queryId: nat)
    requires queryId < 0x1_0000_0000_0000_0000
    ensures ReadsBody(TransferBody(actions, queryId), actions, queryId)
  {
    var c := TransferBody(actions, queryId);
    assert c.data[..32] == ToBits(INTERNAL_TRANSFER, 32) && c.data[32..] == ToBits(queryId, 64);
    PowersOfTwo();
    BitsRoundTrip(INTERNAL_TRANSFER, 32);
    BitsRoundTrip(queryId, 64);
    ActionsReadBack(actions);
  }

  /** More than 254 actions are refused. */
  method InternalTransferBody(actions: seq<OutAction>, queryId: nat) returns (r: Option<Cell>)
    requires queryId < 0x1_0000_0000_0000_0000
    ensures r == if |actions| <= MAX_ACTIONS then Some(TransferBody(actions, queryId)) else None
    ensures r.Some? <==> |actions| <= 254
    ensures r.Some? ==> ReadsBody(r.value, actions, queryId)
  {
    BodyReadsBack(actions, queryId);
    if |actions| > MAX_ACTIONS {
      return None;
    }
    var list := Cell([], []);
    for i := 0 to |actions|
      invariant list == ActionsCell(actions[..i])
    {
      assert actions[..i + 1][..i] == actions[..i];
      var next := MakeCell(ToBits(ACTION_SEND_MSG, 32) + ToBits(actions[i].mode, 8), [list, actions[i].outMsg]);
      list := next.value;
    }
    assert actions[..|actions|] == actions;
    r := MakeCell(ToBits(INTERNAL_TRANSFER, 32) + ToBits(queryId, 64), [list]);
  }

  // ----- Reading back -----

  datatype WrappedMessage = WrappedMessage(messageId: Text, sourceChain: Text)

  function Reference(c: Option<Cell>, i: nat): Option<Cell> {
    if c.Some? && i < |c.value.refs| then Some(c.value.refs[i]) else None
  }

  /** The cell that holds the message: actions, last action's message, its body, the body's first reference. */
  function FindMessage(c: Cell): Option<Cell> {
    Reference(Reference(Reference(Reference(Some(c), 0), 1), 0), 0)
  }

  function ReadText(c: Option<Cell>, isUtf8: seq<Byte> -> bool): Option<Text> {
    if c.Some? && isUtf8(Unchain(c.value)) then Some(Unchain(c.value)) else None
  }

  function Unwrap(c: Cell, isUtf8: seq<Byte> -> bool): Option<WrappedMessage> {
    var message := FindMessage(c);
    var messageId, sourceChain := ReadText(Reference(message, 0), isUtf8), ReadText(Reference(message, 1), isUtf8);
    if messageId.Some? && sourceChain.Some? then Some(WrappedMessage(messageId.value, sourceChain.value)) else None
  }

  /** Every reference on the walk is there, and the message has two texts. */
  predicate HasMessage(c: Cell) {
    && |c.refs| >= 1 && |c.refs[0].refs| >= 2 && |c.refs[0].refs[1].refs| >= 1 && |c.refs[0].refs[1].refs[0].refs| >= 1
    && |c.refs[0].refs[1].refs[0].refs[0].refs| >= 2
  }

  function MessageIn(c: Cell): Cell
    requires HasMessage(c)
  {
    c.refs[0].refs[1].refs[0].refs[0]
  }

  lemma UnwrapReads(c: Cell, isUtf8: seq<Byte> -> bool)
    ensures Unwrap(c, isUtf8).Some? <==>
            HasMessage(c) && var m := MessageIn(c); isUtf8(Unchain(m.refs[0])) && isUtf8(Unchain(m.refs[1]))
    ensures Unwrap(c, isUtf8).Some? ==>
              Unwrap(c, isUtf8).value == WrappedMessage(Unchain(MessageIn(c).refs[0]), Unchain(MessageIn(c).refs[1]))
  {
  }

  method CellToString(c: Cell, isUtf8: seq<Byte> -> bool) returns (r: Option<Text>)
    ensures r == ReadText(Some(c), isUtf8)
  {
    var bytes := CellToBuffer(c);
    return if isUtf8(bytes) then Some(bytes) else None;
  }

  /** Walks down with one parser per cell, as the source does. */
  method FromCell(c: Cell, isUtf8: seq<Byte> -> bool) returns (r: Option<WrappedMessage>)
    ensures r == Unwrap(c, isUtf8)
    ensures r.Some? <==> HasMessage(c) && var m := MessageIn(c); isUtf8(Unchain(m.refs[0])) && isUtf8(Unchain(m.refs[1]))
    ensures r.Some? ==> r.value == WrappedMessage(Unchain(MessageIn(c).refs[0]), Unchain(MessageIn(c).refs[1]))
  {
    UnwrapReads(c, isUtf8);
    var parser := new CellParser(c);
    var actions := parser.NextReference();
    if actions.None? { return None; }
    parser := new CellParser(actions.value);
    var earlier := parser.NextReference();
    if earlier.None? { return None; }
    var outMsg := parser.NextReference();
    if outMsg.None? { return None; }
    parser := new CellParser(outMsg.value);
    var body := parser.NextReference();
    if body.None? { return None; }
    parser := new CellParser(body.value);
    var message := parser.NextReference();
    if message.None? { return None; }
    assert FindMessage(c) == message;
    parser := new CellParser(message.value);
    var idCell := parser.NextReference();
    if idCell.None? { return None; }
    var messageId := CellToString(idCell.value, isUtf8);
    if messageId.None? { return None; }
    var chainCell := parser.NextReference();
    if chainCell.None? { return None; }
    var sourceChain := CellToString(chainCell.value, isUtf8);
    if sourceChain.None? { return None; }
    return Some(WrappedMessage(messageId.value, sourceChain.value));
  }

  /**
   Whatever the fields, whatever came before it in the action list and whatever the query id, an
   execute message placed last in a wallet body is read back with its own id and source chain.
   */
  lemma WrappedMessageRoundTrip(
      m: RelayerExecuteMessage, payloadHash: seq<Byte>, value: nat, destination: TonAddress,
      earlier: seq<OutAction>, queryId: nat, isUtf8: seq<Byte> -> bool)
    requires m.Valid() && HexDecode(m.payload).Some? && destination.Valid()
    requires isUtf8(m.messageId) && isUtf8(m.sourceChain)
    requires MakeOutAction(ExecuteCell(m, HexDecode(m.payload).value, payloadHash), value, destination).Some?
    ensures var body := ExecuteCell(m, HexDecode(m.payload).value, payloadHash);
            var action := MakeOutAction(body, value, destination).value;
            Unwrap(TransferBody(earlier + [action], queryId), isUtf8) == Some(WrappedMessage(m.messageId, m.sourceChain))
  {
    var payload := HexDecode(m.payload).value;
    var message := MessageCell(m, payload, payloadHash);
    var action := MakeOutAction(ExecuteCell(m, payload, payloadHash), value, destination).value;
    FindsLastMessage(earlier, action, queryId, message);
    MessageReadsBack(m, payload, payloadHash, isUtf8);
  }

  /** The first two references of the message hold its id and source chain. */
  lemma MessageReadsBack(m: RelayerExecuteMessage, payload: seq<Byte>, payloadHash: seq<Byte>, isUtf8: seq<Byte> -> bool)
    requires isUtf8(m.messageId) && isUtf8(m.sourceChain)
    ensures var message := Some(MessageCell(m, payload, payloadHash));
            && ReadText(Reference(message, 0), isUtf8) == Some(m.messageId)
            && ReadText(Reference(message, 1), isUtf8) == Some(m.sourceChain)
  {
    ChainRoundTrip(m.messageId);
    ChainRoundTrip(m.sourceChain);
  }

  /** The walk ends at the first reference of the body of the last action. */
  lemma FindsLastMessage(earlier: seq<OutAction>, action: OutAction, queryId: nat, message: Cell)
    requires action.outMsg.refs != [] && action.outMsg.refs[0].refs == [message]
    ensures FindMessage(TransferBody(earlier + [action], queryId)) == Some(message)
  {
    var c := TransferBody(earlier + [action], queryId);
    assert Reference(Some(c), 0) == Some(ActionsCell(earlier + [action]));
    assert Reference(Reference(Some(c), 0), 1) == Some(action.outMsg);
  }

  lemma ExecuteCellWellFormed(m: RelayerExecuteMessage, payload: seq<Byte>, payloadHash: seq<Byte>)
    requires m.Valid() && |payloadHash| == 32
    ensures WellFormed(ExecuteCell(m, payload, payloadHash))
  {
    ChainShape(m.messageId);
    ChainShape(m.sourceChain);
    ChainShape(m.sourceAddress);
    ChainShape(m.destinationChain);
    ChainShape(m.destinationAddress.hash);
    ChainShape(payload);
    assert WellFormed(InnerCell(m, payload, payloadHash));
    assert WellFormed(MessageCell(m, payload, payloadHash));
  }

  lemma {:induction false} ActionsCellWellFormed(actions: seq<OutAction>)
    requires forall i | 0 <= i < |actions| :: WellFormed(actions[i].outMsg)
    ensures WellFormed(ActionsCell(actions))
  {
    if actions != [] {
      ActionsCellWellFormed(actions[..|actions| - 1]);
    }
  }

  /** Every cell built on the way keeps the limits of 1023 bits and 4 references. */
  lemma WrappedMessageWellFormed(
      m: RelayerExecuteMessage, payload: seq<Byte>, payloadHash: seq<Byte>, value: nat, destination: TonAddress,
      earlier: seq<OutAction>, queryId: nat)
    requires m.Valid() && |payloadHash| == 32 && destination.Valid()
    requires forall i | 0 <= i < |earlier| :: WellFormed(earlier[i].outMsg)
    requires MakeOutAction(ExecuteCell(m, payload, payloadHash), value, destination).Some?
    ensures var action := MakeOutAction(ExecuteCell(m, payload, payloadHash), value, destination).value;
            WellFormed(TransferBody(earlier + [action], queryId))
  {
    var action := MakeOutAction(ExecuteCell(m, payload, payloadHash), value, destination).value;
    ExecuteCellWellFormed(m, payload, payloadHash);
    assert WellFormed(action.outMsg);
    ActionsCellWellFormed(earlier + [action]);
  }
}
