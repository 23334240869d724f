/**
 * The XRPL memo codec: seven instructions, one 10-byte header, fixed lengths.
 *
 * The encoders are methods that fill byte buffers as the source does; each is
 * proved against `Encoded`, and the laws of the codec are proved about
 * `Encoded` and `Decode`.
 */
module Memo {
  import opened Results
  import opened Hex

  const EXECUTE_INLINE: byte := 0xff
  const EXECUTE_COMMITTED: byte := 0xfe
  const IGNORE_MEMO: byte := 0xe0
  const SET_NONCE: byte := 0xe1
  const SET_REPLACEMENT_FEE: byte := 0xe2
  const SET_EXECUTOR: byte := 0xd0
  const REMOVE_EXECUTOR: byte := 0xd1

  const HEADER_BYTES := 10
  const XRPL_MEMO_MAX_BYTES := 1024
  const MAX_UINT64 := 0xffff_ffff_ffff_ffff

  datatype Header = Header(walletId: int, executorFeeUBA: int)

  datatype Instruction =
    | ExecuteInline(header: Header, userOpData: string)
    | ExecuteCommitted(header: Header, userOpHash: string)
    | IgnoreMemo(header: Header, targetTxId: string)
    | SetNonce(header: Header, newNonce: int)
    | SetReplacementFee(header: Header, targetTxId: string, newFeeUBA: int)
    | SetExecutor(header: Header, executor: string)
    | RemoveExecutor(header: Header)

  datatype MemoError =
    | WalletIdNotUint8 | FeeNotUint64 | NonceNotUint256 | NewFeeNotUint64
    | NotHex | OddHex | WrongByteCount
    | InvalidAddress | ZeroAddress | OverXrplCap
    | WrongMemoLength | ShorterThanHeader | UnknownInstruction

  // ------------------------------------------------------------ what a memo is

  function Opcode(i: Instruction): byte {
    match i
    case ExecuteInline(_, _) => EXECUTE_INLINE
    case ExecuteCommitted(_, _) => EXECUTE_COMMITTED
    case IgnoreMemo(_, _) => IGNORE_MEMO
    case SetNonce(_, _) => SET_NONCE
    case SetReplacementFee(_, _, _) => SET_REPLACEMENT_FEE
    case SetExecutor(_, _) => SET_EXECUTOR
    case RemoveExecutor(_) => REMOVE_EXECUTOR
  }

  /** The length the contract demands; an inline memo has none. */
  function MemoLength(opcode: byte): Option<nat> {
    if opcode == EXECUTE_COMMITTED || opcode == IGNORE_MEMO || opcode == SET_NONCE then Some(42)
    else if opcode == SET_REPLACEMENT_FEE then Some(50)
    else if opcode == SET_EXECUTOR then Some(30)
    else if opcode == REMOVE_EXECUTOR then Some(10)
    else None
  }

  function HeaderError(h: Header): Option<MemoError> {
    if !(0 <= h.walletId <= 0xff) then Some(WalletIdNotUint8)
    else if !(0 <= h.executorFeeUBA <= MAX_UINT64) then Some(FeeNotUint64)
    else None
  }

  function HexError(hex: string, expected: Option<nat>): Option<MemoError> {
    if !IsHex(hex) then Some(NotHex)
    else if |hex| % 2 != 0 then Some(OddHex)
    else if expected.Some? && |hex[2..]| / 2 != expected.value then Some(WrongByteCount)
    else None
  }

  function Bytes(hex: string): (b: seq<byte>)
    requires IsHex(hex) && |hex| % 2 == 0
    ensures |b| == |hex[2..]| / 2
  {
    Pack(hex[2..])
  }

  function First(a: Option<MemoError>, b: Option<MemoError>): Option<MemoError> {
    if a.Some? then a else b
  }

  /** A 20-byte address: all lower case, or with the letters of its checksum. */
  predicate IsAddress(a: string, checksummed: string -> bool) {
    IsHex(a) && |a| == 42 && (Lower(a) == a || checksummed(a))
  }

  predicate IsZeroAddress(a: string) {
    a == "0x" + seq(40, _ => '0')
  }

  /** Why an encoder throws, in the order the checks are made. */
  function EncodeError(i: Instruction, checksummed: string -> bool): Option<MemoError> {
    match i
    case ExecuteInline(h, data) =>
      First(First(HeaderError(h), HexError(data, None)),
            if HEADER_BYTES + |data| / 2 - 1 > XRPL_MEMO_MAX_BYTES then Some(OverXrplCap) else None)
    case ExecuteCommitted(h, hash) => First(HeaderError(h), HexError(hash, Some(32)))
    case IgnoreMemo(h, tx) => First(HeaderError(h), HexError(tx, Some(32)))
    case SetNonce(h, n) =>
      First(if !(0 <= n < Pow256(32)) then Some(NonceNotUint256) else None, HeaderError(h))
    case SetReplacementFee(h, tx, fee) =>
      First(if !(0 <= fee <= MAX_UINT64) then Some(NewFeeNotUint64) else None,
            First(HeaderError(h), HexError(tx, Some(32))))
    case SetExecutor(h, a) =>
      First(if !IsAddress(a, checksummed) then Some(InvalidAddress)
            else if IsZeroAddress(a) then Some(ZeroAddress)
            else None,
            HeaderError(h))
    case RemoveExecutor(h) => HeaderError(h)
  }

  /** Every field has a place in the layout, whether or not an encoder would emit it. */
  predicate Fits(i: Instruction) {
    HeaderError(i.header).None? &&
    match i
    case ExecuteInline(_, data) => HexError(data, None).None?
    case ExecuteCommitted(_, hash) => HexError(hash, Some(32)).None?
    case IgnoreMemo(_, tx) => HexError(tx, Some(32)).None?
    case SetNonce(_, n) => 0 <= n < Pow256(32)
    case SetReplacementFee(_, tx, fee) => HexError(tx, Some(32)).None? && 0 <= fee <= MAX_UINT64
    case SetExecutor(_, a) => HexError(a, Some(20)).None?
    case RemoveExecutor(_) => true
  }

  function Payload(i: Instruction): seq<byte>
    requires Fits(i)
  {
    match i
    case ExecuteInline(_, data) => Bytes(data)
    case ExecuteCommitted(_, hash) => Bytes(hash)
    case IgnoreMemo(_, tx) => Bytes(tx)
    case SetNonce(_, n) => BigEndian(n, 32)
    case SetReplacementFee(_, tx, fee) => Bytes(tx) + BigEndian(fee, 8)
    case SetExecutor(_, a) => Bytes(a)
    case RemoveExecutor(_) => []
  }

  function HeaderBytes(opcode: byte, h: Header): (b: seq<byte>)
    requires HeaderError(h).None?
    ensures |b| == HEADER_BYTES
  {
    [opcode, h.walletId] + BigEndian(h.executorFeeUBA, 8)
  }

  function Layout(i: Instruction): seq<byte>
    requires Fits(i)
  {
    HeaderBytes(Opcode(i), i.header) + Payload(i)
  }

  /** What the encoder for an instruction answers. */
  function Encoded(i: Instruction, checksummed: string -> bool): Result<seq<byte>, MemoError> {
    var e := EncodeError(i, checksummed);
    if e.Some? then Err(e.value) else Ok(Layout(i))
  }

  // ----------------------------------------------------------- the byte buffers

  function Join(parts: seq<seq<byte>>): seq<byte> {
    if parts == [] then [] else Join(parts[..|parts| - 1]) + parts[|parts| - 1]
  }

  method EncodeHeader(opcode: byte, h: Header) returns (r: Result<seq<byte>, MemoError>)
    ensures r == if HeaderError(h).Some? then Err(HeaderError(h).value) else Ok(HeaderBytes(opcode, h))
  {
    if h.walletId < 0 || h.walletId > 0xff {
      return Err(WalletIdNotUint8);
    }
    if h.executorFeeUBA < 0 || h.executorFeeUBA > MAX_UINT64 {
      return Err(FeeNotUint64);
    }
    var header := new byte[HEADER_BYTES](_ => 0);
    header[0] := opcode;
    header[1] := h.walletId;
    SetBigUint64(header, 2, h.executorFeeUBA);
    assert header[..] == header[..2] + header[2..10];
    assert header[..2] == [opcode, h.walletId];
    return Ok(header[..]);
  }

  /** DataView.setBigUint64 in big-endian order. */
  method SetBigUint64(buffer: array<byte>, offset: nat, value: int)
    requires offset + 8 <= buffer.Length && 0 <= value <= MAX_UINT64
    modifies buffer
    ensures buffer[offset..offset + 8] == BigEndian(value, 8)
    ensures forall i :: 0 <= i < buffer.Length && !(offset <= i < offset + 8) ==> buffer[i] == old(buffer[i])
  {
    var bytes := BigEndian(value, 8);
    forall i | 0 <= i < 8 {
      buffer[offset + i] := bytes[i];
    }
  }

  /** The first n bytes of a text. */
  function Front(body: string, n: nat): seq<byte>
    requires AllDigits(body) && 2 * n <= |body|
  {
    Pack(body[..2 * n])
  }

  lemma PackOneMore(body: string, i: nat)
    requires AllDigits(body) && 2 * i + 2 <= |body|
    ensures Front(body, i + 1) == Front(body, i) + [16 * Value(body[2 * i]) + Value(body[2 * i + 1])]
  {
    var pair := [body[2 * i], body[2 * i + 1]];
    PackAppend(body[..2 * i], pair);
    assert body[..2 * i + 2] == body[..2 * i] + pair && pair[2..] == [];
  }

  /** The parse loop: two digits to a byte, into one buffer. */
  method ParseBytes(body: string) returns (bytes: array<byte>)
    requires AllDigits(body) && |body| % 2 == 0
    ensures fresh(bytes) && bytes[..] == Pack(body)
  {
    bytes := new byte[|body| / 2](_ => 0);
    for i := 0 to bytes.Length
      invariant bytes[..i] == Front(body, i)
    {
      bytes[i] := 16 * Value(body[i * 2]) + Value(body[i * 2 + 1]);
      PackOneMore(body, i);
      assert bytes[..i + 1] == bytes[..i] + [bytes[i]];
    }
    assert body[..2 * bytes.Length] == body;
    assert bytes[..] == bytes[..bytes.Length];
  }

  method HexToBytes(hex: string, expected: Option<nat>) returns (r: Result<seq<byte>, MemoError>)
    ensures r == if HexError(hex, expected).Some? then Err(HexError(hex, expected).value) else Ok(Bytes(hex))
  {
    if !IsHex(hex) {
      return Err(NotHex);
    }
    var body := hex[2..];
    if |body| % 2 != 0 {
      return Err(OddHex);
    }
    var bytes := ParseBytes(body);
    if expected.Some? && bytes.Length != expected.value {
      return Err(WrongByteCount);
    }
    return Ok(bytes[..]);
  }

  method Concat(parts: seq<seq<byte>>) returns (r: seq<byte>)
    ensures r == Join(parts)
  {
    var total := 0;
    for n := 0 to |parts|
      invariant total == |Join(parts[..n])|
    {
      assert parts[..n + 1][..n] == parts[..n];
      total := total + |parts[n]|;
    }
    assert parts[..|parts|] == parts;
    var out := new byte[total](_ => 0);
    var offset := 0;
    for n := 0 to |parts|
      invariant offset == |Join(parts[..n])| && offset <= total
      invariant out[..offset] == Join(parts[..n])
    {
      var p := parts[n];
      assert parts[..n + 1][..n] == parts[..n];
      JoinGrows(parts, n + 1);
      ghost var done := out[..offset];
      forall i | 0 <= i < |p| {
        out[offset + i] := p[i];
      }
      assert out[..offset] == done;
      assert out[..offset + |p|] == out[..offset] + p;
      offset := offset + |p|;
    }
    return out[..];
  }

  lemma {:induction false} JoinGrows(parts: seq<seq<byte>>, n: nat)
    requires n <= |parts|
    ensures |Join(parts[..n])| <= |Join(parts)|
    decreases |parts|
  {
    if n == |parts| {
      assert parts[..n] == parts;
    } else {
      JoinGrows(parts[..|parts| - 1], n);
      assert parts[..|parts| - 1][..n] == parts[..n];
    }
  }

  lemma JoinTwo(a: seq<byte>, b: seq<byte>)
    ensures Join([a, b]) == a + b
  {
    assert [a, b][..1] == [a] && [a][..0] == [];
    assert Join([a]) == [] + a;
  }

  lemma JoinThree(a: seq<byte>, b: seq<byte>, c: seq<byte>)
    ensures Join([a, b, c]) == a + (b + c)
  {
    assert [a, b, c][..2] == [a, b];
    JoinTwo(a, b);
    assert a + b + c == a + (b + c);
  }

  method AssertLength(opcode: byte, memo: seq<byte>) returns (r: Result<seq<byte>, MemoError>)
    requires MemoLength(opcode).Some?
    ensures r == if |memo| == MemoLength(opcode).value then Ok(memo) else Err(WrongMemoLength)
  {
    if |memo| != MemoLength(opcode).value {
      return Err(WrongMemoLength);
    }
    return Ok(memo);
  }

  // --------------------------------------------------------------- the encoders

  method EncodeExecuteCommittedMemo(h: Header, userOpHash: string, checksummed: string -> bool)
    returns (r: Result<seq<byte>, MemoError>)
    ensures r == Encoded(ExecuteCommitted(h, userOpHash), checksummed)
  {
    var header :- EncodeHeader(EXECUTE_COMMITTED, h);
    var hash :- HexToBytes(userOpHash, Some(32));
    var memo := Concat([header, hash]);
    JoinTwo(header, hash);
    r := AssertLength(EXECUTE_COMMITTED, memo);
  }

  method EncodeExecuteInlineMemo(h: Header, userOpData: string, checksummed: string -> bool)
    returns (r: Result<seq<byte>, MemoError>)
    ensures r == Encoded(ExecuteInline(h, userOpData), checksummed)
  {
    var header :- EncodeHeader(EXECUTE_INLINE, h);
    var data :- HexToBytes(userOpData, None);
    var memo := Concat([header, data]);
    JoinTwo(header, data);
    if |memo| > XRPL_MEMO_MAX_BYTES {
      return Err(OverXrplCap);
    }
    return Ok(memo);
  }

  method EncodeSetExecutorMemo(h: Header, executor: string, checksummed: string -> bool)
    returns (r: Result<seq<byte>, MemoError>)
    ensures r == Encoded(SetExecutor(h, executor), checksummed)
  {
    if !IsAddress(executor, checksummed) {
      return Err(InvalidAddress);
    }
    if IsZeroAddress(executor) {
      return Err(ZeroAddress);
    }
    var header :- EncodeHeader(SET_EXECUTOR, h);
    var address := HexToBytes(executor, Some(20));
    var memo := Concat([header, address.value]);
    JoinTwo(header, address.value);
    r := AssertLength(SET_EXECUTOR, memo);
  }

  method EncodeRemoveExecutorMemo(h: Header, checksummed: string -> bool)
    returns (r: Result<seq<byte>, MemoError>)
    ensures r == Encoded(RemoveExecutor(h), checksummed)
  {
    var memo :- EncodeHeader(REMOVE_EXECUTOR, h);
    assert memo == memo + [];
    r := AssertLength(REMOVE_EXECUTOR, memo);
  }

  method EncodeIgnoreMemo(h: Header, targetTxId: string, checksummed: string -> bool)
    returns (r: Result<seq<byte>, MemoError>)
    ensures r == Encoded(IgnoreMemo(h, targetTxId), checksummed)
  {
    var header :- EncodeHeader(IGNORE_MEMO, h);
    var target :- HexToBytes(targetTxId, Some(32));
    var memo := Concat([header, target]);
    JoinTwo(header, target);
    r := AssertLength(IGNORE_MEMO, memo);
  }

  /** The loop from the low end: the nonce's 32 bytes, most significant first. */
  method NonceBytes(newNonce: nat) returns (nonceBytes: array<byte>)
    ensures fresh(nonceBytes) && nonceBytes[..] == BigEndian(newNonce, 32)
  {
    nonceBytes := new byte[32](_ => 0);
    var n := newNonce;
    var i := 31;
    while i >= 0
      invariant -1 <= i <= 31
      invariant BigEndian(newNonce, 32) == BigEndian(n, i + 1) + nonceBytes[i + 1..]
    {
      nonceBytes[i] := n % 256;
      assert nonceBytes[i..] == [nonceBytes[i]] + nonceBytes[i + 1..];
      n := n / 256;
      i := i - 1;
    }
    assert [] + nonceBytes[0..] == nonceBytes[..];
  }

  method EncodeSetNonceMemo(h: Header, newNonce: int, checksummed: string -> bool)
    returns (r: Result<seq<byte>, MemoError>)
    ensures r == Encoded(SetNonce(h, newNonce), checksummed)
  {
    if newNonce < 0 || newNonce > Pow256(32) - 1 {
      return Err(NonceNotUint256);
    }
    var nonceBytes := NonceBytes(newNonce);
    var header :- EncodeHeader(SET_NONCE, h);
    var memo := Concat([header, nonceBytes[..]]);
    JoinTwo(header, nonceBytes[..]);
    r := AssertLength(SET_NONCE, memo);
  }

  method EncodeReplacementFeeMemo(h: Header, targetTxId: string, newFeeUBA: int, checksummed: string -> bool)
    returns (r: Result<seq<byte>, MemoError>)
    ensures r == Encoded(SetReplacementFee(h, targetTxId, newFeeUBA), checksummed)
  {
    if newFeeUBA < 0 || newFeeUBA > MAX_UINT64 {
      return Err(NewFeeNotUint64);
    }
    var feeBytes := new byte[8](_ => 0);
    SetBigUint64(feeBytes, 0, newFeeUBA);
    assert feeBytes[..] == feeBytes[0..8];
    var header :- EncodeHeader(SET_REPLACEMENT_FEE, h);
    var target :- HexToBytes(targetTxId, Some(32));
    var memo := Concat([header, target, feeBytes[..]]);
    JoinThree(header, target, feeBytes[..]);
    r := AssertLength(SET_REPLACEMENT_FEE, memo);
  }

  // ------------------------------------------------------------------ decoding

  /** The fields behind the header, once the opcode and the length are known good. */
  function Fields(opcode: byte, h: Header, rest: seq<byte>): Instruction
    requires opcode == EXECUTE_INLINE || MemoLength(opcode) == Some(HEADER_BYTES + |rest|)
  {
    if opcode == EXECUTE_INLINE then ExecuteInline(h, ToHex(rest))
    else if opcode == EXECUTE_COMMITTED then ExecuteCommitted(h, ToHex(rest))
    else if opcode == IGNORE_MEMO then IgnoreMemo(h, ToHex(rest))
    else if opcode == SET_NONCE then SetNonce(h, FromBigEndian(rest))
    else if opcode == SET_REPLACEMENT_FEE then
      SetReplacementFee(h, ToHex(rest[..32]), FromBigEndian(rest[32..40]))
    else if opcode == SET_EXECUTOR then SetExecutor(h, ToHex(rest))
    else RemoveExecutor(h)
  }

  function Decode(memo: seq<byte>): Result<Instruction, MemoError> {
    if |memo| < HEADER_BYTES then
      Err(ShorterThanHeader)
    else if memo[0] != EXECUTE_INLINE && MemoLength(memo[0]).None? then
      Err(UnknownInstruction)
    else if memo[0] != EXECUTE_INLINE && |memo| != MemoLength(memo[0]).value then
      Err(WrongMemoLength)
    else
      Ok(Fields(memo[0], Header(memo[1], FromBigEndian(memo[2..10])), memo[10..]))
  }

  /** The one spelling of an instruction that decoding produces: hex in lower case. */
  function Canonical(i: Instruction): Instruction {
    match i
    case ExecuteInline(h, data) => ExecuteInline(h, Lower(data))
    case ExecuteCommitted(h, hash) => ExecuteCommitted(h, Lower(hash))
    case IgnoreMemo(h, tx) => IgnoreMemo(h, Lower(tx))
    case SetNonce(h, n) => i
    case SetReplacementFee(h, tx, fee) => SetReplacementFee(h, Lower(tx), fee)
    case SetExecutor(h, a) => SetExecutor(h, Lower(a))
    case RemoveExecutor(h) => i
  }

  // ------------------------------------------------------------ laws of the codec

  lemma HexOfBytes(b: seq<byte>)
    ensures IsHex(ToHex(b)) && Lower(ToHex(b)) == ToHex(b) && Bytes(ToHex(b)) == b
  {
    UnpackDigits(b);
    PackUnpack(b);
    assert ToHex(b)[2..] == Unpack(b);
    forall k | 0 <= k < |ToHex(b)| ensures LowerChar(ToHex(b)[k]) == ToHex(b)[k] {
      if k >= 2 {
        assert ToHex(b)[k] == Unpack(b)[k - 2] == Lower(Unpack(b))[k - 2];
      }
    }
  }

  lemma BytesOfHex(hex: string)
    requires IsHex(hex) && |hex| % 2 == 0
    ensures ToHex(Bytes(hex)) == Lower(hex)
  {
    UnpackPack(hex[2..]);
    assert Lower(hex) == "0x" + Lower(hex[2..]);
  }

  lemma FeeFields(i: Instruction)
    requires i.SetReplacementFee? && Fits(i)
    ensures |Payload(i)| == 40 && Fields(Opcode(i), i.header, Payload(i)) == Canonical(i)
  {
    BytesOfHex(i.targetTxId);
    Pow256Of8();
    DecodeBigEndian(i.newFeeUBA, 8);
    assert Payload(i)[..32] == Bytes(i.targetTxId) && Payload(i)[32..40] == BigEndian(i.newFeeUBA, 8);
  }

  lemma NonceFields(i: Instruction)
    requires i.SetNonce? && Fits(i)
    ensures |Payload(i)| == 32 && Fields(Opcode(i), i.header, Payload(i)) == Canonical(i)
  {
    var width := |Payload(i)|;
    DecodeBigEndian(i.newNonce, width);
  }

  lemma FieldsOfPayload(i: Instruction)
    requires Fits(i)
    ensures Opcode(i) != EXECUTE_INLINE ==> MemoLength(Opcode(i)) == Some(HEADER_BYTES + |Payload(i)|)
    ensures Fields(Opcode(i), i.header, Payload(i)) == Canonical(i)
  {
    match i
    case ExecuteInline(_, data) =>
      BytesOfHex(data);
    case ExecuteCommitted(_, hash) =>
      BytesOfHex(hash);
    case IgnoreMemo(_, tx) =>
      BytesOfHex(tx);
    case SetNonce(_, _) =>
      NonceFields(i);
    case SetReplacementFee(_, _, _) =>
      FeeFields(i);
    case SetExecutor(_, a) =>
      BytesOfHex(a);
    case RemoveExecutor(_) =>
  }

  /** Whatever a layout holds, decoding finds it again. */
  lemma DecodeLayout(i: Instruction)
    requires Fits(i)
    ensures Decode(Layout(i)) == Ok(Canonical(i))
  {
    var memo := Layout(i);
    FieldsOfPayload(i);
    Pow256Of8();
    assert memo[2..10] == BigEndian(i.header.executorFeeUBA, 8);
    DecodeBigEndian(i.header.executorFeeUBA, 8);
    assert memo[10..] == Payload(i);
    assert memo[0] == Opcode(i) && memo[1] == i.header.walletId;
  }

  lemma EncodableFits(i: Instruction, checksummed: string -> bool)
    requires EncodeError(i, checksummed).None?
    ensures Fits(i)
  {
  }

  /** Round trip, all seven instructions: what an encoder emits decodes to what it was given. */
  lemma DecodeEncoded(i: Instruction, checksummed: string -> bool)
    requires Encoded(i, checksummed).Ok?
    ensures Decode(Encoded(i, checksummed).value) == Ok(Canonical(i))
  {
    EncodableFits(i, checksummed);
    DecodeLayout(i);
  }

  /** Which memos decode: header, known opcode, and the one length the contract allows. */
  lemma DecodeAccepts(memo: seq<byte>)
    ensures Decode(memo).Ok? <==>
            |memo| >= HEADER_BYTES &&
            (memo[0] == EXECUTE_INLINE || MemoLength(memo[0]) == Some(|memo|))
  {
  }

  lemma FeePayload(h: Header, rest: seq<byte>)
    requires |rest| == 40 && HeaderError(h).None?
    ensures var i := Fields(SET_REPLACEMENT_FEE, h, rest);
            Fits(i) && Payload(i) == rest && Canonical(i) == i
  {
    Pow256Of8();
    HexOfBytes(rest[..32]);
    BigEndianBound(rest[32..40]);
    EncodeBigEndian(rest[32..40]);
    assert rest == rest[..32] + rest[32..40];
  }

  lemma NoncePayload(h: Header, rest: seq<byte>)
    requires |rest| == 32 && HeaderError(h).None?
    ensures var i := Fields(SET_NONCE, h, rest);
            Fits(i) && Payload(i) == rest && Canonical(i) == i
  {
    BigEndianBound(rest);
    EncodeBigEndian(rest);
  }

  lemma PayloadOfFields(opcode: byte, h: Header, rest: seq<byte>)
    requires opcode == EXECUTE_INLINE || MemoLength(opcode) == Some(HEADER_BYTES + |rest|)
    requires HeaderError(h).None?
    ensures var i := Fields(opcode, h, rest);
            Fits(i) && Opcode(i) == opcode && i.header == h && Payload(i) == rest && Canonical(i) == i
  {
    if opcode == SET_REPLACEMENT_FEE {
      FeePayload(h, rest);
    } else if opcode == SET_NONCE {
      NoncePayload(h, rest);
    } else {
      HexOfBytes(rest);
    }
  }

  /** Every accepted memo is the layout of what it decodes to. */
  lemma LayoutDecoded(memo: seq<byte>)
    requires Decode(memo).Ok?
    ensures Fits(Decode(memo).value) && Layout(Decode(memo).value) == memo
    ensures Canonical(Decode(memo).value) == Decode(memo).value
  {
    Pow256Of8();
    BigEndianBound(memo[2..10]);
    EncodeBigEndian(memo[2..10]);
    PayloadOfFields(memo[0], Header(memo[1], FromBigEndian(memo[2..10])), memo[10..]);
    assert memo == [memo[0], memo[1]] + memo[2..10] + memo[10..];
  }

  /**
   * The other round trip. An accepted memo re-encodes to itself, save two
   * families the encoders refuse: an inline memo over the XRPL cap, and a
   * pin to the zero address.
   */
  lemma EncodeDecoded(memo: seq<byte>, checksummed: string -> bool)
    requires Decode(memo).Ok?
    ensures Encoded(Decode(memo).value, checksummed) ==
            if memo[0] == EXECUTE_INLINE && |memo| > XRPL_MEMO_MAX_BYTES then Err(OverXrplCap)
            else if memo[0] == SET_EXECUTOR && memo[10..] == seq(20, _ => 0) then Err(ZeroAddress)
            else Ok(memo)
  {
    LayoutDecoded(memo);
    var i := Decode(memo).value;
    if i.SetExecutor? {
      ZeroHex(memo[10..]);
    }
  }

  lemma ZeroHex(b: seq<byte>)
    ensures IsZeroAddress(ToHex(b)) <==> b == seq(20, _ => 0)
  {
    var zeros: seq<byte> := seq(20, _ => 0);
    UnpackZeros(20);
    HexOfBytes(b);
    HexOfBytes(zeros);
  }

  // ------------------------------------------------------------- XRPL wire form

  function ToXrplMemoHex(memo: seq<byte>): string {
    Upper(Unpack(memo))
  }

  method FromXrplMemoHex(hex: string) returns (r: Result<seq<byte>, MemoError>)
    ensures r == FromWire(hex)
  {
    var clean := if HasPrefix(hex) then hex[2..] else hex;
    var prefixed := "0x" + clean;
    assert prefixed[2..] == clean;
    r := HexToBytes(prefixed, None);
  }

  function FromWire(hex: string): Result<seq<byte>, MemoError> {
    var clean := if HasPrefix(hex) then hex[2..] else hex;
    if !AllDigits(clean) then Err(NotHex)
    else if |clean| % 2 != 0 then Err(OddHex)
    else Ok(Pack(clean))
  }

  /** The wire form is upper case without a prefix, and reads back to the same bytes. */
  lemma WireRoundTrip(memo: seq<byte>)
    ensures FromWire(ToXrplMemoHex(memo)) == Ok(memo)
    ensures forall k :: 0 <= k < |ToXrplMemoHex(memo)| ==> UpperChar(ToXrplMemoHex(memo)[k]) == ToXrplMemoHex(memo)[k]
  {
    UnpackDigits(memo);
    PackUpper(Unpack(memo));
    PackUnpack(memo);
    assert AllDigits(ToXrplMemoHex(memo));
    assert !HasPrefix(ToXrplMemoHex(memo)) by {
      assert !IsDigit('x');
      assert 2 <= |ToXrplMemoHex(memo)| ==> IsDigit(ToXrplMemoHex(memo)[1]);
    }
  }

  /** What was read from the wire, written again, is the text read, in upper case. */
  lemma WireRewrite(hex: string)
    requires FromWire(hex).Ok?
    ensures ToXrplMemoHex(FromWire(hex).value) == Upper(if HasPrefix(hex) then hex[2..] else hex)
  {
    var clean := if HasPrefix(hex) then hex[2..] else hex;
    UnpackPack(clean);
    assert Upper(Lower(clean)) == Upper(clean);
  }
}
