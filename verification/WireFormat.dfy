/**
 * The memo format over literal bytes: what the encoders emit and the decoder
 * accepts, said without the codec's own constants and functions.
 */
module WireFormat {
  import opened Results
  import opened Hex
  import Memo

  // ---------------------------------------------------------------- hex digits

  /** A hex digit of either case, by its ASCII code, and what it stands for. */
  predicate Digit(c: char, v: int) {
    || (0 <= v <= 9 && c as int == 48 + v)
    || (10 <= v <= 15 && (c as int == 87 + v || c as int == 55 + v))
  }

  predicate HexChar(c: char) {
    48 <= c as int <= 57 || 97 <= c as int <= 102 || 65 <= c as int <= 70
  }

  predicate InLowerCase(s: string) {
    forall k :: 0 <= k < |s| ==> !(65 <= s[k] as int <= 90)
  }

  /** Two digits that spell a byte, the high one first. */
  predicate Spelled(c: char, d: char, b: byte) {
    Digit(c, b / 16) && Digit(d, b % 16)
  }

  /** 0x, then two digits for each byte. */
  predicate Spells(text: string, bytes: seq<byte>) {
    && |text| == 2 + 2 * |bytes| && text[0] == '0' && text[1] == 'x'
    && forall k :: 0 <= k < |bytes| ==> Spelled(text[2 + 2 * k], text[3 + 2 * k], bytes[k])
  }

  /** 0x and digits for n bytes. */
  predicate HexText(text: string, n: nat) {
    |text| == 2 + 2 * n && text[0] == '0' && text[1] == 'x' && forall k :: 2 <= k < |text| ==> HexChar(text[k])
  }

  lemma DigitValue(c: char)
    ensures IsDigit(c) <==> HexChar(c)
    ensures IsDigit(c) ==> Digit(c, Value(c)) && forall v :: Digit(c, v) ==> v == Value(c)
  {
  }

  lemma OneByte(c: char, d: char)
    requires IsDigit(c) && IsDigit(d)
    ensures 0 <= 16 * Value(c) + Value(d) < 256 && Spelled(c, d, 16 * Value(c) + Value(d))
    ensures forall b: byte :: Spelled(c, d, b) ==> b == 16 * Value(c) + Value(d)
  {
    DigitValue(c);
    DigitValue(d);
    Pair(c, d);
  }

  lemma {:induction false} PackSpells(s: string, k: nat)
    requires AllDigits(s) && |s| % 2 == 0 && 2 * k < |s|
    ensures 2 * k + 1 < |s| && k < |Pack(s)| && Spelled(s[2 * k], s[2 * k + 1], Pack(s)[k])
    decreases k
  {
    WholeTail(s);
    OneByte(s[0], s[1]);
    if k > 0 {
      PackSpells(s[2..], k - 1);
      assert Pack(s)[k] == Pack(s[2..])[k - 1];
    }
  }

  lemma BytesSpell(text: string)
    requires IsHex(text) && |text| % 2 == 0
    ensures Spells(text, Memo.Bytes(text))
  {
    var body, b := text[2..], Memo.Bytes(text);
    forall k | 0 <= k < |b| ensures Spelled(text[2 + 2 * k], text[3 + 2 * k], b[k]) {
      PackSpells(body, k);
      assert body[2 * k] == text[2 + 2 * k] && body[2 * k + 1] == text[3 + 2 * k];
    }
  }

  lemma HexTextIs(text: string, n: nat)
    ensures HexText(text, n) <==> IsHex(text) && |text| == 2 + 2 * n
  {
    if |text| >= 2 {
      forall k | 2 <= k < |text| ensures HexChar(text[k]) <==> IsDigit(text[2..][k - 2]) {
        DigitValue(text[k]);
      }
      if HexText(text, n) {
        assert forall k :: 0 <= k < |text[2..]| ==> text[2..][k] == text[k + 2] && HexChar(text[k + 2]);
      }
    }
  }

  // --------------------------------------------------------------------- letters

  /** The same letter, in either case. */
  predicate SameLetter(a: char, b: char) {
    || a == b
    || (65 <= a as int <= 90 && b as int == a as int + 32)
    || (65 <= b as int <= 90 && a as int == b as int + 32)
  }

  predicate SameIgnoringCase(s: string, t: string) {
    |s| == |t| && forall k :: 0 <= k < |s| ==> SameLetter(s[k], t[k])
  }

  lemma LowerOnce(s: string, t: string)
    ensures Lower(s) == Lower(t) <==> SameIgnoringCase(s, t)
    ensures t == Lower(s) <==> SameIgnoringCase(s, t) && InLowerCase(t)
  {
    assert |Lower(s)| == |s| && |Lower(t)| == |t|;
    forall k | 0 <= k < |s| && k < |t|
      ensures Lower(s)[k] == Lower(t)[k] <==> SameLetter(s[k], t[k])
      ensures Lower(s)[k] == t[k] <==> SameLetter(s[k], t[k]) && !(65 <= t[k] as int <= 90)
    {
    }
    if Lower(s) == Lower(t) {
      assert forall k :: 0 <= k < |s| ==> Lower(s)[k] == Lower(t)[k];
    }
    if t == Lower(s) {
      assert forall k :: 0 <= k < |s| ==> Lower(s)[k] == t[k];
    }
  }

  // ---------------------------------------------------------------- big-endian

  /** Eight bytes, the first the most significant. */
  function Eight(b: seq<byte>): int
    requires |b| == 8
  {
    0x100_0000_0000_0000 * (b[0] as int) + 0x1_0000_0000_0000 * (b[1] as int)
    + 0x100_0000_0000 * (b[2] as int) + 0x1_0000_0000 * (b[3] as int)
    + 0x100_0000 * (b[4] as int) + 0x1_0000 * (b[5] as int) + 0x100 * (b[6] as int) + b[7] as int
  }

  /** Any number of bytes, the first the most significant. */
  function Number(b: seq<byte>): nat {
    if b == [] then 0 else b[0] * Pow256(|b| - 1) + Number(b[1..])
  }

  lemma {:induction false} NumberIs(b: seq<byte>)
    ensures Number(b) == FromBigEndian(b)
    decreases |b|
  {
    if |b| == 1 {
      assert b[1..] == [] && b[..0] == [];
    } else if b != [] {
      var init, last := b[..|b| - 1], b[|b| - 1];
      NumberIs(b[1..]);
      NumberIs(init);
      NumberIs(init[1..]);
      assert init[1..] == b[1..][..|b[1..]| - 1];
      Shift(b[0], Pow256(|b| - 2), FromBigEndian(init[1..]), last);
    }
  }

  lemma Shift(first: nat, p: nat, rest: nat, last: nat)
    ensures 256 * (first * p + rest) + last == first * (256 * p) + (256 * rest + last)
  {
    assert 256 * (first * p) == first * (256 * p);
  }

  lemma EightIs(b: seq<byte>)
    requires |b| == 8
    ensures Eight(b) == FromBigEndian(b)
  {
    FirstFour(b);
    FirstBytes(b, 5);
    FirstBytes(b, 6);
    FirstBytes(b, 7);
    FirstBytes(b, 8);
    assert b[..8] == b;
  }

  lemma FirstFour(b: seq<byte>)
    requires |b| >= 4
    ensures FromBigEndian(b[..4]) ==
            0x100_0000 * (b[0] as int) + 0x1_0000 * (b[1] as int) + 0x100 * (b[2] as int) + b[3] as int
  {
    assert FromBigEndian(b[..0]) == 0;
    FirstBytes(b, 1);
    FirstBytes(b, 2);
    FirstBytes(b, 3);
    FirstBytes(b, 4);
  }

  lemma FirstBytes(b: seq<byte>, n: nat)
    requires 0 < n <= |b|
    ensures FromBigEndian(b[..n]) == 256 * FromBigEndian(b[..n - 1]) + b[n - 1]
  {
    assert b[..n][..n - 1] == b[..n - 1];
  }

  // --------------------------------------------------------------- the format

  predicate Starts(m: seq<byte>, opcode: int, h: Memo.Header) {
    |m| >= 10 && m[0] == opcode && m[1] == h.walletId && Eight(m[2..10]) == h.executorFeeUBA
  }

  /** A memo that carries an instruction, byte by byte. */
  predicate Carries(m: seq<byte>, i: Memo.Instruction) {
    match i
    case ExecuteInline(h, data) => Starts(m, 0xff, h) && Spells(data, m[10..])
    case ExecuteCommitted(h, hash) => |m| == 42 && Starts(m, 0xfe, h) && Spells(hash, m[10..])
    case IgnoreMemo(h, target) => |m| == 42 && Starts(m, 0xe0, h) && Spells(target, m[10..])
    case SetNonce(h, nonce) => |m| == 42 && Starts(m, 0xe1, h) && Number(m[10..]) == nonce
    case SetReplacementFee(h, target, fee) =>
      |m| == 50 && Starts(m, 0xe2, h) && Spells(target, m[10..42]) && Eight(m[42..50]) == fee
    case SetExecutor(h, executor) => |m| == 30 && Starts(m, 0xd0, h) && Spells(executor, m[10..])
    case RemoveExecutor(h) => |m| == 10 && Starts(m, 0xd1, h)
  }

  lemma LayoutStarts(i: Memo.Instruction)
    requires Memo.Fits(i)
    ensures var m := Memo.Layout(i);
            |m| >= 10 && m[0] == Memo.Opcode(i) && Starts(m, m[0], i.header) && m[10..] == Memo.Payload(i)
  {
    var m := Memo.Layout(i);
    Pow256Of8();
    DecodeBigEndian(i.header.executorFeeUBA, 8);
    assert m[2..10] == BigEndian(i.header.executorFeeUBA, 8);
    EightIs(m[2..10]);
  }

  lemma LayoutCarries(i: Memo.Instruction)
    requires Memo.Fits(i)
    ensures Carries(Memo.Layout(i), i)
  {
    LayoutStarts(i);
    var m := Memo.Layout(i);
    match i
    case ExecuteInline(_, data) => BytesSpell(data);
    case ExecuteCommitted(_, hash) => BytesSpell(hash);
    case IgnoreMemo(_, target) => BytesSpell(target);
    case SetNonce(_, nonce) =>
      var width := |Memo.Payload(i)|;
      DecodeBigEndian(nonce, width);
      NumberIs(m[10..]);
    case SetReplacementFee(_, _, _) => LayoutCarriesFee(i);
    case SetExecutor(_, executor) => BytesSpell(executor);
    case RemoveExecutor(_) =>
  }

  lemma LayoutCarriesFee(i: Memo.Instruction)
    requires i.SetReplacementFee? && Memo.Fits(i)
    ensures Carries(Memo.Layout(i), i)
  {
    LayoutStarts(i);
    var m := Memo.Layout(i);
    BytesSpell(i.targetTxId);
    Pow256Of8();
    DecodeBigEndian(i.newFeeUBA, 8);
    assert m[10..42] == m[10..][..32] == Memo.Bytes(i.targetTxId);
    assert m[42..50] == m[10..][32..40] == BigEndian(i.newFeeUBA, 8);
    EightIs(m[42..50]);
  }

  // ------------------------------------------------------------- main results

  /** What an encoder emits, byte by byte, for each of the seven instructions. */
  lemma EncodedBytes(i: Memo.Instruction, checksummed: string -> bool)
    requires Memo.Encoded(i, checksummed).Ok?
    ensures var m := Memo.Encoded(i, checksummed).value;
            && Carries(m, i) && (i.ExecuteInline? ==> |m| <= 1024)
            && m[9] == i.header.executorFeeUBA % 256
  {
    Memo.EncodableFits(i, checksummed);
    LayoutCarries(i);
    LayoutStarts(i);
    var m := Memo.Encoded(i, checksummed).value;
    assert m[2..10][7] == m[9];
  }

  /** Wallet id and fee fit a byte and eight bytes. */
  predicate HeaderFits(h: Memo.Header) {
    0 <= h.walletId <= 255 && 0 <= h.executorFeeUBA < 0x1_0000_0000_0000_0000
  }

  const TWO_TO_64: nat := 0x1_0000_0000_0000_0000
  const TWO_TO_256: nat := TWO_TO_64 * TWO_TO_64 * TWO_TO_64 * TWO_TO_64

  lemma Pow256Of32()
    ensures Pow256(32) == TWO_TO_256
  {
    Pow256Of8();
    PowAdds(8, 8);
    PowAdds(16, 8);
    PowAdds(24, 8);
  }

  lemma {:induction false} PowAdds(j: nat, k: nat)
    ensures Pow256(j + k) == Pow256(j) * Pow256(k)
    decreases k
  {
    if k > 0 {
      PowAdds(j, k - 1);
      assert Pow256(j) * (256 * Pow256(k - 1)) == 256 * (Pow256(j) * Pow256(k - 1));
    }
  }

  /** What an instruction needs to be encoded. */
  predicate Encodable(i: Memo.Instruction, checksummed: string -> bool) {
    HeaderFits(i.header) &&
    match i
    case ExecuteInline(_, data) => exists n: nat :: n <= 1014 && HexText(data, n)
    case ExecuteCommitted(_, hash) => HexText(hash, 32)
    case IgnoreMemo(_, target) => HexText(target, 32)
    case SetNonce(_, nonce) => 0 <= nonce < TWO_TO_256
    case SetReplacementFee(_, target, fee) => HexText(target, 32) && 0 <= fee < TWO_TO_64
    case SetExecutor(_, executor) =>
      && HexText(executor, 20) && (InLowerCase(executor) || checksummed(executor))
      && exists k :: 2 <= k < |executor| && executor[k] != '0'
    case RemoveExecutor(_) => true
  }

  lemma InlineExactlyWhen(data: string)
    ensures (Memo.HexError(data, None).None? && 10 + |data| / 2 - 1 <= 1024) <==>
            exists n: nat :: n <= 1014 && HexText(data, n)
  {
    if |data| >= 2 && |data| % 2 == 0 {
      HexTextIs(data, (|data| - 2) / 2);
    }
    forall n: nat | HexText(data, n) ensures IsHex(data) && |data| == 2 + 2 * n {
      HexTextIs(data, n);
    }
  }

  lemma ExecutorExactlyWhen(a: string, checksummed: string -> bool)
    ensures (Memo.IsAddress(a, checksummed) && !Memo.IsZeroAddress(a)) <==>
            && HexText(a, 20) && (InLowerCase(a) || checksummed(a))
            && exists k :: 2 <= k < |a| && a[k] != '0'
  {
    HexTextIs(a, 20);
    LowerCaseIs(a);
    if HexText(a, 20) {
      ZeroAddressIs(a);
    }
  }

  lemma TextExactlyWhen(i: Memo.Instruction, checksummed: string -> bool)
    requires i.ExecuteCommitted? || i.IgnoreMemo? || i.SetReplacementFee?
    ensures Memo.Encoded(i, checksummed).Ok? <==> Encodable(i, checksummed)
  {
    HexTextIs(if i.ExecuteCommitted? then i.userOpHash else i.targetTxId, 32);
  }

  /** Which instructions the encoders accept, exactly. */
  lemma EncodesExactlyWhen(i: Memo.Instruction, checksummed: string -> bool)
    ensures Memo.Encoded(i, checksummed).Ok? <==> Encodable(i, checksummed)
  {
    if i.ExecuteInline? {
      InlineExactlyWhen(i.userOpData);
    } else if i.SetNonce? {
      Pow256Of32();
    } else if i.SetExecutor? {
      ExecutorExactlyWhen(i.executor, checksummed);
    } else if !i.RemoveExecutor? {
      TextExactlyWhen(i, checksummed);
    }
  }

  lemma LowerCaseIs(s: string)
    ensures Lower(s) == s <==> InLowerCase(s)
  {
    if Lower(s) == s {
      assert forall k :: 0 <= k < |s| ==> LowerChar(s[k]) == Lower(s)[k] == s[k];
    }
  }

  lemma ZeroAddressIs(a: string)
    requires |a| == 42 && a[0] == '0' && a[1] == 'x'
    ensures Memo.IsZeroAddress(a) <==> forall k :: 2 <= k < |a| ==> a[k] == '0'
  {
    var zero := "0x" + seq(40, _ => '0');
    assert |zero| == 42 && forall k :: 2 <= k < 42 ==> zero[k] == '0';
    assert zero[0] == '0' && zero[1] == 'x';
  }

  /** The first bytes and lengths of the memos there are. */
  predicate Known(m: seq<byte>) {
    && |m| >= 10
    && (|| m[0] == 0xff
        || ((m[0] == 0xfe || m[0] == 0xe0 || m[0] == 0xe1) && |m| == 42)
        || (m[0] == 0xe2 && |m| == 50)
        || (m[0] == 0xd0 && |m| == 30)
        || (m[0] == 0xd1 && |m| == 10))
  }

  /** The text of a decoded instruction, if it has one. */
  predicate TextInLowerCase(i: Memo.Instruction) {
    match i
    case ExecuteInline(_, data) => InLowerCase(data)
    case ExecuteCommitted(_, hash) => InLowerCase(hash)
    case IgnoreMemo(_, target) => InLowerCase(target)
    case SetReplacementFee(_, target, _) => InLowerCase(target)
    case SetExecutor(_, executor) => InLowerCase(executor)
    case _ => true
  }

  /** Which memos decode, exactly, and to what: the instruction they carry, byte by byte. */
  lemma DecodesExactlyWhen(m: seq<byte>)
    ensures Memo.Decode(m).Ok? <==> Known(m)
    ensures Memo.Decode(m).Ok? ==> Carries(m, Memo.Decode(m).value) && TextInLowerCase(Memo.Decode(m).value)
  {
    Memo.DecodeAccepts(m);
    if Memo.Decode(m).Ok? {
      Memo.LayoutDecoded(m);
      LayoutCarries(Memo.Decode(m).value);
      DecodedLower(m);
    }
  }

  lemma DecodedLower(m: seq<byte>)
    requires Memo.Decode(m).Ok?
    ensures TextInLowerCase(Memo.Decode(m).value)
  {
    Memo.LayoutDecoded(m);
    match Memo.Decode(m).value
    case ExecuteInline(_, data) => LowerCaseIs(data);
    case ExecuteCommitted(_, hash) => LowerCaseIs(hash);
    case IgnoreMemo(_, target) => LowerCaseIs(target);
    case SetReplacementFee(_, target, _) => LowerCaseIs(target);
    case SetExecutor(_, executor) => LowerCaseIs(executor);
    case _ =>
  }

  /** The XRPL form: two upper-case digits for each byte, without a prefix. */
  lemma WireDigits(m: seq<byte>)
    ensures var text := Memo.ToXrplMemoHex(m);
            && |text| == 2 * |m|
            && (forall k :: 0 <= k < |text| ==> 48 <= text[k] as int <= 57 || 65 <= text[k] as int <= 70)
            && forall k :: 0 <= k < |m| ==> Spelled(text[2 * k], text[2 * k + 1], m[k])
  {
    var text := Memo.ToXrplMemoHex(m);
    UnpackDigits(m);
    PackUpper(Unpack(m));
    PackUnpack(m);
    forall k | 0 <= k < |text| ensures 48 <= text[k] as int <= 57 || 65 <= text[k] as int <= 70 {
      assert IsDigit(Unpack(m)[k]) && Lower(Unpack(m))[k] == Unpack(m)[k];
    }
    forall k | 0 <= k < |m| ensures Spelled(text[2 * k], text[2 * k + 1], m[k]) {
      PackSpells(text, k);
    }
  }

  /** Text from the wire, with or without 0x, reads as the bytes it spells, and only such text is read. */
  lemma WireReads(hex: string)
    ensures var r := Memo.FromWire(hex);
            var body := if |hex| >= 2 && hex[0] == '0' && hex[1] == 'x' then hex[2..] else hex;
            && (r.Ok? <==> |body| % 2 == 0 && forall k :: 0 <= k < |body| ==> HexChar(body[k]))
            && (r.Ok? ==> |body| == 2 * |r.value|)
            && (r.Ok? ==> forall k :: 0 <= k < |r.value| ==> Spelled(body[2 * k], body[2 * k + 1], r.value[k]))
  {
    var r := Memo.FromWire(hex);
    var body := if |hex| >= 2 && hex[0] == '0' && hex[1] == 'x' then hex[2..] else hex;
    forall k | 0 <= k < |body| ensures HexChar(body[k]) <==> IsDigit(body[k]) {
      DigitValue(body[k]);
    }
    if r.Ok? {
      forall k | 0 <= k < |r.value| ensures Spelled(body[2 * k], body[2 * k + 1], r.value[k]) {
        PackSpells(body, k);
      }
    }
  }
}
