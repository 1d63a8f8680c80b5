/** The gas that a user operation must offer for what the EntryPoint cannot measure, after EIP-7623, over exact reals. */
module PreVerificationGas {
  import opened Common
  import opened UserOpCodec

  datatype GasConfig = GasConfig(
    transactionGasStipend: real, fixedGasOverhead: real, perUserOpGasOverhead: real, perUserOpWordGasOverhead: real,
    executeUserOpGasOverhead: real, executeUserOpPerWordGasOverhead: real, standardTokenGasCost: real, useEip7623: bool,
    floorPerTokenGasCost: real, tokensPerNonzeroByte: real, eip7702AuthGas: real, expectedBundleSize: real,
    estimationSignatureSize: nat, estimationPaymasterDataSize: nat)

  const MAINNET_CONFIG := GasConfig(21000.0, 9830.0, 7260.0, 9.5, 1610.0, 8.2, 4.0, true, 10.0, 4.0, 25000.0, 1.0, 65, 0)

  datatype GasOptions = GasOptions(verificationGasUsed: Option<real>, totalGasUsed: Option<real>)

  datatype GasError = Packing(error: CodecError) | NotEncodable | FractionalGas | UnsafeGas

  // ---------- the bytes that go on chain ----------

  function Word(n: nat): (r: Bytes)
    ensures |r| == 32
  {
    BigEndian(n, 32)
  }

  /** The zeros that fill `n` bytes up to whole words. */
  function Fill(n: nat): Bytes { Zeros((32 - n % 32) % 32) }

  function Dynamic(data: Bytes): Bytes { Word(|data|) + data + Fill(|data|) }

  function Concat(parts: seq<Bytes>): Bytes {
    if parts == [] then [] else parts[0] + Concat(parts[1..])
  }

  predicate Uint256(n: int) { 0 <= n < TWO_TO_THE_256 }

  /** The words in front of the preVerificationGas word; the nine head words take 288 bytes. */
  function Front(sender: Bytes, nonce: nat, initCode: Bytes, accountGasLimits: Bytes): Bytes {
    FrontOf(Zeros(12), sender, Word(nonce), Word(288), Word(288 + |Dynamic(initCode)|), accountGasLimits)
  }

  function FrontOf(zeros: Bytes, sender: Bytes, nonce: Bytes, initCodeAt: Bytes, callDataAt: Bytes, limits: Bytes): Bytes {
    Concat([zeros, sender, nonce, initCodeAt, callDataAt, limits])
  }

  /** What stands between the preVerificationGas word and the bytes of the signature. */
  function Middle(gasFees: Bytes, initCode: Bytes, callData: Bytes, paymasterAndData: Bytes, signatureLength: nat): Bytes {
    var paymasterAt := 288 + |Dynamic(initCode)| + |Dynamic(callData)|;
    MiddleOf(gasFees, Word(paymasterAt), Word(paymasterAt + |Dynamic(paymasterAndData)|), Dynamic(initCode),
             Dynamic(callData), Dynamic(paymasterAndData), Word(signatureLength))
  }

  function MiddleOf(fees: Bytes, paymasterAt: Bytes, signatureAt: Bytes,
                    initCode: Bytes, callData: Bytes, paymaster: Bytes, length: Bytes)
      : Bytes
  {
    Concat([fees, paymasterAt, signatureAt, initCode, callData, paymaster, length])
  }

  function Assembled(front: Bytes, gas: nat, middle: Bytes, signature: Bytes): Bytes {
    front + Word(gas) + middle + (signature + Fill(|signature|))
  }

  /** The ABI encoding of all nine packed fields. */
  function EncodePacked(p: PackedUserOperation): Result<Bytes, GasError> {
    if |p.sender| != 20 || !Uint256(p.nonce) || !Uint256(p.preVerificationGas) then Failure(NotEncodable)
    else Success(Assembled(Front(p.sender, p.nonce, p.initCode, p.accountGasLimits), p.preVerificationGas,
                           Middle(p.gasFees, p.initCode, p.callData, p.paymasterAndData, |p.signature|), p.signature))
  }

  function EncodeUserOp(op: UserOperation): Result<Bytes, GasError> {
    match PackUserOp(op)
    case Failure(e) => Failure(Packing(e))
    case Success(p) => EncodePacked(p)
  }

  // ---------- reading an encoding back ----------

  /** `x` stands in `e` from `at` on. */
  ghost predicate Stands(e: Bytes, at: nat, x: Bytes) { at + |x| <= |e| && e[at..at + |x|] == x }

  /** The word at `at` is the number `n`. */
  ghost predicate Reads(e: Bytes, at: nat, n: int) { at + 32 <= |e| && Value(e[at..at + 32]) == n }

  /** The word at `head` points to a length word and as many bytes behind it, which are `data`. */
  ghost predicate PointsTo(e: Bytes, head: nat, data: Bytes) {
    head + 32 <= |e| && Reads(e, Value(e[head..head + 32]), |data|) && Stands(e, Value(e[head..head + 32]) + 32, data)
  }

  /** What an ABI decoder makes of the encoding, read word by word. */
  ghost predicate DecodesTo(e: Bytes, p: PackedUserOperation) {
    && |e| % 32 == 0
    && Stands(e, 12, p.sender) && Reads(e, 32, p.nonce) && PointsTo(e, 64, p.initCode) && PointsTo(e, 96, p.callData)
    && Stands(e, 128, p.accountGasLimits) && Reads(e, 160, p.preVerificationGas) && Stands(e, 192, p.gasFees)
    && PointsTo(e, 224, p.paymasterAndData) && PointsTo(e, 256, p.signature)
  }

  lemma ConcatCons(first: Bytes, rest: seq<Bytes>)
    ensures Concat([first] + rest) == first + Concat(rest)
  {
    assert ([first] + rest)[1..] == rest;
  }

  lemma ConcatThree(a: Bytes, b: Bytes, c: Bytes, rest: seq<Bytes>)
    ensures Concat([a, b, c] + rest) == a + b + c + Concat(rest)
  {
    ConcatCons(a, [b, c] + rest);
    ConcatCons(b, [c] + rest);
    ConcatCons(c, rest);
    assert [a, b, c] + rest == [a] + ([b, c] + rest) && [b, c] + rest == [b] + ([c] + rest);
    assert a + (b + (c + Concat(rest))) == a + b + c + Concat(rest);
  }

  lemma Join(a: Bytes, b: Bytes, at: nat, x: Bytes)
    ensures Stands(a, at, x) ==> Stands(a + b, at, x)
    ensures Stands(b, at, x) ==> Stands(a + b, |a| + at, x)
  {
  }

  lemma ThreeStand(a: Bytes, b: Bytes, c: Bytes, rest: Bytes)
    ensures Stands(a + b + c + rest, 0, a) && Stands(a + b + c + rest, |a|, b) && Stands(a + b + c + rest, |a| + |b|, c)
    ensures Stands(a + b + c + rest, |a| + |b| + |c|, rest)
  {
  }

  /** The front of an encoding, by the words that it is made of. */
  lemma FrontStands(zeros: Bytes, sender: Bytes, nonce: Bytes, initCodeAt: Bytes, callDataAt: Bytes, limits: Bytes)
    requires |zeros| == 12 && |sender| == 20 && |nonce| == 32 && |initCodeAt| == 32 && |callDataAt| == 32 && |limits| == 32
    ensures var f := FrontOf(zeros, sender, nonce, initCodeAt, callDataAt, limits);
            && |f| == 160 && Stands(f, 12, sender) && Stands(f, 32, nonce) && Stands(f, 64, initCodeAt)
            && Stands(f, 96, callDataAt) && Stands(f, 128, limits)
  {
    var half := initCodeAt + callDataAt + limits;
    ConcatThree(zeros, sender, nonce, [initCodeAt, callDataAt, limits]);
    ConcatThree(initCodeAt, callDataAt, limits, []);
    assert [zeros, sender, nonce, initCodeAt, callDataAt, limits] == [zeros, sender, nonce] + [initCodeAt, callDataAt, limits];
    assert [initCodeAt, callDataAt, limits] + [] == [initCodeAt, callDataAt, limits];
    assert Concat([initCodeAt, callDataAt, limits]) == half + [] == half;
    hide Concat, Stands;
    ThreeStand(zeros, sender, nonce, half);
    ThreeStand(initCodeAt, callDataAt, limits, []);
    Join(zeros + sender + nonce, half, 0, initCodeAt);
    Join(zeros + sender + nonce, half, 32, callDataAt);
    Join(zeros + sender + nonce, half, 64, limits);
  }

  /** What stands between the preVerificationGas word and the signature. */
  lemma MiddleStands(fees: Bytes, paymasterAt: Bytes, signatureAt: Bytes,
                     initCode: Bytes, callData: Bytes, paymaster: Bytes, length: Bytes)
    requires |fees| == 32 && |paymasterAt| == 32 && |signatureAt| == 32
    ensures var m := MiddleOf(fees, paymasterAt, signatureAt, initCode, callData, paymaster, length);
            && |m| == 96 + |initCode| + |callData| + |paymaster| + |length|
            && Stands(m, 0, fees) && Stands(m, 32, paymasterAt) && Stands(m, 64, signatureAt)
            && Stands(m, 96, initCode) && Stands(m, 96 + |initCode|, callData)
            && Stands(m, 96 + |initCode| + |callData|, paymaster)
            && Stands(m, 96 + |initCode| + |callData| + |paymaster|, length)
  {
    var half := initCode + callData + paymaster + length;
    ConcatThree(fees, paymasterAt, signatureAt, [initCode, callData, paymaster, length]);
    ConcatThree(initCode, callData, paymaster, [length]);
    ConcatCons(length, []);
    assert [fees, paymasterAt, signatureAt, initCode, callData, paymaster, length]
        == [fees, paymasterAt, signatureAt] + [initCode, callData, paymaster, length];
    assert [initCode, callData, paymaster] + [length] == [initCode, callData, paymaster, length] && [length] + [] == [length];
    assert Concat([length]) == length + [] == length;
    hide Concat, Stands;
    ThreeStand(fees, paymasterAt, signatureAt, half);
    ThreeStand(initCode, callData, paymaster, length);
    Join(fees + paymasterAt + signatureAt, half, 0, initCode);
    Join(fees + paymasterAt + signatureAt, half, |initCode|, callData);
    Join(fees + paymasterAt + signatureAt, half, |initCode| + |callData|, paymaster);
    Join(fees + paymasterAt + signatureAt, half, |initCode| + |callData| + |paymaster|, length);
  }

  lemma InFront(front: Bytes, gas: nat, middle: Bytes, signature: Bytes, at: nat, x: Bytes)
    requires Stands(front, at, x)
    ensures Stands(Assembled(front, gas, middle, signature), at, x)
  {
    hide Stands, Fill;
    Join(front, Word(gas), at, x);
    Join(front + Word(gas), middle, at, x);
    Join(front + Word(gas) + middle, signature + Fill(|signature|), at, x);
  }

  lemma InMiddle(front: Bytes, gas: nat, middle: Bytes, signature: Bytes, at: nat, x: Bytes)
    requires |front| == 160 && Stands(middle, at, x)
    ensures Stands(Assembled(front, gas, middle, signature), 192 + at, x)
  {
    hide Stands, Fill;
    Join(front + Word(gas), middle, at, x);
    Join(front + Word(gas) + middle, signature + Fill(|signature|), 192 + at, x);
  }

  lemma GasAndSignatureStand(front: Bytes, gas: nat, middle: Bytes, signature: Bytes)
    requires |front| == 160
    ensures Stands(Assembled(front, gas, middle, signature), 160, Word(gas))
    ensures Stands(Assembled(front, gas, middle, signature), 192 + |middle|, signature)
  {
    hide Fill;
    assert Stands(front + Word(gas), 160, Word(gas));
    Join(front + Word(gas), middle, 160, Word(gas));
    Join(front + Word(gas) + middle, signature + Fill(|signature|), 160, Word(gas));
    assert Stands(signature + Fill(|signature|), 0, signature);
    Join(front + Word(gas) + middle, signature + Fill(|signature|), 0, signature);
  }

  lemma WordReads(e: Bytes, at: nat, n: nat)
    requires Stands(e, at, Word(n)) && Uint256(n)
    ensures Reads(e, at, n) && Value(e[at..at + 32]) == n
  {
    WordBound();
    ValueOfBigEndian(n, 32);
  }

  lemma DynamicStands(e: Bytes, at: nat, data: Bytes)
    requires Stands(e, at, Dynamic(data))
    ensures Stands(e, at, Word(|data|)) && Stands(e, at + 32, data)
  {
    var d := Dynamic(data);
    assert d == Word(|data|) + data + Fill(|data|) + [];
    hide Dynamic, Word, Fill, Stands;
    ThreeStand(Word(|data|), data, Fill(|data|), []);
    Within(e, at, d, 0, Word(|data|));
    Within(e, at, d, 32, data);
  }

  lemma Within(e: Bytes, at: nat, d: Bytes, i: nat, x: Bytes)
    requires Stands(e, at, d) && Stands(d, i, x)
    ensures Stands(e, at + i, x)
  {
    forall k | 0 <= k < |x| ensures e[at + i + k] == x[k] {
      assert e[at..at + |d|][i + k] == d[i + k] && d[i..i + |x|][k] == x[k];
    }
  }

  lemma PointerReads(e: Bytes, head: nat, at: nat, data: Bytes)
    requires Stands(e, head, Word(at)) && Stands(e, at, Word(|data|)) && Stands(e, at + 32, data) && Uint256(|e|)
    ensures PointsTo(e, head, data)
  {
    LengthFits(at, |e|);
    WordReads(e, head, at);
    LengthFits(|data|, |e|);
    WordReads(e, at, |data|);
  }

  lemma LengthFits(n: nat, m: nat)
    requires n <= m && Uint256(m)
    ensures Uint256(n)
  {
  }

  lemma DynamicPointer(e: Bytes, head: nat, at: nat, data: Bytes)
    requires Stands(e, head, Word(at)) && Stands(e, at, Dynamic(data)) && Uint256(|e|)
    ensures PointsTo(e, head, data)
  {
    DynamicStands(e, at, data);
    PointerReads(e, head, at, data);
  }

  lemma WholeWords(data: Bytes)
    ensures |Dynamic(data)| % 32 == 0 && (|data| + |Fill(|data|)|) % 32 == 0
  {
    FilledUp(|data|, |data| / 32, |data| % 32);
  }

  lemma FilledUp(n: nat, k: nat, r: nat)
    requires n == 32 * k + r && r < 32 && r == n % 32
    ensures (n + |Fill(n)|) % 32 == 0 && (32 + n + |Fill(n)|) % 32 == 0
  {
    assert |Fill(n)| == if r == 0 then 0 else 32 - r;
  }

  lemma FrontParts(sender: Bytes, nonce: nat, initCode: Bytes, limits: Bytes, head: nat)
    requires |sender| == 20 && |limits| == 32 && head == 288
    ensures var f := Front(sender, nonce, initCode, limits);
            && |f| == 160 && Stands(f, 12, sender) && Stands(f, 32, Word(nonce)) && Stands(f, 64, Word(head))
            && Stands(f, 96, Word(head + |Dynamic(initCode)|)) && Stands(f, 128, limits)
  {
    hide FrontOf, Stands, Word, Dynamic, Zeros;
    FrontStands(Zeros(12), sender, Word(nonce), Word(head), Word(head + |Dynamic(initCode)|), limits);
  }

  lemma MiddleParts(fees: Bytes, initCode: Bytes, callData: Bytes, paymaster: Bytes, length: nat,
                    callDataAt: nat, paymasterAt: nat, signatureAt: nat)
    requires |fees| == 32 && callDataAt == 288 + |Dynamic(initCode)| && paymasterAt == callDataAt + |Dynamic(callData)|
    requires signatureAt == paymasterAt + |Dynamic(paymaster)|
    ensures var m := Middle(fees, initCode, callData, paymaster, length);
            && |m| == signatureAt - 192 + 32
            && Stands(m, 0, fees) && Stands(m, 32, Word(paymasterAt)) && Stands(m, 64, Word(signatureAt))
            && Stands(m, 96, Dynamic(initCode)) && Stands(m, callDataAt - 192, Dynamic(callData))
            && Stands(m, paymasterAt - 192, Dynamic(paymaster)) && Stands(m, signatureAt - 192, Word(length))
  {
    hide MiddleOf, Stands, Word, Dynamic;
    MiddleStands(fees, Word(paymasterAt), Word(signatureAt), Dynamic(initCode), Dynamic(callData), Dynamic(paymaster), Word(length));
  }

  lemma EncodedAs(p: PackedUserOperation, front: Bytes, middle: Bytes)
    requires |p.sender| == 20 && Uint256(p.nonce) && Uint256(p.preVerificationGas)
    requires front == Front(p.sender, p.nonce, p.initCode, p.accountGasLimits)
    requires middle == Middle(p.gasFees, p.initCode, p.callData, p.paymasterAndData, |p.signature|)
    ensures EncodePacked(p) == Success(Assembled(front, p.preVerificationGas, middle, p.signature))
  {
  }

  /** The encoding is the ABI encoding: read back, it gives every field of the packed operation. */
  lemma EncodingReadsBack(p: PackedUserOperation, e: Bytes)
    requires EncodePacked(p) == Success(e) && |p.accountGasLimits| == 32 && |p.gasFees| == 32 && Uint256(|e|)
    ensures DecodesTo(e, p)
  {
    var front := Front(p.sender, p.nonce, p.initCode, p.accountGasLimits);
    var middle := Middle(p.gasFees, p.initCode, p.callData, p.paymasterAndData, |p.signature|);
    var head := 288;
    hide Front, Middle, Dynamic, Word, Stands, Assembled, DecodesTo;
    EncodedAs(p, front, middle);
    PartsDecode(p, e, front, middle, head);
  }

  lemma PartsDecode(p: PackedUserOperation, e: Bytes, front: Bytes, middle: Bytes, head: nat)
    requires |p.sender| == 20 && Uint256(p.nonce) && Uint256(p.preVerificationGas) && |p.accountGasLimits| == 32 && |p.gasFees| == 32
    requires front == Front(p.sender, p.nonce, p.initCode, p.accountGasLimits) && head == 288
    requires middle == Middle(p.gasFees, p.initCode, p.callData, p.paymasterAndData, |p.signature|)
    requires e == Assembled(front, p.preVerificationGas, middle, p.signature) && Uint256(|e|)
    ensures DecodesTo(e, p)
  {
    var callDataAt := head + |Dynamic(p.initCode)|;
    var paymasterAt := callDataAt + |Dynamic(p.callData)|;
    var signatureAt := paymasterAt + |Dynamic(p.paymasterAndData)|;
    hide Front, Middle, Dynamic, Word, Stands, Fill, PointsTo, Reads, Assembled;
    FrontParts(p.sender, p.nonce, p.initCode, p.accountGasLimits, head);
    MiddleParts(p.gasFees, p.initCode, p.callData, p.paymasterAndData, |p.signature|, callDataAt, paymasterAt, signatureAt);
    HeadDecodes(e, front, p.preVerificationGas, middle, p.signature, p.sender, p.nonce, p.accountGasLimits, p.gasFees);
    InitCodeDecodes(e, front, p.preVerificationGas, middle, p.signature, p.initCode, head);
    CallDataDecodes(e, front, p.preVerificationGas, middle, p.signature, p.callData, callDataAt);
    PaymasterDecodes(e, front, p.preVerificationGas, middle, p.signature, p.paymasterAndData, paymasterAt);
    SignatureDecodes(e, front, p.preVerificationGas, middle, p.signature, signatureAt);
    WholeEncoding(p, e, front, middle, signatureAt);
  }

  lemma WholeEncoding(p: PackedUserOperation, e: Bytes, front: Bytes, middle: Bytes, signatureAt: nat)
    requires |front| == 160 && |middle| == signatureAt - 192 + 32 && Uint256(p.preVerificationGas)
    requires e == Assembled(front, p.preVerificationGas, middle, p.signature)
    requires signatureAt == 288 + |Dynamic(p.initCode)| + |Dynamic(p.callData)| + |Dynamic(p.paymasterAndData)|
    ensures |e| % 32 == 0
  {
    WholeWords(p.initCode);
    WholeWords(p.callData);
    WholeWords(p.paymasterAndData);
    WholeWords(p.signature);
    hide Dynamic, Fill;
    AssembledSize(front, p.preVerificationGas, middle, p.signature);
  }

  lemma AssembledSize(front: Bytes, gas: nat, middle: Bytes, signature: Bytes)
    ensures |Assembled(front, gas, middle, signature)| == |front| + 32 + |middle| + (|signature| + |Fill(|signature|)|)
  {
  }

  lemma HeadDecodes(e: Bytes, front: Bytes, gas: nat, middle: Bytes, signature: Bytes,
                    sender: Bytes, nonce: nat, limits: Bytes, fees: Bytes)
    requires e == Assembled(front, gas, middle, signature) && |front| == 160 && Uint256(nonce) && Uint256(gas)
    requires Stands(front, 12, sender) && Stands(front, 32, Word(nonce)) && Stands(front, 128, limits) && Stands(middle, 0, fees)
    ensures Stands(e, 12, sender) && Reads(e, 32, nonce) && Stands(e, 128, limits) && Reads(e, 160, gas) && Stands(e, 192, fees)
  {
    hide Stands, Assembled, Word;
    InFront(front, gas, middle, signature, 12, sender);
    InFront(front, gas, middle, signature, 32, Word(nonce));
    InFront(front, gas, middle, signature, 128, limits);
    GasAndSignatureStand(front, gas, middle, signature);
    InMiddle(front, gas, middle, signature, 0, fees);
    WordReads(e, 32, nonce);
    WordReads(e, 160, gas);
  }

  lemma InitCodeDecodes(e: Bytes, front: Bytes, gas: nat, middle: Bytes, signature: Bytes, data: Bytes, at: nat)
    requires e == Assembled(front, gas, middle, signature) && |front| == 160 && Uint256(|e|) && at == 288
    requires Stands(front, 64, Word(at)) && Stands(middle, 96, Dynamic(data))
    ensures PointsTo(e, 64, data)
  {
    hide Stands, Assembled, Word, Dynamic;
    InFront(front, gas, middle, signature, 64, Word(at));
    InMiddle(front, gas, middle, signature, 96, Dynamic(data));
    DynamicPointer(e, 64, at, data);
  }

  lemma CallDataDecodes(e: Bytes, front: Bytes, gas: nat, middle: Bytes, signature: Bytes, data: Bytes, at: nat)
    requires e == Assembled(front, gas, middle, signature) && |front| == 160 && Uint256(|e|) && at >= 288
    requires Stands(front, 96, Word(at)) && Stands(middle, at - 192, Dynamic(data))
    ensures PointsTo(e, 96, data)
  {
    hide Stands, Assembled, Word, Dynamic;
    InFront(front, gas, middle, signature, 96, Word(at));
    InMiddle(front, gas, middle, signature, at - 192, Dynamic(data));
    DynamicPointer(e, 96, at, data);
  }

  lemma PaymasterDecodes(e: Bytes, front: Bytes, gas: nat, middle: Bytes, signature: Bytes, data: Bytes, at: nat)
    requires e == Assembled(front, gas, middle, signature) && |front| == 160 && Uint256(|e|) && at >= 288
    requires Stands(middle, 32, Word(at)) && Stands(middle, at - 192, Dynamic(data))
    ensures PointsTo(e, 224, data)
  {
    hide Stands, Assembled, Word, Dynamic;
    InMiddle(front, gas, middle, signature, 32, Word(at));
    InMiddle(front, gas, middle, signature, at - 192, Dynamic(data));
    DynamicPointer(e, 224, at, data);
  }

  lemma SignatureDecodes(e: Bytes, front: Bytes, gas: nat, middle: Bytes, signature: Bytes, at: nat)
    requires e == Assembled(front, gas, middle, signature) && |front| == 160 && Uint256(|e|) && at >= 288
    requires Stands(middle, 64, Word(at)) && Stands(middle, at - 192, Word(|signature|)) && |middle| == at - 192 + 32
    ensures PointsTo(e, 256, signature)
  {
    hide Stands, Assembled, Word;
    InMiddle(front, gas, middle, signature, 64, Word(at));
    InMiddle(front, gas, middle, signature, at - 192, Word(|signature|));
    GasAndSignatureStand(front, gas, middle, signature);
    PointerReads(e, 256, at, signature);
  }

  /** What can be encoded at all: an address of 20 bytes and two numbers of 256 bits. */
  lemma EncodableIff(p: PackedUserOperation)
    ensures EncodePacked(p).Success? <==> |p.sender| == 20 && Uint256(p.nonce) && Uint256(p.preVerificationGas)
  {
  }

  /** Encoding an operation fails with the error of packing it, and else exactly when the sender is no address or a number
      has no 256 bits. */
  lemma EncodeFailsIff(op: UserOperation)
    ensures forall e :: EncodeUserOp(op) == Failure(Packing(e)) <==> PackUserOp(op) == Failure(e)
    ensures EncodeUserOp(op) == Failure(NotEncodable) <==>
              PackUserOp(op).Success? && !(|op.sender| == 20 && Uint256(op.nonce) && Uint256(op.preVerificationGas))
  {
    hide PackedPaymaster, PackUint, InitCode, Assembled, Front, Middle;
    if PackUserOp(op).Success? { EncodableIff(PackUserOp(op).value); }
  }

  // ---------- tokens ----------

  /** A number stored into a `Uint8Array` loses its fraction and everything above eight bits. */
  function ToUint8(x: real): byte { (if x >= 0.0 then x.Floor else -((-x).Floor)) % 256 }

  /** The fraction goes on either side of zero, and the rest is taken modulo 256. */
  lemma ToUint8Means(n: nat, fraction: real)
    requires 0.0 <= fraction < 1.0
    ensures ToUint8(n as real + fraction) == n % 256 && ToUint8(-(n as real + fraction)) == (256 - n % 256) % 256
  {
    assert (n as real + fraction).Floor == n;
    if n == 0 && fraction == 0.0 { assert -(n as real + fraction) == 0.0; } else { assert (-(-(n as real + fraction))).Floor == n; }
  }

  function Tokens(bytes: Bytes, perNonzero: byte): nat {
    if bytes == [] then 0
    else Tokens(bytes[..|bytes| - 1], perNonzero) + if bytes[|bytes| - 1] == 0 then 1 else perNonzero
  }

  lemma {:induction false} TokensOfConcat(a: Bytes, b: Bytes, w: byte)
    ensures Tokens(a + b, w) == Tokens(a, w) + Tokens(b, w)
  {
    if b == [] {
      assert a + b == a;
    } else {
      var n := |b| - 1;
      TokensOfConcat(a, b[..n], w);
      assert (a + b)[..|a| + n] == a + b[..n];
    }
  }

  lemma Parts(front: Bytes, gas: Bytes, middle: Bytes, signature: Bytes, fill: Bytes, w: byte)
    ensures Tokens(front + gas + middle + (signature + fill), w)
         == Tokens(front, w) + Tokens(gas, w) + Tokens(middle, w) + Tokens(signature, w) + Tokens(fill, w)
  {
    TokensOfConcat(front, gas, w);
    TokensOfConcat(front + gas, middle, w);
    TokensOfConcat(front + gas + middle, signature + fill, w);
    TokensOfConcat(signature, fill, w);
  }

  lemma AssembledApart(front: Bytes, middle: Bytes, gas: nat, signature: Bytes, otherGas: nat, other: Bytes, w: byte)
    requires |signature| == |other|
    ensures var e, f := Assembled(front, gas, middle, signature), Assembled(front, otherGas, middle, other);
            && |e| == |f|
            && Tokens(f, w) - Tokens(Word(otherGas), w) - Tokens(other, w)
            == Tokens(e, w) - Tokens(Word(gas), w) - Tokens(signature, w)
  {
    Parts(front, Word(gas), middle, signature, Fill(|signature|), w);
    Parts(front, Word(otherGas), middle, other, Fill(|signature|), w);
  }

  lemma PackedApart(p: PackedUserOperation, e: Bytes, gas: int, signature: Bytes, w: byte) returns (f: Bytes)
    requires EncodePacked(p) == Success(e) && Uint256(gas) && |signature| == |p.signature|
    ensures EncodePacked(p.(preVerificationGas := gas, signature := signature)) == Success(f) && |f| == |e|
    ensures Uint256(p.preVerificationGas)
    ensures Tokens(f, w) - Tokens(Word(gas), w) - Tokens(signature, w)
         == Tokens(e, w) - Tokens(Word(p.preVerificationGas), w) - Tokens(p.signature, w)
  {
    var front := Front(p.sender, p.nonce, p.initCode, p.accountGasLimits);
    var middle := Middle(p.gasFees, p.initCode, p.callData, p.paymasterAndData, |p.signature|);
    f := Assembled(front, gas, middle, signature);
    AssembledApart(front, middle, p.preVerificationGas, p.signature, gas, signature, w);
  }

  lemma PackedWith(op: UserOperation, p: PackedUserOperation, gas: int, signature: Bytes)
    requires PackUserOp(op) == Success(p)
    ensures PackUserOp(op.(preVerificationGas := gas, signature := signature))
         == Success(p.(preVerificationGas := gas, signature := signature))
    ensures p.preVerificationGas == op.preVerificationGas && p.signature == op.signature
  {
  }

  /** The encodings of two operations that differ only in their preVerificationGas and in a signature of the same length. */
  lemma EncodedApart(op: UserOperation, e: Bytes, gas: int, signature: Bytes, w: byte) returns (f: Bytes)
    requires EncodeUserOp(op) == Success(e) && Uint256(gas) && |signature| == |op.signature|
    ensures EncodeUserOp(op.(preVerificationGas := gas, signature := signature)) == Success(f) && |f| == |e|
    ensures Uint256(op.preVerificationGas)
    ensures Tokens(f, w) - Tokens(Word(gas), w) - Tokens(signature, w)
         == Tokens(e, w) - Tokens(Word(op.preVerificationGas), w) - Tokens(op.signature, w)
  {
    var p := PackUserOp(op).value;
    PackedWith(op, p, gas, signature);
    f := PackedApart(p, e, gas, signature, w);
  }

  // ---------- the formula ----------

  function Max(x: real, y: real): real { if x >= y then x else y }

  /** `Math.round` */
  function Round(x: real): int { (x + 0.5).Floor }

  /** Quotient of `bigint` division, which truncates. */
  function TruncatedTenth(x: int): int { if x >= 0 then x / 10 else -(-x / 10) }

  const MAX_SAFE_INTEGER: int := 0x1f_ffff_ffff_ffff

  function UserOpGasUsed(op: UserOperation, options: GasOptions): Result<real, GasError> {
    if options.totalGasUsed.Some? then Success(options.totalGasUsed.value)
    else
      var verification := options.verificationGasUsed.GetOr(0.0);
      if verification.Floor as real != verification then Failure(FractionalGas)
      else
        var used := TruncatedTenth(op.callGasLimit + op.paymasterPostOpGasLimit.GetOr(0)) + verification.Floor;
        if used > MAX_SAFE_INTEGER then Failure(UnsafeGas) else Success(used as real)
  }

  /** `cost * tokens` */
  function Priced(cost: real, tokens: nat): real {
    if tokens == 0 then 0.0 else Priced(cost, tokens - 1) + cost
  }

  lemma {:induction false} PricedIsProduct(cost: real, tokens: nat)
    ensures Priced(cost, tokens) == cost * tokens as real
  {
    if tokens > 0 {
      PricedIsProduct(cost, tokens - 1);
      assert cost * tokens as real == cost * ((tokens - 1) as real + 1.0);
    }
  }

  function TransactionGasCost(cfg: GasConfig, stipend: real, tokens: nat, execution: real): int {
    RoundedCost(stipend, Priced(cfg.standardTokenGasCost, tokens), Priced(cfg.floorPerTokenGasCost, tokens), execution)
  }

  function RoundedCost(stipend: real, standard: real, floor: real, execution: real): int {
    Round(stipend + Max(standard + execution, floor))
  }

  /** The selector of `executeUserOp`. */
  const EXECUTE_USEROP_METHOD_SIG: Bytes := [0x8d, 0xd7, 0x71, 0x2f]

  /** What one operation costs on top of its calldata and of its share in the bundle, `size` being its encoded length. */
  function SpecificOverhead(cfg: GasConfig, op: UserOperation, size: nat): real {
    cfg.perUserOpGasOverhead + (if op.eip7702Auth then cfg.eip7702AuthGas else 0.0) + CallOverhead(cfg, op.callData, size)
  }

  function CallOverhead(cfg: GasConfig, callData: Bytes, size: nat): real {
    if EXECUTE_USEROP_METHOD_SIG <= callData
    then cfg.executeUserOpGasOverhead + cfg.executeUserOpPerWordGasOverhead * ((size + 31) as real / 32.0)
    else ((|callData| + 31) / 32) as real * cfg.perUserOpWordGasOverhead
  }

  /** The requirement once tokens `t`, overhead `o`, stipend share `s` and execution gas `g` are known. */
  function Formula(cfg: GasConfig, s: real, o: real, g: Result<real, GasError>, t: nat): Result<real, GasError> {
    if cfg.useEip7623 then
      match g
      case Failure(e) => Failure(e)
      case Success(used) => Success(TransactionGasCost(cfg, s, t, o + used) as real - used)
    else Success(Priced(cfg.standardTokenGasCost, t) + s + o)
  }

  function StipendShare(cfg: GasConfig): real
    requires cfg.expectedBundleSize != 0.0
  {
    cfg.transactionGasStipend / cfg.expectedBundleSize
  }

  function Overhead(cfg: GasConfig, op: UserOperation, size: nat): real
    requires cfg.expectedBundleSize != 0.0
  {
    cfg.fixedGasOverhead / cfg.expectedBundleSize + SpecificOverhead(cfg, op, size)
  }

  function Required(cfg: GasConfig, op: UserOperation, options: GasOptions): Result<real, GasError>
    requires cfg.expectedBundleSize != 0.0
  {
    match EncodeUserOp(op)
    case Failure(e) => Failure(e)
    case Success(encoded) =>
      Formula(cfg, StipendShare(cfg), Overhead(cfg, op, |encoded|), UserOpGasUsed(op, options),
              Tokens(encoded, ToUint8(cfg.tokensPerNonzeroByte)))
  }

  // ---------- what the formula means ----------

  lemma RoundShifts(x: real, n: int)
    ensures Round(x + n as real) == Round(x) + n
  {
  }

  lemma RoundMonotone(x: real, y: real)
    requires x <= y
    ensures Round(x) <= Round(y)
  {
  }

  /** For integer gas used the requirement is the larger of the standard cost, and the floor cost less the gas that
      execution pays. */
  lemma ClosedForm(cfg: GasConfig, s: real, o: real, g: int, t: nat)
    ensures var standard := Round(s + cfg.standardTokenGasCost * t as real + o);
            var floor := Round(s + cfg.floorPerTokenGasCost * t as real);
            TransactionGasCost(cfg, s, t, o + g as real) - g == if standard >= floor - g then standard else floor - g
  {
    PricedIsProduct(cfg.standardTokenGasCost, t);
    PricedIsProduct(cfg.floorPerTokenGasCost, t);
    var x, y := s + Priced(cfg.standardTokenGasCost, t) + o, s + Priced(cfg.floorPerTokenGasCost, t);
    RoundShifts(x, g);
    if x + g as real >= y { RoundMonotone(y, x + g as real); } else { RoundMonotone(x + g as real, y); }
  }

  /** The requirement under EIP-7623 is the whole number next to the larger of two costs, halves going up: what the operation
      costs at the standard price of a token with its overhead, and what it costs at the floor price less the gas that
      execution uses. */
  lemma RequirementIsNearest(cfg: GasConfig, op: UserOperation, options: GasOptions, e: Bytes, g: int, t: nat, s: real, o: real)
    returns (r: int)
    requires cfg.expectedBundleSize != 0.0 && cfg.useEip7623
    requires EncodeUserOp(op) == Success(e) && UserOpGasUsed(op, options) == Success(g as real)
    requires t == Tokens(e, ToUint8(cfg.tokensPerNonzeroByte)) && s == StipendShare(cfg) && o == Overhead(cfg, op, |e|)
    ensures Required(cfg, op, options) == Success(r as real)
    ensures NextTo(r, Larger(s + Priced(cfg.standardTokenGasCost, t) + o, s + Priced(cfg.floorPerTokenGasCost, t) - g as real))
  {
    hide Required, Tokens, ToUint8, EncodeUserOp, UserOpGasUsed, Overhead, StipendShare, TransactionGasCost, Priced;
    r := CostIsNearest(cfg, s, o, g, t);
    RequirementIs(cfg, op, options, e, g, t, s, o);
  }

  lemma RequirementIs(cfg: GasConfig, op: UserOperation, options: GasOptions, e: Bytes, g: int, t: nat, s: real, o: real)
    requires cfg.expectedBundleSize != 0.0 && cfg.useEip7623
    requires EncodeUserOp(op) == Success(e) && UserOpGasUsed(op, options) == Success(g as real)
    requires t == Tokens(e, ToUint8(cfg.tokensPerNonzeroByte)) && s == StipendShare(cfg) && o == Overhead(cfg, op, |e|)
    ensures Required(cfg, op, options) == Success((TransactionGasCost(cfg, s, t, o + g as real) - g) as real)
  {
    RequiredIs(cfg, op, options, e);
    hide Required, Tokens, ToUint8, EncodeUserOp, UserOpGasUsed, Overhead, StipendShare, TransactionGasCost, Formula;
    FormulaIs(cfg, s, o, g, t);
  }

  lemma FormulaIs(cfg: GasConfig, s: real, o: real, g: int, t: nat)
    requires cfg.useEip7623
    ensures Formula(cfg, s, o, Success(g as real), t) == Success((TransactionGasCost(cfg, s, t, o + g as real) - g) as real)
  {
    hide TransactionGasCost;
  }

  /** `r` is the whole number next to `x`, halves going up. */
  predicate NextTo(r: int, x: real) { r as real - 0.5 <= x < r as real + 0.5 }

  function Larger(x: real, y: real): real { if x >= y then x else y }

  /** The share of the stipend, times the operations in the bundle, is the stipend. */
  lemma StipendShared(cfg: GasConfig)
    requires cfg.expectedBundleSize != 0.0
    ensures StipendShare(cfg) * cfg.expectedBundleSize == cfg.transactionGasStipend
  {
  }

  lemma CostIsNearest(cfg: GasConfig, s: real, o: real, g: int, t: nat) returns (r: int)
    ensures r == TransactionGasCost(cfg, s, t, o + g as real) - g
    ensures NextTo(r, Larger(s + Priced(cfg.standardTokenGasCost, t) + o, s + Priced(cfg.floorPerTokenGasCost, t) - g as real))
  {
    r := TransactionGasCost(cfg, s, t, o + g as real) - g;
    hide Priced, RoundedCost;
    RoundedIsNearest(s, Priced(cfg.standardTokenGasCost, t), Priced(cfg.floorPerTokenGasCost, t), o, g);
  }

  lemma RoundedIsNearest(s: real, standard: real, floor: real, o: real, g: int)
    ensures NextTo(RoundedCost(s, standard, floor, o + g as real) - g, Larger(s + standard + o, s + floor - g as real))
  {
    var x := s + Max(standard + (o + g as real), floor);
    Nearest(x);
    assert x - g as real == Larger(s + standard + o, s + floor - g as real);
    assert (Round(x) - g) as real == Round(x) as real - g as real;
  }

  lemma Nearest(x: real)
    ensures Round(x) as real - 0.5 <= x < Round(x) as real + 0.5
  {
  }

  /** More gas used never raises the requirement, and the two together never fall under the EIP-7623 floor. */
  lemma FloorKept(cfg: GasConfig, s: real, o: real, g: int, more: int, t: nat)
    requires g <= more
    ensures TransactionGasCost(cfg, s, t, o + more as real) - more <= TransactionGasCost(cfg, s, t, o + g as real) - g
    ensures TransactionGasCost(cfg, s, t, o + g as real) >= Round(s + cfg.floorPerTokenGasCost * t as real)
  {
    ClosedForm(cfg, s, o, g, t);
    ClosedForm(cfg, s, o, more, t);
  }

  // ---------- what the overhead is charged for ----------

  /** `n` bytes start `k` words. */
  predicate StartedWords(n: nat, k: nat) { 32 * k - 32 < n <= 32 * k }

  predicate ExecutesUserOp(callData: Bytes) { |callData| >= 4 && callData[..4] == EXECUTE_USEROP_METHOD_SIG }

  lemma WordsOf(cfg: GasConfig, callData: Bytes, size: nat, k: nat)
    requires !ExecutesUserOp(callData) && StartedWords(|callData|, k)
    ensures CallOverhead(cfg, callData, size) == k as real * cfg.perUserOpWordGasOverhead
  {
    assert k == (|callData| + 31) / 32;
  }

  lemma Distribute(x: real, y: real, c: real)
    ensures x * c - y * c == (x - y) * c
  {
  }

  /** Every started word of calldata adds its price to the overhead of an ordinary operation. */
  lemma CalldataWords(cfg: GasConfig, op: UserOperation, callData: Bytes, size: nat, k: nat, m: nat)
    requires cfg.expectedBundleSize != 0.0 && !ExecutesUserOp(op.callData) && !ExecutesUserOp(callData)
    requires StartedWords(|op.callData|, k) && StartedWords(|callData|, m)
    ensures Overhead(cfg, op.(callData := callData), size) - Overhead(cfg, op, size) == (m - k) as real * cfg.perUserOpWordGasOverhead
  {
    WordsOf(cfg, op.callData, size, k);
    WordsOf(cfg, callData, size, m);
    Distribute(m as real, k as real, cfg.perUserOpWordGasOverhead);
    hide CallOverhead;
  }

  /** An operation without calldata and authorization pays its share of the fixed overhead and the price of an operation; an
      authorization adds its own price. */
  lemma PlainOverhead(cfg: GasConfig, op: UserOperation, size: nat)
    requires cfg.expectedBundleSize != 0.0
    ensures Overhead(cfg, op.(callData := [], eip7702Auth := false), size)
         == cfg.fixedGasOverhead / cfg.expectedBundleSize + cfg.perUserOpGasOverhead
    ensures Overhead(cfg, op.(eip7702Auth := true), size) - Overhead(cfg, op.(eip7702Auth := false), size) == cfg.eip7702AuthGas
  {
    WordsOf(cfg, [], size, 0);
    hide CallOverhead;
  }

  /** An `executeUserOp` operation pays for the words of its whole encoding instead, counted in fractions: one byte pays for one
      word on top of the price of the method, and every 32 bytes more for another. */
  lemma ExecuteUserOpWords(cfg: GasConfig, op: UserOperation, size: nat)
    requires cfg.expectedBundleSize != 0.0 && ExecutesUserOp(op.callData)
    ensures Overhead(cfg, op, 1) - Overhead(cfg, op.(callData := []), 1)
         == cfg.executeUserOpGasOverhead + cfg.executeUserOpPerWordGasOverhead
    ensures Overhead(cfg, op, size + 32) - Overhead(cfg, op, size) == cfg.executeUserOpPerWordGasOverhead
  {
    WordsOf(cfg, [], 1, 0);
    FractionalWords(cfg, op.callData, size);
    hide CallOverhead;
  }

  lemma FractionalWords(cfg: GasConfig, callData: Bytes, size: nat)
    requires ExecutesUserOp(callData)
    ensures CallOverhead(cfg, callData, 1) == cfg.executeUserOpGasOverhead + cfg.executeUserOpPerWordGasOverhead
    ensures CallOverhead(cfg, callData, size + 32) == CallOverhead(cfg, callData, size) + cfg.executeUserOpPerWordGasOverhead
  {
    var c, w := cfg.executeUserOpPerWordGasOverhead, (size + 31) as real / 32.0;
    assert (1 + 31) as real / 32.0 == 1.0;
    assert (size + 32 + 31) as real / 32.0 == w + 1.0;
    Distribute(w + 1.0, w, c);
  }

  /** What the overhead grows by, the requirement grows by: always without EIP-7623, and with it, for whole amounts of gas,
      as long as the standard cost decides. */
  lemma OverheadIsRequired(cfg: GasConfig, s: real, o: real, d: nat, g: int, t: nat)
    ensures !cfg.useEip7623 ==>
            forall used :: Formula(cfg, s, o + d as real, used, t) == Success(Formula(cfg, s, o, used, t).value + d as real)
    ensures Round(s + cfg.standardTokenGasCost * t as real + o) >= Round(s + cfg.floorPerTokenGasCost * t as real) - g ==>
            TransactionGasCost(cfg, s, t, o + d as real + g as real) == TransactionGasCost(cfg, s, t, o + g as real) + d
  {
    ClosedForm(cfg, s, o, g, t);
    ClosedForm(cfg, s, o + d as real, g, t);
    RoundShifts(s + cfg.standardTokenGasCost * t as real + o, d);
    assert s + cfg.standardTokenGasCost * t as real + (o + d as real) == s + cfg.standardTokenGasCost * t as real + o + d as real;
  }

  /** Without EIP-7623 the requirement is the price of the tokens, the share of the stipend and the overhead. */
  lemma LegacyForm(cfg: GasConfig, s: real, o: real, g: Result<real, GasError>, t: nat)
    requires !cfg.useEip7623
    ensures Formula(cfg, s, o, g, t) == Success(s + cfg.standardTokenGasCost * t as real + o)
  {
    PricedIsProduct(cfg.standardTokenGasCost, t);
  }

  /** The gas that execution is taken to use: what is given, or a tenth of the gas limits of call and post-operation, rounded
      down, on top of the verification gas, which must be a whole number. */
  lemma UsedGas(op: UserOperation, options: GasOptions, verification: int) returns (tenth: int)
    requires op.callGasLimit >= 0 && op.paymasterPostOpGasLimit.GetOr(0) >= 0
    ensures 10 * tenth <= op.callGasLimit + op.paymasterPostOpGasLimit.GetOr(0) < 10 * tenth + 10
    ensures options.totalGasUsed.Some? ==> UserOpGasUsed(op, options) == Success(options.totalGasUsed.value)
    ensures options.totalGasUsed.None? && options.verificationGasUsed.GetOr(0.0) == verification as real ==>
            UserOpGasUsed(op, options)
            == if tenth + verification > MAX_SAFE_INTEGER then Failure(UnsafeGas) else Success((tenth + verification) as real)
    ensures options.totalGasUsed.None? && verification as real < options.verificationGasUsed.GetOr(0.0) < (verification + 1) as real ==>
            UserOpGasUsed(op, options) == Failure(FractionalGas)
  {
    tenth := (op.callGasLimit + op.paymasterPostOpGasLimit.GetOr(0)) / 10;
    var v := options.verificationGasUsed.GetOr(0.0);
    if verification as real <= v < (verification + 1) as real { assert v.Floor == verification; }
  }

  lemma {:induction false} CostGrows(c: real, t: nat, u: nat)
    requires t <= u && c >= 0.0
    ensures Priced(c, t) <= Priced(c, u)
    ensures c >= 1.0 && t < u ==> Priced(c, t) + 1.0 <= Priced(c, u)
  {
    if t < u { CostGrows(c, t, u - 1); }
  }

  lemma RoundedCostGrows(s: real, standard: real, floor: real, x: real, moreStandard: real, moreFloor: real)
    requires standard <= moreStandard && floor <= moreFloor
    ensures RoundedCost(s, standard, floor, x) <= RoundedCost(s, moreStandard, moreFloor, x)
    ensures standard + 1.0 <= moreStandard && floor + 1.0 <= moreFloor ==>
              RoundedCost(s, standard, floor, x) < RoundedCost(s, moreStandard, moreFloor, x)
  {
    RoundMonotone(s + Max(standard + x, floor), s + Max(moreStandard + x, moreFloor));
    if standard + 1.0 <= moreStandard && floor + 1.0 <= moreFloor {
      RoundShifts(s + Max(standard + x, floor), 1);
      RoundMonotone(s + Max(standard + x, floor) + 1.0, s + Max(moreStandard + x, moreFloor));
    }
  }

  /** The requirement does not fall when the tokens grow, whatever the gas used; it rises if a token costs at least one. */
  lemma MoreTokens(cfg: GasConfig, s: real, o: real, g: Result<real, GasError>, t: nat, u: nat)
    requires cfg.standardTokenGasCost >= 0.0 && cfg.floorPerTokenGasCost >= 0.0 && t <= u
    requires Formula(cfg, s, o, g, t).Success?
    ensures Formula(cfg, s, o, g, u).Success?
    ensures Formula(cfg, s, o, g, t).value <= Formula(cfg, s, o, g, u).value
    ensures cfg.standardTokenGasCost >= 1.0 && cfg.floorPerTokenGasCost >= 1.0 && t < u ==>
              Formula(cfg, s, o, g, t).value < Formula(cfg, s, o, g, u).value
  {
    var standard, floor := cfg.standardTokenGasCost, cfg.floorPerTokenGasCost;
    CostGrows(standard, t, u);
    CostGrows(floor, t, u);
    if cfg.useEip7623 {
      var x := o + g.value;
      RoundedCostGrows(s, Priced(standard, t), Priced(floor, t), x, Priced(standard, u), Priced(floor, u));
    }
  }

  // ---------- estimates ----------

  function Repeated(b: byte, n: nat): (r: Bytes)
    ensures |r| == n
  {
    if n == 0 then [] else Repeated(b, n - 1) + [b]
  }

  /** The stand-in for a signature that is not known yet. */
  function DummyBytes(n: nat): Bytes { Repeated(0xff, n) }

  lemma TokensSnoc(bytes: Bytes, b: byte, w: byte)
    ensures Tokens(bytes + [b], w) == Tokens(bytes, w) + if b == 0 then 1 else w
  {
    assert (bytes + [b])[..|bytes|] == bytes;
  }

  lemma {:induction false} TokensOfRepeated(b: byte, n: nat, w: byte)
    ensures Tokens(Repeated(b, n), w) == n * if b == 0 then 1 else w
  {
    if n > 0 {
      TokensOfRepeated(b, n - 1, w);
      TokensSnoc(Repeated(b, n - 1), b, w);
      OneMore(n, if b == 0 then 1 else w);
    }
  }

  lemma OneMore(n: nat, c: nat)
    requires n > 0
    ensures n * c == (n - 1) * c + c
  {
  }

  lemma {:induction false} TokensAtMost(bytes: Bytes, w: byte)
    requires w >= 1
    ensures Tokens(bytes, w) <= |bytes| * w
  {
    if bytes != [] { TokensAtMost(bytes[..|bytes| - 1], w); }
  }

  /** An operation whose signature, preVerificationGas and paymaster data may still be missing. */
  datatype Draft = Draft(op: UserOperation, signature: Option<Bytes>, preVerificationGas: Option<int>)

  function Filled(cfg: GasConfig, draft: Draft): UserOperation {
    draft.op.(
      preVerificationGas := draft.preVerificationGas.GetOr(21000),
      signature := draft.signature.GetOr(DummyBytes(cfg.estimationSignatureSize)),
      paymasterData := Some(draft.op.paymasterData.GetOr(DummyBytes(cfg.estimationPaymasterDataSize))))
  }

  /** What a draft is filled up with: 21000, and bytes 0xff for a signature or paymaster data of the assumed size; what it has
      it keeps. */
  lemma FilledMeans(cfg: GasConfig, draft: Draft)
    ensures var op := Filled(cfg, draft);
            && op == draft.op.(preVerificationGas := op.preVerificationGas, signature := op.signature, paymasterData := op.paymasterData)
            && op.preVerificationGas == (if draft.preVerificationGas.Some? then draft.preVerificationGas.value else 21000)
            && (match draft.signature
                case Some(signature) => op.signature == signature
                case None => |op.signature| == cfg.estimationSignatureSize && forall b :: b in op.signature ==> b == 0xff)
            && op.paymasterData.Some?
            && (match draft.op.paymasterData
                case Some(data) => op.paymasterData.value == data
                case None =>
                  |op.paymasterData.value| == cfg.estimationPaymasterDataSize
                  && forall b :: b in op.paymasterData.value ==> b == 0xff)
  {
    AllRepeated(0xff, cfg.estimationSignatureSize);
    AllRepeated(0xff, cfg.estimationPaymasterDataSize);
  }

  lemma {:induction false} AllRepeated(b: byte, n: nat)
    ensures forall x :: x in Repeated(b, n) ==> x == b
  {
    if n > 0 { AllRepeated(b, n - 1); }
  }

  predicate TokensCost(cfg: GasConfig) {
    cfg.expectedBundleSize != 0.0 && cfg.standardTokenGasCost >= 1.0 && cfg.floorPerTokenGasCost >= 1.0
  }

  lemma FormulaOrder(cfg: GasConfig, s: real, o: real, g: Result<real, GasError>, t: nat, u: nat)
    requires TokensCost(cfg) && Formula(cfg, s, o, g, t).Success?
    ensures Formula(cfg, s, o, g, u).Success?
    ensures Formula(cfg, s, o, g, u).value <= Formula(cfg, s, o, g, t).value <==> u <= t
  {
    if t <= u { MoreTokens(cfg, s, o, g, t, u); } else { MoreTokens(cfg, s, o, g, u, t); }
  }

  lemma RequiredIs(cfg: GasConfig, op: UserOperation, options: GasOptions, e: Bytes)
    requires cfg.expectedBundleSize != 0.0 && EncodeUserOp(op) == Success(e)
    ensures Required(cfg, op, options)
         == Formula(cfg, StipendShare(cfg), Overhead(cfg, op, |e|), UserOpGasUsed(op, options),
                    Tokens(e, ToUint8(cfg.tokensPerNonzeroByte)))
  {
  }

  lemma SameOverhead(cfg: GasConfig, op: UserOperation, options: GasOptions, gas: int, signature: Bytes, n: nat)
    requires cfg.expectedBundleSize != 0.0
    ensures Overhead(cfg, op.(preVerificationGas := gas, signature := signature), n) == Overhead(cfg, op, n)
    ensures UserOpGasUsed(op.(preVerificationGas := gas, signature := signature), options) == UserOpGasUsed(op, options)
  {
  }

  lemma RequiredOrder(cfg: GasConfig, op: UserOperation, other: UserOperation, options: GasOptions, e: Bytes, f: Bytes,
                      w: byte)
    requires TokensCost(cfg) && EncodeUserOp(op) == Success(e) && EncodeUserOp(other) == Success(f) && |e| == |f|
    requires other == op.(preVerificationGas := other.preVerificationGas, signature := other.signature)
    requires Required(cfg, op, options).Success? && w == ToUint8(cfg.tokensPerNonzeroByte)
    ensures Required(cfg, other, options).Success?
    ensures Required(cfg, other, options).value <= Required(cfg, op, options).value <==> Tokens(f, w) <= Tokens(e, w)
  {
    RequiredIs(cfg, op, options, e);
    RequiredIs(cfg, other, options, f);
    SameOverhead(cfg, op, options, other.preVerificationGas, other.signature, |e|);
    FormulaOrder(cfg, StipendShare(cfg), Overhead(cfg, op, |e|), UserOpGasUsed(op, options), Tokens(e, w), Tokens(f, w));
  }

  /** How the requirements of two operations compare that differ only in preVerificationGas and a signature of one length. */
  lemma RequiredApart(cfg: GasConfig, op: UserOperation, options: GasOptions, gas: int, signature: Bytes, w: byte)
    requires TokensCost(cfg) && Required(cfg, op, options).Success? && w == ToUint8(cfg.tokensPerNonzeroByte)
    requires Uint256(gas) && |signature| == |op.signature|
    ensures Uint256(op.preVerificationGas)
    ensures var other := Required(cfg, op.(preVerificationGas := gas, signature := signature), options);
            && other.Success?
            && (other.value <= Required(cfg, op, options).value <==>
                Tokens(Word(gas), w) + Tokens(signature, w) <= Tokens(Word(op.preVerificationGas), w) + Tokens(op.signature, w))
  {
    var e := EncodeUserOp(op).value;
    var f := EncodedApart(op, e, gas, signature, w);
    RequiredOrder(cfg, op, op.(preVerificationGas := gas, signature := signature), options, e, f, w);
  }

  lemma SignatureApart(cfg: GasConfig, op: UserOperation, options: GasOptions, signature: Bytes, w: byte)
    requires TokensCost(cfg) && Required(cfg, op, options).Success? && w == ToUint8(cfg.tokensPerNonzeroByte)
    requires |signature| == |op.signature|
    ensures var other := Required(cfg, op.(signature := signature), options);
            other.Success? && (other.value <= Required(cfg, op, options).value <==> Tokens(signature, w) <= Tokens(op.signature, w))
  {
    var _ := EncodedApart(op, EncodeUserOp(op).value, 0, op.signature, w);
    RequiredApart(cfg, op, options, op.preVerificationGas, signature, w);
    assert op.(preVerificationGas := op.preVerificationGas, signature := signature) == op.(signature := signature);
  }

  /** No other signature of its length counts for more than the dummy. */
  lemma DummyTokensIff(n: nat, w: byte)
    ensures (forall signature: Bytes :: |signature| == n ==> Tokens(signature, w) <= Tokens(DummyBytes(n), w))
       <==> w >= 1 || n == 0
  {
    hide Tokens, Repeated;
    TokensOfRepeated(0xff, n, w);
    TokensOfRepeated(0, n, w);
    assert |Repeated(0, n)| == n;
    if w == 0 { assert Tokens(DummyBytes(n), w) == 0; }
    forall signature: Bytes | |signature| == n && (w >= 1 || n == 0)
      ensures Tokens(signature, w) <= Tokens(DummyBytes(n), w)
    {
      if n > 0 { TokensAtMost(signature, w); }
    }
  }

  predicate NoMore(cfg: GasConfig, op: UserOperation, options: GasOptions, signature: Bytes)
    requires cfg.expectedBundleSize != 0.0
  {
    var mine, other := Required(cfg, op, options), Required(cfg, op.(signature := signature), options);
    mine.Success? && other.Success? && other.value <= mine.value
  }

  lemma NoMoreIff(cfg: GasConfig, op: UserOperation, options: GasOptions, signature: Bytes, w: byte)
    requires TokensCost(cfg) && Required(cfg, op, options).Success? && w == ToUint8(cfg.tokensPerNonzeroByte)
    requires |signature| == |op.signature|
    ensures NoMore(cfg, op, options, signature) <==> Tokens(signature, w) <= Tokens(op.signature, w)
  {
    SignatureApart(cfg, op, options, signature, w);
  }

  /** The dummy signature asks for the most gas among all signatures of its length exactly when a non-zero byte still
      counts after it has been squeezed into eight bits. */
  lemma DummyIsWorstIff(cfg: GasConfig, op: UserOperation, options: GasOptions)
    requires TokensCost(cfg) && Required(cfg, op, options).Success? && op.signature == DummyBytes(|op.signature|)
    ensures (forall signature: Bytes :: |signature| == |op.signature| ==> NoMore(cfg, op, options, signature))
       <==> ToUint8(cfg.tokensPerNonzeroByte) >= 1 || op.signature == []
  {
    var w := ToUint8(cfg.tokensPerNonzeroByte);
    forall signature: Bytes | |signature| == |op.signature|
      ensures NoMore(cfg, op, options, signature) <==> Tokens(signature, w) <= Tokens(op.signature, w)
    {
      NoMoreIff(cfg, op, options, signature, w);
    }
    DummyTokensIff(|op.signature|, w);
  }

  /** The check passes for `filled` with `gas` as its preVerificationGas and with `signature`. */
  predicate Accepted(cfg: GasConfig, filled: UserOperation, options: GasOptions, gas: nat, signature: Bytes)
    requires cfg.expectedBundleSize != 0.0
  {
    var required := Required(cfg, filled.(preVerificationGas := gas, signature := signature), options);
    required.Success? && required.value <= gas as real
  }

  /** An operation that takes its own estimate as preVerificationGas, with a signature of the estimated length, is
      accepted exactly when the new gas word and signature have no more tokens than the ones it was estimated with. */
  lemma EstimateAcceptedIff(cfg: GasConfig, filled: UserOperation, options: GasOptions, estimate: nat, signature: Bytes, w: byte)
    requires TokensCost(cfg) && Uint256(estimate) && |signature| == |filled.signature|
    requires Required(cfg, filled, options) == Success(estimate as real) && w == ToUint8(cfg.tokensPerNonzeroByte)
    ensures Uint256(filled.preVerificationGas)
    ensures Accepted(cfg, filled, options, estimate, signature)
       <==> Tokens(Word(estimate), w) + Tokens(signature, w)
            <= Tokens(Word(filled.preVerificationGas), w) + Tokens(filled.signature, w)
  {
    RequiredApart(cfg, filled, options, estimate, signature, w);
  }

  lemma {:induction false} ZeroBytes(v: nat, k: nat)
    requires v == 0
    ensures BigEndian(v, k) == Repeated(0, k)
    decreases k
  {
    if k > 0 { ZeroBytes(v / 256, k - 1); }
  }

  lemma TokensOfZeroWord(k: nat, w: byte)
    ensures Tokens(BigEndian(0, k), w) == k
  {
    ZeroBytes(0, k);
    TokensOfRepeated(0, k, w);
  }

  lemma TokensOfLastByte(v: nat, k: nat, w: byte)
    requires k > 0
    ensures Tokens(BigEndian(v, k), w) == Tokens(BigEndian(v / 256, k - 1), w) + if v % 256 == 0 then 1 else w
  {
    TokensSnoc(BigEndian(v / 256, k - 1), v % 256, w);
  }

  lemma TokensOfSmallWord(v: nat, w: byte)
    requires v < 0x100_0000
    ensures Tokens(Word(v), w) == 29 + (if v / 65536 == 0 then 1 else w) + (if v / 256 % 256 == 0 then 1 else w)
                                + if v % 256 == 0 then 1 else w
  {
    hide BigEndian, Tokens;
    TokensOfLastByte(v, 32, w);
    TokensOfLastByte(v / 256, 31, w);
    TokensOfLastByte(v / 256 / 256, 30, w);
    TokensOfZeroWord(29, w);
  }

  lemma SmallWordTokens(v: nat)
    requires v < 0x100_0000
    ensures v < 65536 ==> Tokens(Word(v), 4) <= 38
    ensures v == 21000 ==> Tokens(Word(v), 4) == 38
    ensures v >= 65536 && v / 256 % 256 != 0 && v % 256 != 0 ==> Tokens(Word(v), 4) == 41
  {
    hide BigEndian, Tokens;
    TokensOfSmallWord(v, 4);
  }

  /** An operation estimated with the default preVerificationGas and the dummy signature, on a chain where a non-zero
      byte makes four tokens: an estimate below 65536 is accepted with every signature of the estimated length. */
  lemma SmallEstimateAccepted(cfg: GasConfig, filled: UserOperation, options: GasOptions, estimate: nat, signature: Bytes)
    requires TokensCost(cfg) && ToUint8(cfg.tokensPerNonzeroByte) == 4
    requires filled.preVerificationGas == 21000 && filled.signature == DummyBytes(|signature|)
    requires Required(cfg, filled, options) == Success(estimate as real) && estimate < 65536
    ensures Accepted(cfg, filled, options, estimate, signature)
  {
    SmallWordTokens(filled.preVerificationGas);
    SmallWordTokens(estimate);
    TokensOfRepeated(0xff, |signature|, 4);
    TokensAtMost(signature, 4);
    EstimateAcceptedIff(cfg, filled, options, estimate, signature, 4);
  }

  /** What `EstimatePreVerificationGas` returns for a draft without signature and preVerificationGas can be offered with
      every signature of the assumed size, as long as it is below 65536. */
  lemma DraftEstimateAccepted(cfg: GasConfig, draft: Draft, options: GasOptions, estimate: nat, signature: Bytes)
    requires TokensCost(cfg) && ToUint8(cfg.tokensPerNonzeroByte) == 4
    requires draft.signature.None? && draft.preVerificationGas.None? && |signature| == cfg.estimationSignatureSize
    requires Required(cfg, Filled(cfg, draft), options) == Success(estimate as real) && estimate < 65536
    ensures Accepted(cfg, Filled(cfg, draft), options, estimate, signature)
  {
    hide Required, Accepted;
    SmallEstimateAccepted(cfg, Filled(cfg, draft), options, estimate, signature);
  }

  predicate ThreeNonzeroBytes(v: nat) { 65536 <= v < 0x100_0000 && v / 256 % 256 != 0 && v % 256 != 0 }

  /** An estimate of three non-zero bytes is refused even with the dummy signature it was made with. */
  lemma LargerEstimateRefused(cfg: GasConfig, filled: UserOperation, options: GasOptions, estimate: nat, r: real)
    requires TokensCost(cfg) && ToUint8(cfg.tokensPerNonzeroByte) == 4 && filled.preVerificationGas == 21000
    requires Required(cfg, filled, options) == Success(r) && estimate as real == r && ThreeNonzeroBytes(estimate)
    ensures !Accepted(cfg, filled, options, estimate, filled.signature)
  {
    SmallWordTokens(filled.preVerificationGas);
    SmallWordTokens(estimate);
    EstimateAcceptedIff(cfg, filled, options, estimate, filled.signature, 4);
  }

  lemma MainnetSettings()
    ensures TokensCost(MAINNET_CONFIG) && ToUint8(MAINNET_CONFIG.tokensPerNonzeroByte) == 4
  {
  }

  // ---------- an operation whose estimate is refused ----------

  /** Nothing but an EIP-7702 authorization and the dummy signature. */
  predicate Minimal(op: UserOperation) {
    && op.sender == Zeros(20) && op.nonce == 0 && op.callData == [] && op.factory.None? && op.paymaster.None?
    && op.callGasLimit == 0 && op.verificationGasLimit == 0 && op.maxFeePerGas == 0 && op.maxPriorityFeePerGas == 0
    && op.paymasterPostOpGasLimit.None? && op.preVerificationGas == 21000 && op.signature == DummyBytes(65) && op.eip7702Auth
  }

  lemma {:induction false} TokensOfZeros(n: nat, w: byte)
    ensures Tokens(Zeros(n), w) == n
  {
    if n > 0 {
      TokensOfConcat([0], Zeros(n - 1), w);
      TokensOfZeros(n - 1, w);
    }
  }

  lemma TokensOfCons(first: Bytes, rest: seq<Bytes>, w: byte)
    ensures Tokens(Concat([first] + rest), w) == Tokens(first, w) + Tokens(Concat(rest), w)
  {
    assert ([first] + rest)[1..] == rest;
    TokensOfConcat(first, Concat(rest), w);
  }

  lemma TokensOfThree(a: Bytes, b: Bytes, c: Bytes, rest: seq<Bytes>, w: byte)
    ensures Tokens(Concat([a, b, c] + rest), w) == Tokens(a, w) + Tokens(b, w) + Tokens(c, w) + Tokens(Concat(rest), w)
  {
    TokensOfCons(a, [b, c] + rest, w);
    TokensOfCons(b, [c] + rest, w);
    TokensOfCons(c, rest, w);
    assert [a, b, c] + rest == [a] + ([b, c] + rest) && [b, c] + rest == [b] + ([c] + rest);
  }

  lemma TokensOfSix(a: Bytes, b: Bytes, c: Bytes, d: Bytes, e: Bytes, f: Bytes, w: byte)
    ensures Tokens(Concat([a, b, c, d, e, f]), w)
         == Tokens(a, w) + Tokens(b, w) + Tokens(c, w) + Tokens(d, w) + Tokens(e, w) + Tokens(f, w)
  {
    TokensOfThree(a, b, c, [d, e, f], w);
    TokensOfThree(d, e, f, [], w);
    assert [a, b, c, d, e, f] == [a, b, c] + [d, e, f] && [d, e, f] + [] == [d, e, f];
  }

  lemma TokensOfSeven(a: Bytes, b: Bytes, c: Bytes, d: Bytes, e: Bytes, f: Bytes, g: Bytes, w: byte)
    ensures Tokens(Concat([a, b, c, d, e, f, g]), w)
         == Tokens(a, w) + Tokens(b, w) + Tokens(c, w) + Tokens(d, w) + Tokens(e, w) + Tokens(f, w) + Tokens(g, w)
  {
    TokensOfCons(a, [b, c, d, e, f, g], w);
    TokensOfSix(b, c, d, e, f, g, w);
    assert [a, b, c, d, e, f, g] == [a] + [b, c, d, e, f, g];
  }

  lemma EmptyDynamic(w: byte)
    ensures Dynamic([]) == Word(0) && |Dynamic([])| == 32 && Tokens(Dynamic([]), w) == 32
  {
    TokensOfZeroWord(32, w);
  }

  lemma MinimalFront(sender: Bytes, word: Bytes)
    requires sender == Zeros(20) && Tokens(word, 4) == 32
    ensures Tokens(Front(sender, 0, [], word), 4) == 172
  {
    EmptyDynamic(4);
    OffsetTokens(288);
    OffsetTokens(320);
    TokensOfSix(Zeros(12), sender, Word(0), Word(288), Word(320), word, 4);
    TokensOfZeros(12, 4);
    TokensOfZeros(20, 4);
    TokensOfZeroWord(32, 4);
  }

  lemma OffsetTokens(v: nat)
    requires 256 < v < 512
    ensures Tokens(Word(v), 4) == 38
  {
    hide BigEndian, Tokens;
    TokensOfSmallWord(v, 4);
  }

  lemma MinimalMiddle(word: Bytes)
    requires Tokens(word, 4) == 32
    ensures Tokens(Middle(word, [], [], [], 65), 4) == 239
  {
    EmptyDynamic(4);
    OffsetTokens(352);
    OffsetTokens(384);
    TokensOfSmallWord(65, 4);
    TokensOfSeven(word, Word(352), Word(384), Dynamic([]), Dynamic([]), Dynamic([]), Word(65), 4);
  }

  lemma MinimalPacked(op: UserOperation) returns (p: PackedUserOperation)
    requires Minimal(op)
    ensures PackUserOp(op) == Success(p) && p.sender == op.sender && |p.sender| == 20 && p.nonce == 0
    ensures p.initCode == p.callData == p.paymasterAndData == [] && p.signature == op.signature && |p.signature| == 65
    ensures p.accountGasLimits == p.gasFees && Tokens(p.gasFees, 4) == 32 && p.preVerificationGas == op.preVerificationGas
  {
    p := PackUserOp(op).value;
    TokensOfZeroWord(32, 4);
  }

  lemma AssembledTokens(front: Bytes, gas: nat, middle: Bytes, signature: Bytes, fill: nat, w: byte)
    requires |signature| % 32 + fill == 32 && 0 < fill < 32
    ensures Tokens(Assembled(front, gas, middle, signature), w)
         == Tokens(front, w) + Tokens(Word(gas), w) + Tokens(middle, w) + Tokens(signature, w) + fill
  {
    Parts(front, Word(gas), middle, signature, Fill(|signature|), w);
    FillIs(|signature|, fill);
    TokensOfZeros(fill, w);
  }

  lemma FillIs(n: nat, fill: nat)
    requires n % 32 + fill == 32 && 0 < fill < 32
    ensures Fill(n) == Zeros(fill)
  {
  }

  lemma TotalTokens(front: Bytes, gas: nat, middle: Bytes, signature: Bytes)
    requires Tokens(front, 4) == 172 && Tokens(middle, 4) == 239 && Tokens(Word(gas), 4) == 38
    requires |signature| == 65 && Tokens(signature, 4) == 260
    ensures Tokens(Assembled(front, gas, middle, signature), 4) == 740
  {
    AssembledTokens(front, gas, middle, signature, 31, 4);
  }

  lemma MinimalTokens(op: UserOperation) returns (e: Bytes)
    requires Minimal(op)
    ensures EncodeUserOp(op) == Success(e) && Tokens(e, 4) == 740
  {
    var p := MinimalPacked(op);
    var front, middle := Front(p.sender, p.nonce, p.initCode, p.accountGasLimits), Middle(p.gasFees, [], [], [], 65);
    MinimalFront(p.sender, p.accountGasLimits);
    MinimalMiddle(p.gasFees);
    TokensOfRepeated(0xff, 65, 4);
    EncodedAs(p, front, middle);
    SmallWordTokens(p.preVerificationGas);
    TotalTokens(front, p.preVerificationGas, middle, p.signature);
    e := Assembled(front, p.preVerificationGas, middle, p.signature);
  }

  lemma MinimalOverhead(op: UserOperation, size: nat)
    requires Minimal(op)
    ensures Overhead(MAINNET_CONFIG, op, size) == 42090.0 && StipendShare(MAINNET_CONFIG) == 21000.0
    ensures UserOpGasUsed(op, GasOptions(None, None)) == Success(0.0)
  {
  }

  lemma MinimalFormula()
    ensures Formula(MAINNET_CONFIG, 21000.0, 42090.0, Success(0.0), 740) == Success(66050.0)
  {
    PricedIsProduct(4.0, 740);
    PricedIsProduct(10.0, 740);
  }

  lemma MinimalEstimate(cfg: GasConfig, op: UserOperation, options: GasOptions)
    requires cfg == MAINNET_CONFIG && options == GasOptions(None, None) && Minimal(op)
    ensures Required(cfg, op, options) == Success(66050.0)
  {
    var e := MinimalTokens(op);
    MainnetSettings();
    RequiredIs(cfg, op, options, e);
    MinimalOverhead(op, |e|);
    MinimalFormula();
  }

  /** The least EIP-7702 operation is estimated at 66050 gas on mainnet, and refused when it offers just that. */
  lemma MinimalEstimateRefused(cfg: GasConfig, op: UserOperation, options: GasOptions, estimate: nat)
    requires cfg == MAINNET_CONFIG && options == GasOptions(None, None) && Minimal(op) && estimate == 66050
    ensures Required(cfg, op, options) == Success(66050.0)
    ensures !Accepted(cfg, op, options, estimate, op.signature)
  {
    MainnetSettings();
    MinimalEstimate(cfg, op, options);
    Bytes66050(estimate);
    LargerEstimateRefused(cfg, op, options, estimate, 66050.0);
  }

  lemma Bytes66050(estimate: nat)
    requires estimate == 66050
    ensures ThreeNonzeroBytes(estimate) && estimate as real == 66050.0
  {
  }

  // ---------- the calculator ----------

  datatype GasConfigPatch = GasConfigPatch(
    transactionGasStipend: Option<real>, fixedGasOverhead: Option<real>, perUserOpGasOverhead: Option<real>,
    perUserOpWordGasOverhead: Option<real>, executeUserOpGasOverhead: Option<real>,
    executeUserOpPerWordGasOverhead: Option<real>, standardTokenGasCost: Option<real>, useEip7623: Option<bool>,
    floorPerTokenGasCost: Option<real>, tokensPerNonzeroByte: Option<real>, eip7702AuthGas: Option<real>,
    expectedBundleSize: Option<real>, estimationSignatureSize: Option<nat>, estimationPaymasterDataSize: Option<nat>)

  /** A setting that the patch gives takes that value, and one that it leaves out keeps its own. */
  predicate Follows<T(==)>(patch: Option<T>, was: T, now: T) { if patch.Some? then now == patch.value else now == was }

  predicate Updated(was: GasConfig, p: GasConfigPatch, now: GasConfig) {
    && Follows(p.transactionGasStipend, was.transactionGasStipend, now.transactionGasStipend)
    && Follows(p.fixedGasOverhead, was.fixedGasOverhead, now.fixedGasOverhead)
    && Follows(p.perUserOpGasOverhead, was.perUserOpGasOverhead, now.perUserOpGasOverhead)
    && Follows(p.perUserOpWordGasOverhead, was.perUserOpWordGasOverhead, now.perUserOpWordGasOverhead)
    && Follows(p.executeUserOpGasOverhead, was.executeUserOpGasOverhead, now.executeUserOpGasOverhead)
    && Follows(p.executeUserOpPerWordGasOverhead, was.executeUserOpPerWordGasOverhead, now.executeUserOpPerWordGasOverhead)
    && Follows(p.standardTokenGasCost, was.standardTokenGasCost, now.standardTokenGasCost)
    && Follows(p.useEip7623, was.useEip7623, now.useEip7623)
    && Follows(p.floorPerTokenGasCost, was.floorPerTokenGasCost, now.floorPerTokenGasCost)
    && Follows(p.tokensPerNonzeroByte, was.tokensPerNonzeroByte, now.tokensPerNonzeroByte)
    && Follows(p.eip7702AuthGas, was.eip7702AuthGas, now.eip7702AuthGas)
    && Follows(p.expectedBundleSize, was.expectedBundleSize, now.expectedBundleSize)
    && Follows(p.estimationSignatureSize, was.estimationSignatureSize, now.estimationSignatureSize)
    && Follows(p.estimationPaymasterDataSize, was.estimationPaymasterDataSize, now.estimationPaymasterDataSize)
  }

  /** A patch of nothing but the two dummy sizes: it moves estimates, and no requirement of a complete operation. */
  predicate OnlySizes(p: GasConfigPatch) {
    p == GasConfigPatch(None, None, None, None, None, None, None, None, None, None, None, None,
                        p.estimationSignatureSize, p.estimationPaymasterDataSize)
  }

  predicate SameButSizes(was: GasConfig, now: GasConfig) {
    now == was.(estimationSignatureSize := now.estimationSignatureSize,
                estimationPaymasterDataSize := now.estimationPaymasterDataSize)
  }

  lemma SizesLeaveFormula(was: GasConfig, now: GasConfig, s: real, o: real, g: Result<real, GasError>, t: nat)
    requires SameButSizes(was, now)
    ensures Formula(now, s, o, g, t) == Formula(was, s, o, g, t)
  {
    hide Priced, RoundedCost;
  }

  lemma SizesLeaveOverhead(was: GasConfig, now: GasConfig, op: UserOperation, size: nat)
    requires SameButSizes(was, now) && was.expectedBundleSize != 0.0
    ensures Overhead(now, op, size) == Overhead(was, op, size) && StipendShare(now) == StipendShare(was)
    ensures ToUint8(now.tokensPerNonzeroByte) == ToUint8(was.tokensPerNonzeroByte)
  {
    hide ToUint8;
  }

  lemma SizesLeaveRequirements(was: GasConfig, p: GasConfigPatch, now: GasConfig, op: UserOperation, options: GasOptions)
    requires was.expectedBundleSize != 0.0 && Updated(was, p, now) && OnlySizes(p)
    ensures now.expectedBundleSize != 0.0 && Required(now, op, options) == Required(was, op, options)
  {
    assert SameButSizes(was, now);
    hide EncodeUserOp, Formula, Overhead, StipendShare, ToUint8, UserOpGasUsed, Tokens;
    if EncodeUserOp(op).Success? {
      var e := EncodeUserOp(op).value;
      SizesLeaveOverhead(was, now, op, |e|);
      SizesLeaveFormula(was, now, StipendShare(was), Overhead(was, op, |e|), UserOpGasUsed(op, options),
                        Tokens(e, ToUint8(was.tokensPerNonzeroByte)));
    }
  }

  class Calculator {
    var gasConfig: GasConfig

    constructor (config: GasConfig)
      ensures gasConfig == config
    {
      gasConfig := config;
    }

    method UpdateGasConfig(patch: GasConfigPatch)
      modifies this
      ensures Updated(old(gasConfig), patch, gasConfig)
    {
      var c := gasConfig;
      gasConfig := GasConfig(
        patch.transactionGasStipend.GetOr(c.transactionGasStipend), patch.fixedGasOverhead.GetOr(c.fixedGasOverhead),
        patch.perUserOpGasOverhead.GetOr(c.perUserOpGasOverhead),
        patch.perUserOpWordGasOverhead.GetOr(c.perUserOpWordGasOverhead),
        patch.executeUserOpGasOverhead.GetOr(c.executeUserOpGasOverhead),
        patch.executeUserOpPerWordGasOverhead.GetOr(c.executeUserOpPerWordGasOverhead),
        patch.standardTokenGasCost.GetOr(c.standardTokenGasCost), patch.useEip7623.GetOr(c.useEip7623),
        patch.floorPerTokenGasCost.GetOr(c.floorPerTokenGasCost), patch.tokensPerNonzeroByte.GetOr(c.tokensPerNonzeroByte),
        patch.eip7702AuthGas.GetOr(c.eip7702AuthGas), patch.expectedBundleSize.GetOr(c.expectedBundleSize),
        patch.estimationSignatureSize.GetOr(c.estimationSignatureSize),
        patch.estimationPaymasterDataSize.GetOr(c.estimationPaymasterDataSize));
    }

    /** None where `reduce` finds nothing to start from. */
    method CountTokens(bytes: Bytes) returns (tokens: Option<nat>)
      ensures tokens == if bytes == [] then None else Some(Tokens(bytes, ToUint8(gasConfig.tokensPerNonzeroByte)))
    {
      if bytes == [] { return None; }
      var perNonzero := ToUint8(gasConfig.tokensPerNonzeroByte);
      var sum: nat := if bytes[0] == 0 then 1 else perNonzero;
      for i := 1 to |bytes|
        invariant sum == Tokens(bytes[..i], perNonzero)
      {
        sum := sum + if bytes[i] == 0 then 1 else perNonzero;
        assert bytes[..i + 1][..i] == bytes[..i];
      }
      assert bytes[..|bytes|] == bytes;
      return Some(sum);
    }

    /** The overhead that belongs to the operation alone. */
    method AddOverheads(op: UserOperation, packedLength: nat) returns (userOpSpecificOverhead: real)
      ensures userOpSpecificOverhead == SpecificOverhead(gasConfig, op, packedLength)
    {
      var userOpWordsLength := (packedLength + 31) as real / 32.0;
      var callDataOverhead := 0.0;
      var perUserOpOverhead := gasConfig.perUserOpGasOverhead;
      if op.eip7702Auth { perUserOpOverhead := perUserOpOverhead + gasConfig.eip7702AuthGas; }
      if EXECUTE_USEROP_METHOD_SIG <= op.callData {
        perUserOpOverhead := perUserOpOverhead
          + (gasConfig.executeUserOpGasOverhead + gasConfig.executeUserOpPerWordGasOverhead * userOpWordsLength);
        assert CallOverhead(gasConfig, op.callData, packedLength)
            == gasConfig.executeUserOpGasOverhead + gasConfig.executeUserOpPerWordGasOverhead * userOpWordsLength;
      } else {
        callDataOverhead := callDataOverhead + ((|op.callData| + 31) / 32) as real * gasConfig.perUserOpWordGasOverhead;
        assert callDataOverhead == CallOverhead(gasConfig, op.callData, packedLength);
      }
      userOpSpecificOverhead := perUserOpOverhead + callDataOverhead;
    }

    method CalculateEncoded(op: UserOperation, packedUserOp: Bytes, options: GasOptions) returns (r: Result<real, GasError>)
      requires gasConfig.expectedBundleSize != 0.0 && packedUserOp != []
      ensures r == Formula(gasConfig, StipendShare(gasConfig), Overhead(gasConfig, op, |packedUserOp|),
                           UserOpGasUsed(op, options), Tokens(packedUserOp, ToUint8(gasConfig.tokensPerNonzeroByte)))
    {
      var tokenCount := CountTokens(packedUserOp);
      var userOpSpecificOverhead := AddOverheads(op, |packedUserOp|);
      var userOpShareOfBundleCost := gasConfig.fixedGasOverhead / gasConfig.expectedBundleSize;
      var userOpShareOfStipend := gasConfig.transactionGasStipend / gasConfig.expectedBundleSize;
      if gasConfig.useEip7623 {
        var calculatedGasUsed := UserOpGasUsed(op, options);
        if calculatedGasUsed.Failure? { return calculatedGasUsed; }
        var used := calculatedGasUsed.value;
        var cost := TransactionGasCost(gasConfig, userOpShareOfStipend, tokenCount.value,
                                       userOpShareOfBundleCost + userOpSpecificOverhead + used);
        return Success(cost as real - used);
      } else {
        return Success(Priced(gasConfig.standardTokenGasCost, tokenCount.value) + userOpShareOfStipend
                       + userOpShareOfBundleCost + userOpSpecificOverhead);
      }
    }

    method Calculate(op: UserOperation, options: GasOptions) returns (r: Result<real, GasError>)
      requires gasConfig.expectedBundleSize != 0.0
      ensures r == Required(gasConfig, op, options)
    {
      var encoded := EncodeUserOp(op);
      match encoded
      case Failure(e) => r := Failure(e);
      case Success(packedUserOp) =>
        RequiredIs(gasConfig, op, options, packedUserOp);
        r := CalculateEncoded(op, packedUserOp, options);
    }

    method EstimatePreVerificationGas(draft: Draft, options: GasOptions) returns (r: Result<real, GasError>)
      requires gasConfig.expectedBundleSize != 0.0
      ensures r == Required(gasConfig, Filled(gasConfig, draft), options)
    {
      r := Calculate(Filled(gasConfig, draft), options);
    }

    method ValidatePreVerificationGas(op: UserOperation, options: GasOptions) returns (valid: bool, r: Result<real, GasError>)
      requires gasConfig.expectedBundleSize != 0.0
      ensures r == Required(gasConfig, op, options)
      ensures valid <==> r.Success? && r.value <= op.preVerificationGas as real
    {
      r := Calculate(op, options);
      valid := r.Success? && r.value <= op.preVerificationGas as real;
    }
  }
}
