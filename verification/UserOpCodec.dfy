/** Packing a user operation for the EntryPoint and unpacking it again: two 128-bit fields to a word, the factory in front
    of its data, the paymaster and its two gas limits in front of its data. Hex strings are the bytes they spell. */
module UserOpCodec {
  import opened Common

  type byte = x: int | 0 <= x < 256

  type Bytes = seq<byte>

  const TWO_TO_THE_128: int := 0x1_0000_0000_0000_0000_0000_0000_0000_0000
  const TWO_TO_THE_256: int := TWO_TO_THE_128 * TWO_TO_THE_128

  // ---------- big-endian numbers ----------

  function Pow256(k: nat): (r: nat)
    ensures r > 0
  {
    if k == 0 then 1 else 256 * Pow256(k - 1)
  }

  /** The low `k` bytes of `v`, most significant first. */
  function BigEndian(v: nat, k: nat): (r: Bytes)
    ensures |r| == k
    decreases k
  {
    if k == 0 then [] else BigEndian(v / 256, k - 1) + [v % 256]
  }

  function Value(bytes: Bytes): (v: nat)
    ensures v < Pow256(|bytes|)
  {
    if bytes == [] then 0 else 256 * Value(bytes[..|bytes| - 1]) + bytes[|bytes| - 1]
  }

  lemma {:induction false} ValueOfBigEndian(v: nat, k: nat)
    requires v < Pow256(k)
    ensures Value(BigEndian(v, k)) == v
    decreases k
  {
    if k > 0 {
      ValueOfBigEndian(v / 256, k - 1);
      assert BigEndian(v, k)[..k - 1] == BigEndian(v / 256, k - 1);
    }
  }

  lemma {:induction false} BigEndianOfValue(bytes: Bytes)
    ensures BigEndian(Value(bytes), |bytes|) == bytes
  {
    if bytes != [] {
      var n := |bytes| - 1;
      BigEndianOfValue(bytes[..n]);
      assert Value(bytes) / 256 == Value(bytes[..n]) && Value(bytes) % 256 == bytes[n];
      assert bytes == bytes[..n] + [bytes[n]];
    }
  }

  lemma WordBound()
    ensures Pow256(32) == TWO_TO_THE_256
  {
    assert Pow256(8) == 0x1_0000_0000_0000_0000;
    assert Pow256(16) == TWO_TO_THE_128;
    assert Pow256(24) == TWO_TO_THE_128 * 0x1_0000_0000_0000_0000;
  }

  // ---------- two fields in a word ----------

  datatype CodecError = NegativeWord | WordOverflow | EmptyNumber | ShortInitCode | ShortPaymasterAndData | NoPaymasterGasLimits

  /** `zeroPadValue(toBeHex((high128 << 128) + low128), 32)` */
  function PackUint(high128: int, low128: int): Result<Bytes, CodecError> {
    var packed := high128 * TWO_TO_THE_128 + low128;
    if packed < 0 then Failure(NegativeWord)
    else if packed >= TWO_TO_THE_256 then Failure(WordOverflow)
    else Success(BigEndian(packed, 32))
  }

  function UnpackUint(packed: Bytes): Result<(nat, nat), CodecError> {
    if packed == [] then Failure(EmptyNumber)
    else Success((Value(packed) / TWO_TO_THE_128, Value(packed) % TWO_TO_THE_128))
  }

  predicate Fits128(x: int) { 0 <= x < TWO_TO_THE_128 }

  lemma Halves(high: int, low: int)
    ensures var packed, h := high * TWO_TO_THE_128 + low, high + low / TWO_TO_THE_128;
            && packed / TWO_TO_THE_128 == h && packed % TWO_TO_THE_128 == low % TWO_TO_THE_128
            && (packed < 0 <==> h < 0) && (packed >= TWO_TO_THE_256 <==> h >= TWO_TO_THE_128)
  {
    var q, r := low / TWO_TO_THE_128, low % TWO_TO_THE_128;
    assert high * TWO_TO_THE_128 + low == (high + q) * TWO_TO_THE_128 + r;
  }

  /** What packing and unpacking does to any two numbers: what does not fit the low half spills into the high one. */
  lemma PackedHalves(high: int, low: int)
    ensures var h := high + low / TWO_TO_THE_128;
            if Fits128(h) then
              PackUint(high, low).Success? && UnpackUint(PackUint(high, low).value) == Success((h, low % TWO_TO_THE_128))
            else PackUint(high, low) == Failure(if h < 0 then NegativeWord else WordOverflow)
  {
    var packed := high * TWO_TO_THE_128 + low;
    Halves(high, low);
    if 0 <= packed < TWO_TO_THE_256 {
      WordBound();
      ValueOfBigEndian(packed, 32);
    }
  }

  /** Packing keeps two numbers apart exactly when both are 128-bit. */
  lemma HalvesKeptIff(high: int, low: int)
    ensures (PackUint(high, low).Success? && UnpackUint(PackUint(high, low).value) == Success((high, low)))
       <==> Fits128(high) && Fits128(low)
  {
    hide PackUint, UnpackUint;
    PackedHalves(high, low);
    NothingSpills(low);
  }

  lemma NothingSpills(low: int)
    ensures low % TWO_TO_THE_128 == low <==> Fits128(low)
    ensures Fits128(low) ==> low / TWO_TO_THE_128 == 0
  {
  }

  /** A byte string survives unpacking and packing exactly when it is one word long. */
  lemma WordKeptIff(word: Bytes)
    ensures (UnpackUint(word).Success? && PackUint(UnpackUint(word).value.0, UnpackUint(word).value.1) == Success(word))
       <==> |word| == 32
  {
    if |word| == 32 {
      WordBound();
      BigEndianOfValue(word);
    }
  }

  lemma {:induction false} BigEndianSplits(high: nat, low: nat, j: nat, k: nat)
    requires low < Pow256(k)
    ensures BigEndian(high * Pow256(k) + low, j + k) == BigEndian(high, j) + BigEndian(low, k)
    decreases k
  {
    if k == 0 {
      assert high * Pow256(0) + low == high;
      assert BigEndian(high, j) + [] == BigEndian(high, j);
    } else {
      var p, v := Pow256(k - 1), high * Pow256(k) + low;
      assert v == 256 * (high * p + low / 256) + low % 256 by {
        assert high * Pow256(k) == 256 * (high * p);
      }
      BigEndianSplits(high, low / 256, j, k - 1);
    }
  }

  lemma HalvesLayout(high: nat, low: nat, half: nat, whole: nat)
    requires half == 16 && whole == 32 && low < TWO_TO_THE_128
    ensures BigEndian(high * TWO_TO_THE_128 + low, whole) == BigEndian(high, half) + BigEndian(low, half)
  {
    HalfBound();
    BigEndianSplits(high, low, half, half);
  }

  /** Where the two halves stand in the word. */
  lemma PackedLayout(high: int, low: int)
    requires Fits128(high) && Fits128(low)
    ensures PackUint(high, low) == Success(BigEndian(high, 16) + BigEndian(low, 16))
  {
    Halves(high, low);
    HalvesLayout(high, low, 16, 32);
  }

  lemma HalfBound()
    ensures Pow256(16) == TWO_TO_THE_128
  {
    assert Pow256(8) == 0x1_0000_0000_0000_0000;
  }

  // ---------- user operations ----------

  /** The authorization of an EIP-7702 operation travels beside the packed form, so only its presence matters here. */
  datatype UserOperation = UserOperation(
    sender: Bytes, nonce: int, factory: Option<Bytes>, factoryData: Option<Bytes>, callData: Bytes,
    callGasLimit: int, verificationGasLimit: int, preVerificationGas: int, maxFeePerGas: int, maxPriorityFeePerGas: int,
    paymaster: Option<Bytes>, paymasterVerificationGasLimit: Option<int>, paymasterPostOpGasLimit: Option<int>,
    paymasterData: Option<Bytes>, signature: Bytes, eip7702Auth: bool)

  datatype PackedUserOperation = PackedUserOperation(
    sender: Bytes, nonce: int, initCode: Bytes, callData: Bytes, accountGasLimits: Bytes, preVerificationGas: int,
    gasFees: Bytes, paymasterAndData: Bytes, signature: Bytes)

  /** `0x7702`, the factory of an operation that is authorized by EIP-7702. */
  const EIP_7702_MARKER_INIT_CODE: Bytes := [0x77, 0x02]

  function Zeros(n: nat): (r: Bytes)
    ensures |r| == n
  {
    if n == 0 then [] else [0] + Zeros(n - 1)
  }

  function PackPaymasterData(paymaster: Bytes, verificationGas: int, postOpGas: int, data: Option<Bytes>)
      : Result<Bytes, CodecError>
  {
    match PackUint(verificationGas, postOpGas)
    case Failure(e) => Failure(e)
    case Success(limits) => Success(paymaster + limits + data.GetOr([]))
  }

  datatype PaymasterFields = PaymasterFields(paymaster: Bytes, verificationGas: nat, postOpGas: nat, data: Bytes)

  function UnpackPaymasterAndData(pmd: Bytes): Result<Option<PaymasterFields>, CodecError> {
    if pmd == [] then Success(None)
    else if |pmd| < 52 then Failure(ShortPaymasterAndData)
    else
      match UnpackUint(pmd[20..52])
      case Failure(e) => Failure(e)
      case Success(limits) => Success(Some(PaymasterFields(pmd[..20], limits.0, limits.1, pmd[52..])))
  }

  function PackedPaymaster(op: UserOperation): Result<Bytes, CodecError> {
    match op.paymaster
    case None => Success([])
    case Some(paymaster) =>
      if op.paymasterVerificationGasLimit.None? || op.paymasterPostOpGasLimit.None? then Failure(NoPaymasterGasLimits)
      else PackPaymasterData(paymaster, op.paymasterVerificationGasLimit.value, op.paymasterPostOpGasLimit.value, op.paymasterData)
  }

  function InitCode(op: UserOperation): Bytes {
    match op.factory
    case None => []
    case Some(factory) => PaddedFactory(factory) + op.factoryData.GetOr([])
  }

  /** The marker is filled up to the length of an address; every other factory is taken as it is. */
  function PaddedFactory(factory: Bytes): Bytes {
    if factory == EIP_7702_MARKER_INIT_CODE then EIP_7702_MARKER_INIT_CODE + Zeros(18) else factory
  }

  function PackUserOp(op: UserOperation): Result<PackedUserOperation, CodecError> {
    match PackedPaymaster(op)
    case Failure(e) => Failure(e)
    case Success(paymasterAndData) =>
      match PackUint(op.verificationGasLimit, op.callGasLimit)
      case Failure(e) => Failure(e)
      case Success(accountGasLimits) =>
        match PackUint(op.maxPriorityFeePerGas, op.maxFeePerGas)
        case Failure(e) => Failure(e)
        case Success(gasFees) =>
          Success(PackedUserOperation(op.sender, op.nonce, InitCode(op), op.callData, accountGasLimits,
                                      op.preVerificationGas, gasFees, paymasterAndData, op.signature))
  }

  function WithPaymaster(op: UserOperation, fields: Option<PaymasterFields>): UserOperation {
    match fields
    case None => op
    case Some(f) => op.(paymaster := Some(f.paymaster), paymasterVerificationGasLimit := Some(f.verificationGas),
                        paymasterPostOpGasLimit := Some(f.postOpGas), paymasterData := Some(f.data))
  }

  /** Everything but the paymaster fields. */
  function UnpackRest(p: PackedUserOperation): Result<UserOperation, CodecError> {
    match UnpackUint(p.accountGasLimits)
    case Failure(e) => Failure(e)
    case Success(limits) =>
      match UnpackUint(p.gasFees)
      case Failure(e) => Failure(e)
      case Success(fees) =>
        if 0 < |p.initCode| < 20 then Failure(ShortInitCode)
        else
          var hasFactory := p.initCode != [];
          Success(UserOperation(p.sender, p.nonce,
                                if hasFactory then Some(p.initCode[..20]) else None,
                                if hasFactory then Some(p.initCode[20..]) else None,
                                p.callData, limits.1, limits.0, p.preVerificationGas, fees.1, fees.0,
                                None, None, None, None, p.signature, false))
  }

  function UnpackUserOp(p: PackedUserOperation): Result<UserOperation, CodecError> {
    match UnpackRest(p)
    case Failure(e) => Failure(e)
    case Success(op) =>
      match UnpackPaymasterAndData(p.paymasterAndData)
      case Failure(e) => Failure(e)
      case Success(fields) => Success(WithPaymaster(op, fields))
  }

  // ---------- round trips ----------

  /** The packed operations that the EntryPoint would take apart without loss. */
  predicate WellFormed(p: PackedUserOperation) {
    && |p.accountGasLimits| == 32 && |p.gasFees| == 32
    && (p.initCode == [] || |p.initCode| >= 20)
    && (p.paymasterAndData == [] || |p.paymasterAndData| >= 52)
  }

  lemma PaymasterKept(pmd: Bytes, op: UserOperation)
    requires pmd == [] || |pmd| >= 52
    requires op.paymaster.None?
    ensures UnpackPaymasterAndData(pmd).Success?
    ensures PackedPaymaster(WithPaymaster(op, UnpackPaymasterAndData(pmd).value)) == Success(pmd)
  {
    if pmd != [] {
      WordKeptIff(pmd[20..52]);
      assert pmd == pmd[..20] + pmd[20..52] + pmd[52..];
    }
  }

  lemma InitCodeKept(initCode: Bytes, op: UserOperation)
    requires |initCode| >= 20 && op.factory == Some(initCode[..20]) && op.factoryData == Some(initCode[20..])
    ensures InitCode(op) == initCode
  {
    assert |initCode[..20]| != |EIP_7702_MARKER_INIT_CODE|;
    assert initCode == initCode[..20] + initCode[20..];
  }

  lemma WellFormedKept(p: PackedUserOperation)
    requires WellFormed(p)
    ensures UnpackUserOp(p).Success? && PackUserOp(UnpackUserOp(p).value) == Success(p)
  {
    WordKeptIff(p.accountGasLimits);
    WordKeptIff(p.gasFees);
    PaymasterKept(p.paymasterAndData, UnpackRest(p).value);
    if p.initCode != [] { InitCodeKept(p.initCode, UnpackUserOp(p).value); }
  }

  /** A packed operation survives unpacking and packing exactly when it is well formed. */
  lemma RepackedIff(p: PackedUserOperation)
    ensures (UnpackUserOp(p).Success? && PackUserOp(UnpackUserOp(p).value) == Success(p)) <==> WellFormed(p)
  {
    if WellFormed(p) {
      WellFormedKept(p);
    } else if UnpackUserOp(p).Success? {
      WordKeptIff(p.accountGasLimits);
      WordKeptIff(p.gasFees);
    }
  }

  /** The operations whose packed form gives every field back. */
  predicate Encodable(op: UserOperation) {
    && Fits128(op.verificationGasLimit) && Fits128(op.callGasLimit)
    && Fits128(op.maxPriorityFeePerGas) && Fits128(op.maxFeePerGas)
    && (op.factory.Some? ==> |op.factory.value| == 20)
    && (op.paymaster.Some? ==> PaymasterEncodable(op))
  }

  predicate PaymasterEncodable(op: UserOperation)
    requires op.paymaster.Some?
  {
    && |op.paymaster.value| == 20
    && op.paymasterVerificationGasLimit.Some? && Fits128(op.paymasterVerificationGasLimit.value)
    && op.paymasterPostOpGasLimit.Some? && Fits128(op.paymasterPostOpGasLimit.value)
  }

  /** `op` with the defaults that packing fills in, and without what packing leaves out. */
  function Normalised(op: UserOperation): UserOperation {
    op.(factoryData := if op.factory.Some? then Some(op.factoryData.GetOr([])) else None,
        paymasterVerificationGasLimit := if op.paymaster.Some? then op.paymasterVerificationGasLimit else None,
        paymasterPostOpGasLimit := if op.paymaster.Some? then op.paymasterPostOpGasLimit else None,
        paymasterData := if op.paymaster.Some? then Some(op.paymasterData.GetOr([])) else None,
        eip7702Auth := false)
  }

  predicate SamePaymaster(a: UserOperation, b: UserOperation) {
    && a.paymaster == b.paymaster && a.paymasterVerificationGasLimit == b.paymasterVerificationGasLimit
    && a.paymasterPostOpGasLimit == b.paymasterPostOpGasLimit && a.paymasterData == b.paymasterData
  }

  lemma SlicesOfPaymasterData(paymaster: Bytes, limits: Bytes, data: Bytes)
    requires |limits| == 32
    ensures var pmd := paymaster + limits + data;
            if |pmd| < 52 then UnpackPaymasterAndData(pmd).Failure? && |paymaster| != 20
            else |paymaster| == 20 ==> pmd[..20] == paymaster && pmd[20..52] == limits && pmd[52..] == data
  {
  }

  /** What unpacking makes of the packed paymaster fields. */
  lemma PaymasterReturned(op: UserOperation, bare: UserOperation)
    requires op.paymaster.Some? && PackedPaymaster(op).Success?
    ensures UnpackPaymasterAndData(PackedPaymaster(op).value).Success?
            && SamePaymaster(WithPaymaster(bare, UnpackPaymasterAndData(PackedPaymaster(op).value).value), Normalised(op))
       <==> PaymasterEncodable(op)
  {
    var high, low := op.paymasterVerificationGasLimit.value, op.paymasterPostOpGasLimit.value;
    HalvesKeptIff(high, low);
    SlicesOfPaymasterData(op.paymaster.value, PackUint(high, low).value, op.paymasterData.GetOr([]));
  }

  lemma PaymasterPacks(op: UserOperation)
    requires op.paymaster.Some? ==> PaymasterEncodable(op)
    ensures PackedPaymaster(op).Success?
  {
    if op.paymaster.Some? { HalvesKeptIff(op.paymasterVerificationGasLimit.value, op.paymasterPostOpGasLimit.value); }
  }

  /** Everything but the paymaster fields comes back. */
  lemma RestReturned(op: UserOperation, p: PackedUserOperation)
    requires PackUserOp(op) == Success(p)
    ensures UnpackRest(p) == Success(Normalised(op.(paymaster := None))) <==> Encodable(op.(paymaster := None))
  {
    HalvesKeptIff(op.verificationGasLimit, op.callGasLimit);
    HalvesKeptIff(op.maxPriorityFeePerGas, op.maxFeePerGas);
  }

  lemma EncodablePacks(op: UserOperation)
    requires Encodable(op)
    ensures PackUserOp(op).Success?
  {
    PaymasterPacks(op);
    HalvesKeptIff(op.verificationGasLimit, op.callGasLimit);
    HalvesKeptIff(op.maxPriorityFeePerGas, op.maxFeePerGas);
  }

  lemma Assembled(op: UserOperation, bare: UserOperation, fields: Option<PaymasterFields>)
    requires bare.paymaster == bare.paymasterData == None
    requires bare.paymasterVerificationGasLimit == bare.paymasterPostOpGasLimit == None
    ensures WithPaymaster(bare, fields) == Normalised(op)
       <==> bare == Normalised(op.(paymaster := None)) && SamePaymaster(WithPaymaster(bare, fields), Normalised(op))
  {
  }

  lemma WholeReturned(op: UserOperation, p: PackedUserOperation)
    requires PackUserOp(op) == Success(p)
    ensures UnpackUserOp(p) == Success(Normalised(op)) <==> Encodable(op)
  {
    RestReturned(op, p);
    var rest, fields := UnpackRest(p), UnpackPaymasterAndData(p.paymasterAndData);
    if rest.Success? {
      if op.paymaster.Some? { PaymasterReturned(op, rest.value); }
      if fields.Success? { Assembled(op, rest.value, fields.value); }
    }
  }

  /** Unpacking gives an operation back, with its defaults filled in, exactly when it is encodable. */
  lemma UnpackedIff(op: UserOperation)
    ensures (PackUserOp(op).Success? && UnpackUserOp(PackUserOp(op).value) == Success(Normalised(op))) <==> Encodable(op)
  {
    if Encodable(op) { EncodablePacks(op); }
    if PackUserOp(op).Success? { WholeReturned(op, PackUserOp(op).value); }
  }

  /** The byte layout that the EntryPoint expects: 16-byte numbers, big-endian, in the order of ERC-4337. */
  lemma OperationLayout(op: UserOperation, p: PackedUserOperation)
    requires Encodable(op) && PackUserOp(op) == Success(p)
    ensures p.accountGasLimits == BigEndian(op.verificationGasLimit, 16) + BigEndian(op.callGasLimit, 16)
    ensures p.gasFees == BigEndian(op.maxPriorityFeePerGas, 16) + BigEndian(op.maxFeePerGas, 16)
    ensures p.initCode == op.factory.GetOr([]) + if op.factory.Some? then op.factoryData.GetOr([]) else []
    ensures p.paymasterAndData ==
            match op.paymaster
            case None => []
            case Some(paymaster) =>
              paymaster + BigEndian(op.paymasterVerificationGasLimit.value, 16)
              + BigEndian(op.paymasterPostOpGasLimit.value, 16) + op.paymasterData.GetOr([])
  {
    PackedLayout(op.verificationGasLimit, op.callGasLimit);
    PackedLayout(op.maxPriorityFeePerGas, op.maxFeePerGas);
    if op.paymaster.Some? {
      var high, low := op.paymasterVerificationGasLimit.value, op.paymasterPostOpGasLimit.value;
      PackedLayout(high, low);
      assert op.paymaster.value + (BigEndian(high, 16) + BigEndian(low, 16))
          == op.paymaster.value + BigEndian(high, 16) + BigEndian(low, 16);
    }
  }

  lemma PackedLengths(op: UserOperation, p: PackedUserOperation)
    requires PackUserOp(op) == Success(p)
    ensures |p.accountGasLimits| == 32 && |p.gasFees| == 32
    ensures |p.initCode| == if op.factory.None? then 0 else |PaddedFactory(op.factory.value)| + |op.factoryData.GetOr([])|
    ensures |p.paymasterAndData| == if op.paymaster.None? then 0 else |op.paymaster.value| + 32 + |op.paymasterData.GetOr([])|
  {
  }

  /** Unpacking a packed operation and packing it again leads back to the packed form exactly when nothing in front of
      the data is short of an address, which the EIP-7702 marker never is. */
  lemma PackedTwiceIff(op: UserOperation, p: PackedUserOperation)
    requires PackUserOp(op) == Success(p)
    ensures (UnpackUserOp(p).Success? && PackUserOp(UnpackUserOp(p).value) == Success(p))
       <==> && (op.factory.None? || op.factory == Some(EIP_7702_MARKER_INIT_CODE)
                || var n := |op.factory.value| + |op.factoryData.GetOr([])|; n == 0 || n >= 20)
            && (op.paymaster.None? || |op.paymaster.value| + |op.paymasterData.GetOr([])| >= 20)
  {
    RepackedIff(p);
    PackedLengths(op, p);
  }

  /** An EIP-7702 operation comes back with the marker filled up to an address, and packs to the same bytes again. */
  lemma MarkerReturned(op: UserOperation)
    requires op.factory == Some(EIP_7702_MARKER_INIT_CODE)
    requires Encodable(op.(factory := None))
    ensures PackUserOp(op).Success?
    ensures var p := PackUserOp(op).value;
            && UnpackUserOp(p) == Success(Normalised(op.(factory := Some(EIP_7702_MARKER_INIT_CODE + Zeros(18)))))
            && PackUserOp(UnpackUserOp(p).value) == Success(p)
  {
    var padded := op.(factory := Some(EIP_7702_MARKER_INIT_CODE + Zeros(18)));
    UnpackedIff(padded);
    assert PackUserOp(op) == PackUserOp(padded);
    PackedTwiceIff(op, PackUserOp(op).value);
  }

  // ---------- what cannot be packed or unpacked ----------

  /** Any bytes but none are a number, and its halves are split at the 128th bit. */
  lemma UnpackedValue(packed: Bytes)
    ensures packed == [] ==> UnpackUint(packed) == Failure(EmptyNumber)
    ensures packed != [] ==>
              && UnpackUint(packed).Success? && 0 <= UnpackUint(packed).value.1 < TWO_TO_THE_128
              && UnpackUint(packed).value.0 * TWO_TO_THE_128 + UnpackUint(packed).value.1 == Value(packed)
  {
  }

  /** Unpacking fails for the first of three reasons that applies, and for no other. */
  lemma UnpackFailsIff(p: PackedUserOperation)
    ensures var empty := p.accountGasLimits == [] || p.gasFees == [];
            && (UnpackUserOp(p) == Failure(EmptyNumber) <==> empty)
            && (UnpackUserOp(p) == Failure(ShortInitCode) <==> !empty && 0 < |p.initCode| < 20)
            && (UnpackUserOp(p) == Failure(ShortPaymasterAndData) <==>
                  !empty && !(0 < |p.initCode| < 20) && 0 < |p.paymasterAndData| < 52)
            && (UnpackUserOp(p).Success? <==>
                  !empty && !(0 < |p.initCode| < 20) && !(0 < |p.paymasterAndData| < 52))
  {
    hide UnpackUint;
    UnpackedValue(p.accountGasLimits);
    UnpackedValue(p.gasFees);
    if |p.paymasterAndData| >= 52 { UnpackedValue(p.paymasterAndData[20..52]); }
  }

  predicate LacksLimits(op: UserOperation) {
    op.paymaster.Some? && (op.paymasterVerificationGasLimit.None? || op.paymasterPostOpGasLimit.None?)
  }

  predicate FitsWord(word: int) { 0 <= word < TWO_TO_THE_256 }

  /** The number that packing turns into a word. */
  function Joined(high128: int, low128: int): int { high128 * TWO_TO_THE_128 + low128 }

  /** The numbers that are packed into a word each, in the order in which they are packed. */
  function PackedWords(op: UserOperation): seq<int>
    requires !LacksLimits(op)
  {
    var words := [Joined(op.verificationGasLimit, op.callGasLimit), Joined(op.maxPriorityFeePerGas, op.maxFeePerGas)];
    if op.paymaster.None? then words
    else [Joined(op.paymasterVerificationGasLimit.value, op.paymasterPostOpGasLimit.value)] + words
  }

  lemma PackUintFails(high: int, low: int)
    ensures var word := Joined(high, low);
            if FitsWord(word) then PackUint(high, low).Success?
            else PackUint(high, low) == Failure(if word < 0 then NegativeWord else WordOverflow)
  {
  }

  /** Packing fails when the paymaster has no gas limits, and else exactly when some word has no 256 bits, with the error of
      the first one. */
  lemma PackFailsIff(op: UserOperation) returns (i: nat)
    ensures PackUserOp(op) == Failure(NoPaymasterGasLimits) <==> LacksLimits(op)
    ensures !LacksLimits(op) ==>
              var words := PackedWords(op);
              && i <= |words| && (forall j :: 0 <= j < i ==> FitsWord(words[j]))
              && (PackUserOp(op).Success? <==> i == |words|)
              && (i < |words| ==> !FitsWord(words[i])
                                  && PackUserOp(op) == Failure(if words[i] < 0 then NegativeWord else WordOverflow))
  {
    hide PackUint, Joined, FitsWord, InitCode;
    PackUintFails(op.verificationGasLimit, op.callGasLimit);
    PackUintFails(op.maxPriorityFeePerGas, op.maxFeePerGas);
    i := 0;
    if !LacksLimits(op) {
      if op.paymaster.Some? { PackUintFails(op.paymasterVerificationGasLimit.value, op.paymasterPostOpGasLimit.value); }
      var words := PackedWords(op);
      i := if !FitsWord(words[0]) then 0 else if !FitsWord(words[1]) then 1
           else if |words| == 2 || !FitsWord(words[2]) then 2 else 3;
    }
  }
}
