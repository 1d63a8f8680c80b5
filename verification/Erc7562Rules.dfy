/** The trace of one validation and the ERC-7562 rules that a single call frame must obey. */
module Erc7562Rules {
  import opened Common
  import opened Addresses
  import opened UserOps

  datatype Entity = Account | Paymaster | Factory | EntryPoint | SenderCreator | NoEntity

  datatype CallType = Call | DelegateCall | CallCode | StaticCall | Create | Create2

  /** The keys of the four access records of a frame, in the order in which the tracer lists them. */
  datatype AccessedSlots = AccessedSlots(
    writeSlots: seq<string>, readSlots: seq<string>, transientWrites: seq<string>, transientReads: seq<string>)
  {
    function All(): seq<string> { writeSlots + readSlots + transientWrites + transientReads }

    predicate Written(slot: string) { slot in writeSlots || slot in transientWrites }

    predicate Transient(slot: string) { slot in transientReads || slot in transientWrites }
  }

  datatype ContractUse = ContractUse(address: string, size: int, opcode: int)

  datatype Frame = Frame(
    typ: CallType,
    from: string,
    to: string,
    input: Option<string>,
    value: Option<int>,
    outOfGas: bool,
    usedOpcodes: seq<int>,
    extCodeAccess: seq<string>,
    contractSize: seq<ContractUse>,
    accessed: AccessedSlots,
    keccak: seq<string>,
    calls: seq<Frame>)

  /** Stakes read from the EntryPoint; `context` is what the paymaster's validation call returned, if anything. */
  datatype ValidationResult = ValidationResult(
    sender: StakeInfo, factory: Option<StakeInfo>, paymaster: Option<StakeInfo>, context: Option<string>)

  /** The configured EntryPoint and the library calls whose results are arbitrary here.
      `pad32` is `zeroPadValue(_, 32)`, None where it throws; `parseHex` is `parseInt(_, 16)`, None for NaN. */
  datatype Env = Env(
    entryPointAddress: string,
    parseHex: string -> Option<int>,
    methodName: string -> Option<string>,
    pad32: string -> Option<string>,
    keccak256: string -> string,
    slotNumber: string -> int)

  datatype AddressName = Named(entity: Entity) | Raw(address: string)

  /** What a rejected trace reports; the arguments are those interpolated in the error message. */
  datatype Violation =
    | NoCalls
    | UnknownEntity(to: string)
    | BannedOpcode(entity: Entity, opcode: int)
    | OutOfGas(entity: Entity)
    | IllegalCreate(entity: Entity)
    | UndeployedAccess(entity: Entity, use: ContractUse)
    | IllegalEntryPointCall(knownMethod: string)
    | ExtCodeOnEntryPoint(entity: Entity)
    | CallWithValue
    | ForbiddenPrecompile(address: string)
    | StakedOpcode(entity: Entity, opcode: int)
    | ContextFromUnstaked
    | UnstakedStorage(entity: Entity, name: AddressName, slot: string)
    | ForbiddenStorage(entity: Entity, isWrite: bool, isTransient: bool, name: AddressName, slot: string)
    | MalformedAddress // not an RpcError: the exception that zeroPadValue throws

  /** The entity on whose behalf a frame runs. */
  datatype Who = Who(entity: Entity, address: string)

  /** A frame of the call tree, the child indices that lead to it, and the entity it is checked under. */
  datatype Visit = Visit(path: seq<nat>, frame: Frame, who: Who)

  const CREATORS := ["0x3b3112c4376d037822decff3fe6cd30e1e726517", "0x449ed7c3e6fee6a97311d4b55475df59c44add33"]

  // BASEFEE, BLOCKHASH, COINBASE, DIFFICULTY, GAS, GASLIMIT, GASPRICE, INVALID, NUMBER, ORIGIN, SELFDESTRUCT,
  // TIMESTAMP, BLOBHASH and BLOBBASEFEE
  const BANNED_OPCODES := {0x48, 0x40, 0x41, 0x44, 0x5a, 0x45, 0x3a, 0xfe, 0x43, 0x32, 0xff, 0x42, 0x49, 0x4a}

  // BALANCE and SELFBALANCE
  const STAKED_OPCODES := {0x31, 0x47}

  const ALLOWED_METHODS := {"acceptAccount", "acceptPaymaster", "sigFailAccount", "sigFailPaymaster", "depositTo", "0x"}

  /** Everything that stays fixed while one trace is parsed. */
  datatype Validation = Validation(env: Env, op: UserOp, result: ValidationResult, keccak: seq<string>)
  {
    function EP(): string { Lower(env.entryPointAddress) }

    predicate ToEntryPoint(f: Frame) { Lower(f.to) == EP() }

    // ---------- who a frame acts for ----------

    /** Frames that may change the current entity: those called from zero, the EntryPoint or a SenderCreator. */
    predicate Boundary(f: Frame) {
      Lower(f.from) == ZERO_ADDRESS || Lower(f.from) == EP() || Lower(f.from) in CREATORS
    }

    function Attributed(f: Frame): Option<Who> {
      if Lower(op.sender) == Lower(f.to) then Some(Who(Account, op.sender))
      else if Lower(f.from) in CREATORS && Names(op.factory, Lower(f.to)) then Some(Who(Factory, op.factory.value))
      else if Names(op.paymaster, Lower(f.to)) then Some(Who(Paymaster, op.paymaster.value))
      else if EP() == Lower(f.to) then Some(Who(EntryPoint, EP()))
      else if Lower(f.to) in CREATORS then Some(Who(SenderCreator, Lower(f.to)))
      else None
    }

    /** The entity of frame `f` when its caller ran under `who`. */
    function Enter(f: Frame, who: Who): Who {
      if Boundary(f) then Attributed(f).GetOr(who) else who
    }

    /** An EntryPoint self-call, which the runner drops with everything below it.
        The `from` side is compared without folding its case. */
    predicate Pruned(f: Frame) { ToEntryPoint(f) && f.from == EP() }

    // ---------- stakes ----------

    static predicate Funded(s: StakeInfo) { 1 <= s.stake && 1 <= s.unstakeDelaySec }

    predicate Staked(e: Entity) {
      match e
      case Account => Funded(result.sender)
      case Factory => result.factory.Some? && Funded(result.factory.value)
      case Paymaster => result.paymaster.Some? && Funded(result.paymaster.value)
      case _ => false
    }

    // ---------- opcode rules ----------

    predicate Precompiled(address: string) {
      var n := env.parseHex(address);
      n.Some? && 1 <= n.value < 1000
    }

    predicate ForbiddenPrecompiled(address: string) {
      Precompiled(address) && env.parseHex(address).value > 9
    }

    predicate CallsEntryPoint(f: Frame) {
      ToEntryPoint(f) && Lower(f.from) != EP() && Lower(f.from) != ZERO_ADDRESS
    }

    function KnownMethod(f: Frame): string {
      match f.input
      case None => "<no-input>"
      case Some(input) =>
        var sig := if |input| < 10 then input else input[..10];
        env.methodName(sig).GetOr(sig)
    }

    function CheckOp011(f: Frame, who: Who): Option<Violation> {
      if ToEntryPoint(f) then None
      else
        match Find(f.usedOpcodes, opcode => opcode in BANNED_OPCODES)
        case Some(opcode) => Some(BannedOpcode(who.entity, opcode))
        case None => None
    }

    function CheckOp020(f: Frame, who: Who): Option<Violation> {
      if f.outOfGas then Some(OutOfGas(who.entity)) else None
    }

    function CheckOp031(f: Frame, who: Who): Option<Violation> {
      var byOp032 := op.factory.Some? && f.typ == Create && who.entity in {Account, Factory} && Lower(f.from) == Lower(op.sender);
      var byErep060 := (Lower(f.from) == Lower(op.sender) || Names(op.factory, Lower(f.from))) && Staked(Factory);
      var senderByFactory := who.entity == Factory && Lower(f.to) == Lower(op.sender);
      if f.typ != Create && f.typ != Create2 then None
      else if byOp032 || byErep060 || senderByFactory then None
      else Some(IllegalCreate(who.entity))
    }

    predicate Undeployed(u: ContractUse) {
      !Precompiled(u.address) && Lower(u.address) != Lower(op.sender) && Lower(u.address) != EP() && u.size <= 2
    }

    function CheckOp041(f: Frame, who: Who): Option<Violation> {
      match Find(f.contractSize, u => Undeployed(u))
      case Some(u) => Some(UndeployedAccess(who.entity, u))
      case None => None
    }

    function CheckOp054(f: Frame): Option<Violation> {
      if CallsEntryPoint(f) && KnownMethod(f) !in ALLOWED_METHODS
      then Some(IllegalEntryPointCall(KnownMethod(f))) else None
    }

    function CheckOp054ExtCode(f: Frame, who: Who): Option<Violation> {
      if Find(f.extCodeAccess, a => Lower(a) == EP()).Some? then Some(ExtCodeOnEntryPoint(who.entity)) else None
    }

    function CheckOp061(f: Frame): Option<Violation> {
      if !CallsEntryPoint(f) && f.value.GetOr(0) != 0 then Some(CallWithValue) else None
    }

    function CheckOp062(f: Frame): Option<Violation> {
      match Find(f.contractSize, (u: ContractUse) => ForbiddenPrecompiled(u.address))
      case Some(u) => Some(ForbiddenPrecompile(u.address))
      case None => None
    }

    function CheckOp080(f: Frame, who: Who): Option<Violation> {
      match Find(f.usedOpcodes, opcode => opcode in STAKED_OPCODES && !Staked(who.entity))
      case Some(opcode) => Some(StakedOpcode(who.entity, opcode))
      case None => None
    }

    function CheckErep050(who: Who): Option<Violation> {
      if who.entity == Paymaster && !Staked(Paymaster) && result.paymaster.Some? && result.context.Some? && result.context.value != "0x"
      then Some(ContextFromUnstaked) else None
    }

    // ---------- storage rules ----------

    function EntityAddresses(): seq<Option<string>> {
      [ Some(Lower(op.sender)),
        if op.paymaster.Some? then Some(Lower(op.paymaster.value)) else None,
        if op.factory.Some? then Some(Lower(op.factory.value)) else None ]
    }

    /** No address of the UserOperation makes `toBytes32` throw while the keccak inputs are scanned. */
    predicate PadsKnown() {
      keccak == [] || forall a :: a in EntityAddresses() && a.Some? ==> env.pad32(a.value).Some?
    }

    /** `keccak(A || ...)` is associated with A, and so are the 128 slots that start there. */
    predicate AssociatedBy(input: string, addr: string, slot: string) {
      && Some(addr) in EntityAddresses()
      && env.pad32(addr).Some? && env.pad32(addr).value <= input
      && var n := env.slotNumber(env.keccak256(input)); n <= env.slotNumber(slot) < n + 128
    }

    predicate Associated(slot: string, addr: string) {
      || env.pad32(addr) == Some(slot)
      || exists i :: 0 <= i < |keccak| && AssociatedBy(keccak[i], addr, slot)
    }

    /** STO-021 and STO-022: storage associated with the sender, once it exists or when a staked factory creates it. */
    predicate SenderAssociated(slot: string) {
      Associated(slot, Lower(op.sender)) && (op.factory.None? || Staked(Factory))
    }

    /** STO-031, STO-032 and STO-033: own, associated or read-only access. */
    predicate EntityAccess(f: Frame, who: Who, slot: string) {
      || Lower(f.to) == Lower(who.address)
      || Associated(slot, Lower(who.address))
      || !f.accessed.Written(slot)
    }

    /** The first disjunct is STO-010, the sender's own storage. */
    predicate SlotAllowed(f: Frame, who: Who, slot: string) {
      || Lower(f.to) == Lower(op.sender)
      || SenderAssociated(slot)
      || (EntityAccess(f, who, slot) && Staked(who.entity))
    }

    function NameOf(address: string): AddressName {
      if Lower(address) == Lower(op.sender) then Named(Account)
      else if Names(op.factory, Lower(address)) then Named(Factory)
      else if Names(op.paymaster, Lower(address)) then Named(Paymaster)
      else if EP() == Lower(address) then Named(EntryPoint)
      else if Lower(address) in CREATORS then Named(SenderCreator)
      else Raw(address)
    }

    predicate PadsThrow(who: Who) {
      env.pad32(Lower(op.sender)).None? || env.pad32(Lower(who.address)).None?
    }

    function SlotBreach(f: Frame, who: Who, slot: string): Option<Violation> {
      if PadsThrow(who) then Some(MalformedAddress)
      else if SlotAllowed(f, who, slot) then None
      else if (EntityAccess(f, who, slot) && !Staked(who.entity))
           || (Associated(slot, Lower(op.sender)) && op.factory.Some? && !Staked(Factory))
      then Some(UnstakedStorage(who.entity, NameOf(f.to), slot))
      else Some(ForbiddenStorage(who.entity, f.accessed.Written(slot), f.accessed.Transient(slot), NameOf(f.to), slot))
    }

    /** The breach of the first slot that has one. */
    function FirstSlotBreach(f: Frame, who: Who, slots: seq<string>): (r: Option<Violation>)
      ensures r.None? <==> forall i :: 0 <= i < |slots| ==> SlotBreach(f, who, slots[i]).None?
    {
      if slots == [] then None
      else
        assert slots == [slots[0]] + slots[1..];
        var r := SlotBreach(f, who, slots[0]);
        if r.Some? then r else FirstSlotBreach(f, who, slots[1..])
    }

    function CheckStorage(f: Frame, who: Who): Option<Violation> {
      if ToEntryPoint(f) then None
      else if !PadsKnown() then Some(MalformedAddress)
      else FirstSlotBreach(f, who, f.accessed.All())
    }

    // ---------- one frame ----------

    function CheckEntity(f: Frame): Option<Violation> {
      if Boundary(f) && Attributed(f).None? then Some(UnknownEntity(f.to)) else None
    }

    /** The rules between entity detection and storage. */
    function OpcodeBreach(f: Frame, who: Who): Option<Violation> {
      if CheckOp011(f, who).Some? then CheckOp011(f, who)
      else if CheckOp020(f, who).Some? then CheckOp020(f, who)
      else if CheckOp031(f, who).Some? then CheckOp031(f, who)
      else if CheckOp041(f, who).Some? then CheckOp041(f, who)
      else if CheckOp054(f).Some? then CheckOp054(f)
      else if CheckOp054ExtCode(f, who).Some? then CheckOp054ExtCode(f, who)
      else if CheckOp061(f).Some? then CheckOp061(f)
      else if CheckOp062(f).Some? then CheckOp062(f)
      else if CheckOp080(f, who).Some? then CheckOp080(f, who)
      else CheckErep050(who)
    }

    /** The first rule that frame `f` breaks when it runs under `who`, in the order in which the rules are chained. */
    function Breach(f: Frame, who: Who): Option<Violation> {
      if CheckEntity(f).Some? then CheckEntity(f)
      else if OpcodeBreach(f, who).Some? then OpcodeBreach(f, who)
      else CheckStorage(f, who)
    }
  }
}
