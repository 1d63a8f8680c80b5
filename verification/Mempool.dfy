/** The mempool as a state machine: one function per public method, applied to the shared state. */
module Mempool {
  import opened Common
  import opened Addresses
  import opened UserOps
  import opened OrderedRecord
  import opened Reputation

  datatype EntryStatus = Pending | Bundling | Bundled | Failed

  datatype Entry = Entry(op: UserOp, hash: string, status: EntryStatus, aggregator: Option<string>)

  type Pool = Record<Entry>

  type Counts = map<string, int>

  datatype State = State(pool: Pool, counts: Counts, book: Book)

  datatype Config = Config(limits: Limits, bundleSize: nat)

  /** What validation hands to `addUserOp`. `depositOk` is the outcome of the paymaster deposit check. */
  datatype AddParams = AddParams(
    op: UserOp, hash: string, sender: StakeInfo,
    paymaster: Option<StakeInfo>, factory: Option<StakeInfo>, aggregator: Option<StakeInfo>, depositOk: bool)

  /** `removeUserOp` and `updateEntryStatus` accept a hash or a UserOperation. */
  datatype Ref = ByHash(hash: string) | ByOp(op: UserOp)

  const THROTTLED_ENTITY_MEMPOOL_COUNT := 4
  const MAX_MEMPOOL_USEROPS_PER_SENDER := 4

  // ---------- lookups ----------

  /** Two UserOperations compete for one slot when sender (up to case) and nonce agree. */
  predicate SameSlot(a: UserOp, b: UserOp) { Lower(a.sender) == Lower(b.sender) && a.nonce == b.nonce }

  function FindBySenderNonce(op: UserOp, pool: Pool): Option<Entry> {
    Find(Values(pool), (e: Entry) => SameSlot(e.op, op))
  }

  function Resolve(ref: Ref, pool: Pool): Option<Entry> {
    match ref
    case ByHash(h) => if h in pool.vals then Some(pool.vals[h]) else None
    case ByOp(op) => FindBySenderNonce(op, pool)
  }

  function KnownSenders(pool: Pool): seq<string> {
    var es := Values(pool);
    seq(|es|, i requires 0 <= i < |es| => Lower(es[i].op.sender))
  }

  /** The addresses an op uses besides its sender: present, not empty, not "0x"; lower-cased. */
  function Entities(op: UserOp): set<string> {
    (if Truthy(op.paymaster) && op.paymaster.value != "0x" then {Lower(op.paymaster.value)} else {})
    + (if Truthy(op.factory) && op.factory.value != "0x" then {Lower(op.factory.value)} else {})
  }

  function KnownEntities(pool: Pool): set<string> {
    set k, a | k in pool.vals && a in Entities(pool.vals[k].op) :: a
  }

  function CountAt(counts: Counts, key: string): int { if key in counts then counts[key] else 0 }

  // ---------- the checks of addUserOp ----------

  function CheckReputationStatus(b: Book, lim: Limits, counts: Counts, role: Role, info: StakeInfo, max: int): Option<Reject> {
    var found := CountAt(counts, Lower(info.addr));
    if CheckBanned(b, role, info).Some? then CheckBanned(b, role, info)
    else if found > THROTTLED_ENTITY_MEMPOOL_COUNT && CheckThrottled(b, role, info).Some? then CheckThrottled(b, role, info)
    else if found >= max then CheckStake(b, lim, role, info)
    else None
  }

  function CheckOptional(b: Book, lim: Limits, counts: Counts, role: Role, info: Option<StakeInfo>): Option<Reject> {
    if info.None? then None
    else CheckReputationStatus(b, lim, counts, role, info.value, MaxAllowedMempoolOpsUnstaked(b, info.value.addr))
  }

  function CheckReputation(b: Book, lim: Limits, counts: Counts, p: AddParams): Option<Reject> {
    var s := CheckReputationStatus(b, lim, counts, Account, p.sender, MAX_MEMPOOL_USEROPS_PER_SENDER);
    var m := CheckOptional(b, lim, counts, PaymasterRole, p.paymaster);
    var f := CheckOptional(b, lim, counts, Deployer, p.factory);
    if s.Some? then s else if m.Some? then m else if f.Some? then f
    else CheckOptional(b, lim, counts, Aggregator, p.aggregator)
  }

  /** An absent paymaster or factory is looked up as the empty string. */
  function CheckMultipleRoles(op: UserOp, entities: set<string>, senders: seq<string>): Option<Reject> {
    if Lower(op.sender) in entities then Some(SenderIsEntity(op.sender))
    else if Lower(op.paymaster.GetOr("")) in senders then Some(PaymasterIsSender(op.paymaster))
    else if Lower(op.factory.GetOr("")) in senders then Some(FactoryIsSender(op.factory))
    else None
  }

  /** Both fees must reach 1.1 times the old ones, here without the rounding of doubles. */
  function CheckReplace(next: UserOp, was: UserOp): Option<Reject> {
    if 10 * next.maxPriorityFeePerGas < 11 * was.maxPriorityFeePerGas then Some(PriorityFeeTooLow)
    else if 10 * next.maxFeePerGas < 11 * was.maxFeePerGas then Some(MaxFeeTooLow)
    else None
  }

  function CheckAdd(cfg: Config, s: State, p: AddParams): Option<Reject> {
    if !p.depositOk then Some(PaymasterDepositTooLow)
    else
      match FindBySenderNonce(p.op, s.pool)
      case Some(was) => CheckReplace(p.op, was.op)
      case None =>
        var r := CheckReputation(s.book, cfg.limits, s.counts, p);
        if r.Some? then r else CheckMultipleRoles(p.op, KnownEntities(s.pool), KnownSenders(s.pool))
  }

  // ---------- pool and count updates ----------

  function EntryFor(p: AddParams): Entry {
    Entry(p.op, p.hash, Pending, if p.aggregator.Some? then Some(p.aggregator.value.addr) else None)
  }

  /** Every key is counted from the old counts, so an address in two roles is counted once. */
  function CountUp(was: Counts, op: UserOp): Counts {
    was + map a | a in {Lower(op.sender)} + CountedEntities(op) :: CountAt(was, a) + 1
  }

  /** Like `Entities`, except that "0x" is tested after folding the case. */
  function CountedEntities(op: UserOp): set<string> {
    (if Truthy(op.paymaster) && Lower(op.paymaster.value) != "0x" then {Lower(op.paymaster.value)} else {})
    + (if Truthy(op.factory) && Lower(op.factory.value) != "0x" then {Lower(op.factory.value)} else {})
  }

  function AddEntry(s: State, e: Entry, was: Option<Entry>): (Pool, Counts) {
    match was
    case Some(o) => (Put(Delete(s.pool, o.hash), e.hash, e), s.counts)
    case None => (Put(s.pool, e.hash, e), CountUp(s.counts, e.op))
  }

  /** Counts are decremented under the sender as it is spelled in the entry. */
  function CountDown(counts: Counts, key: string): Counts {
    var n := CountAt(counts, key) - 1;
    if n <= 0 then counts - {key} else counts[key := n]
  }

  function RemoveEntry(s: State, ref: Ref): (Pool, Counts) {
    match Resolve(ref, s.pool)
    case Some(e) => (Delete(s.pool, e.hash), CountDown(s.counts, e.op.sender))
    case None => (s.pool, s.counts)
  }

  function WithStatus(pool: Pool, ref: Ref, st: EntryStatus): Pool {
    match Resolve(ref, pool)
    case Some(e) => Put(pool, e.hash, e.(status := st))
    case None => pool
  }

  /** Addresses are compared as spelled. */
  predicate Spells(op: UserOp, addr: string) {
    op.sender == addr || op.paymaster == Some(addr) || op.factory == Some(addr)
  }

  function Spelling(es: seq<Entry>, addr: string): seq<Entry> {
    if es == [] then []
    else (if Spells(es[0].op, addr) then [es[0]] else []) + Spelling(es[1..], addr)
  }

  function SweepKeys(op: UserOp): set<string> {
    {op.sender} + (if Truthy(op.paymaster) then {op.paymaster.value} else {}) + (if Truthy(op.factory) then {op.factory.value} else {})
  }

  function SweepAll(pool: Pool, counts: Counts, doomed: seq<Entry>): (Pool, Counts)
    decreases doomed
  {
    if doomed == [] then (pool, counts)
    else SweepAll(Delete(pool, doomed[0].hash), counts - SweepKeys(doomed[0].op), doomed[1..])
  }

  function Sweep(s: State, addr: string): (Pool, Counts) { SweepAll(s.pool, s.counts, Spelling(Values(s.pool), addr)) }

  // ---------- handing out ----------

  /** The first `n` pending entries, in insertion order. */
  function FirstPending(es: seq<Entry>, n: nat): seq<Entry> {
    if es == [] || n == 0 then []
    else if es[0].status == Pending then [es[0]] + FirstPending(es[1..], n - 1)
    else FirstPending(es[1..], n)
  }

  /** `getAllPending` when `all`, else `getNextPending`. */
  function HandedOut(cfg: Config, s: State, all: bool): seq<Entry> {
    FirstPending(Values(s.pool), if all then |s.pool.keys| else cfg.bundleSize)
  }

  /** Sets the status under each hash; a hash that is not a key would be an exception in the source. */
  function MarkBundling(pool: Pool, es: seq<Entry>): Pool
    decreases es
  {
    if es == [] then pool
    else
      var h := es[0].hash;
      MarkBundling(if h in pool.vals then Put(pool, h, pool.vals[h].(status := Bundling)) else pool, es[1..])
  }

  // ---------- reputation side effects of addUserOp ----------

  function SeenOf(a: Option<string>, up: bool): seq<Event> { if Truthy(a) then [Seen(a, up)] else [] }

  /** The helper `updateSeenStatus`: a sender that passes the stake check is counted up, whatever the action. */
  function SeenEvents(b: Book, lim: Limits, aggregator: Option<string>, op: UserOp, sender: StakeInfo, up: bool): seq<Event> {
    (if CheckStake(b, lim, Account, sender).None? then SeenOf(Some(op.sender), true) else [])
    + SeenOf(aggregator, up) + SeenOf(op.paymaster, up) + SeenOf(op.factory, up)
  }

  function AddEvents(cfg: Config, b: Book, p: AddParams, was: Option<Entry>): seq<Event> {
    var e := EntryFor(p);
    match was
    case None => SeenEvents(b, cfg.limits, e.aggregator, p.op, p.sender, true)
    case Some(o) =>
      var first := SeenEvents(b, cfg.limits, o.aggregator, o.op, p.sender, false);
      first + SeenEvents(ApplyAll(b, first), cfg.limits, e.aggregator, p.op, p.sender, true)
  }

  // ---------- steps and runs ----------

  datatype Action =
    | Add(p: AddParams)
    | Remove(ref: Ref)
    | SetStatus(target: Ref, status: EntryStatus)
    | HandOut(all: bool)
    | BanSweep(addr: string)
    | Clear
    | Rep(event: Event)

  /** The reputation events that one action causes, in order. */
  function Events(cfg: Config, s: State, a: Action): seq<Event> {
    match a
    case Add(p) => if CheckAdd(cfg, s, p).None? then AddEvents(cfg, s.book, p, FindBySenderNonce(p.op, s.pool)) else []
    case Rep(e) => [e]
    case _ => []
  }

  function PoolStep(cfg: Config, s: State, a: Action): (Pool, Counts) {
    match a
    case Add(p) =>
      if CheckAdd(cfg, s, p).None? then AddEntry(s, EntryFor(p), FindBySenderNonce(p.op, s.pool)) else (s.pool, s.counts)
    case Remove(ref) => RemoveEntry(s, ref)
    case SetStatus(ref, st) => (WithStatus(s.pool, ref, st), s.counts)
    case HandOut(all) => (MarkBundling(s.pool, HandedOut(cfg, s, all)), s.counts)
    case BanSweep(addr) => Sweep(s, addr)
    case Clear => (Empty(), map[])
    case Rep(_) => (s.pool, s.counts)
  }

  function Step(cfg: Config, s: State, a: Action): State {
    var pc := PoolStep(cfg, s, a);
    State(pc.0, pc.1, ApplyAll(s.book, Events(cfg, s, a)))
  }

  function Run(cfg: Config, s: State, actions: seq<Action>): State {
    if actions == [] then s
    else Step(cfg, Run(cfg, s, actions[..|actions| - 1]), actions[|actions| - 1])
  }

  /** The reputation events of a whole run. */
  function Log(cfg: Config, s: State, actions: seq<Action>): seq<Event> {
    if actions == [] then []
    else
      var n := |actions| - 1;
      Log(cfg, s, actions[..n]) + Events(cfg, Run(cfg, s, actions[..n]), actions[n])
  }

  const INITIAL := State(Empty(), map[], Book(map[], [], []))
}
