/** The greedy fold that turns handed-out entries into a bundle. */
module BundleBuilder {
  import opened Common
  import opened Addresses
  import opened UserOps
  import opened Reputation
  import opened Mempool
  import opened StorageMaps

  datatype Validated = Validated(preOpGas: nat, prefund: nat, storageMap: StorageMap)

  /** What the builder reads from outside for one entry: the paymaster's deposit on chain, the two reputation
      statuses, and the result of validating the op again (None when that fails). */
  datatype Observed = Observed(balance: nat, paymasterStatus: Status, factoryStatus: Status, validation: Option<Validated>)

  /** `signer` recovers the authority of an EIP-7702 authorization. */
  datatype Rules = Rules(maxBundleGas: nat, knownSenders: seq<string>, signer: Authorization -> string)

  datatype Reason = FailedSecondValidation | BannedEntity

  datatype Removal = Removal(hash: string, op: UserOp, reason: Reason)

  /** The accumulator of the fold. */
  datatype Tally = Tally(
    bundle: seq<UserOp>, storageMap: StorageMap, tuples: seq<Authorization>,
    notIncluded: seq<string>, marked: seq<Removal>,
    totalGas: nat, deposits: map<string, int>, entityCount: map<string, nat>, senders: set<string>)

  const START := Tally([], map[], [], [], [], 0, map[], map[], {})

  const THROTTLED_ENTITY_BUNDLE_COUNT := 4

  /** Where an entry ends up. */
  datatype Fate = InBundle | NotIncluded | Marked(reason: Reason) | AuthConflict

  function DepositOf(deposits: map<string, int>, p: string): int { if p in deposits then deposits[p] else 0 }

  function CountOf(counts: map<string, nat>, e: string): nat { if e in counts then counts[e] else 0 }

  /** A deposit that is absent or exactly zero is (re)loaded. */
  predicate Loads(deposits: map<string, int>, op: UserOp) {
    Truthy(op.paymaster) && DepositOf(deposits, op.paymaster.value) == 0
  }

  function Load(deposits: map<string, int>, op: UserOp, balance: nat): map<string, int> {
    if Loads(deposits, op) then deposits[op.paymaster.value := balance] else deposits
  }

  predicate IsThrottled(a: Option<string>, status: Status, counts: map<string, nat>) {
    Truthy(a) && status == THROTTLED && CountOf(counts, a.value) >= THROTTLED_ENTITY_BUNDLE_COUNT
  }

  predicate AccessesOtherSenders(storage: StorageMap, sender: string, knownSenders: seq<string>) {
    exists a :: a in storage && Lower(a) != Lower(sender) && Lower(a) in knownSenders
  }

  function GasOf(op: UserOp, v: Validated): nat { v.preOpGas + op.callGasLimit }

  /** `shouldIncludeInBundle`: None to include, else whether the entry is marked for removal. */
  function Excluded(r: Rules, t: Tally, op: UserOp, o: Observed, v: Validated): Option<Fate> {
    if o.paymasterStatus == BANNED || o.factoryStatus == BANNED then Some(Marked(BannedEntity))
    else if IsThrottled(op.paymaster, o.paymasterStatus, t.entityCount) then Some(NotIncluded)
    else if IsThrottled(op.factory, o.factoryStatus, t.entityCount) then Some(NotIncluded)
    else if op.sender in t.senders then Some(NotIncluded)
    else if AccessesOtherSenders(v.storageMap, op.sender, r.knownSenders) then Some(NotIncluded)
    else if t.totalGas + GasOf(op, v) > r.maxBundleGas then Some(NotIncluded)
    else if Truthy(op.paymaster) && DepositOf(t.deposits, op.paymaster.value) < v.prefund then Some(NotIncluded)
    else None
  }

  function Increment(counts: map<string, nat>, e: string): map<string, nat> { counts[e := CountOf(counts, e) + 1] }

  /** The factory is counted from the old counts, which drops the paymaster's increment. */
  function CountCharge(counts: map<string, nat>, op: UserOp): map<string, nat> {
    if Truthy(op.factory) then Increment(counts, op.factory.value)
    else if Truthy(op.paymaster) then Increment(counts, op.paymaster.value)
    else counts
  }

  function ChargeDeposit(deposits: map<string, int>, op: UserOp, prefund: nat): map<string, int> {
    if Truthy(op.paymaster) then deposits[op.paymaster.value := DepositOf(deposits, op.paymaster.value) - prefund] else deposits
  }

  function SameSigner(r: Rules, tuples: seq<Authorization>, a: Authorization): Option<Authorization> {
    Find(tuples, (x: Authorization) => r.signer(x) == r.signer(a))
  }

  /** `mergeEip7702Authorizations`: None when a tuple of the same signer delegates elsewhere. */
  function MergeAuth(r: Rules, tuples: seq<Authorization>, op: UserOp): Option<seq<Authorization>> {
    match op.auth
    case None => Some(tuples)
    case Some(a) =>
      match SameSigner(r, tuples, a)
      case None => Some(tuples + [a])
      case Some(x) => if Lower(x.address) == Lower(a.address) then Some(tuples) else None
  }

  /** The tally after the deposit has been looked up. */
  function WithDeposit(t: Tally, op: UserOp, o: Observed): Tally { t.(deposits := Load(t.deposits, op, o.balance)) }

  function FateOf(r: Rules, t: Tally, e: Entry, o: Observed): Fate {
    match o.validation
    case None => Marked(FailedSecondValidation)
    case Some(v) =>
      match Excluded(r, WithDeposit(t, e.op, o), e.op, o, v)
      case Some(fate) => fate
      case None => if MergeAuth(r, t.tuples, e.op).None? then AuthConflict else InBundle
  }

  /** Entries that are charged, whether or not their authorization then turns out to conflict. */
  predicate Charged(f: Fate) { f == InBundle || f == AuthConflict }

  function Charge(t: Tally, op: UserOp, v: Validated): Tally {
    t.(deposits := ChargeDeposit(t.deposits, op, v.prefund),
       entityCount := CountCharge(t.entityCount, op),
       storageMap := Merge(t.storageMap, v.storageMap))
  }

  function Bundle(t: Tally, op: UserOp, v: Validated, tuples: seq<Authorization>): Tally {
    t.(tuples := tuples, bundle := t.bundle + [op], totalGas := t.totalGas + GasOf(op, v), senders := t.senders + {op.sender})
  }

  /** One step of the fold. */
  function Consider(r: Rules, t: Tally, e: Entry, o: Observed): Tally {
    var u := WithDeposit(t, e.op, o);
    match FateOf(r, t, e, o)
    case Marked(reason) => u.(marked := u.marked + [Removal(e.hash, e.op, reason)])
    case NotIncluded => u.(notIncluded := u.notIncluded + [e.hash])
    case AuthConflict => Charge(u, e.op, o.validation.value)
    case InBundle =>
      Bundle(Charge(u, e.op, o.validation.value), e.op, o.validation.value, MergeAuth(r, t.tuples, e.op).value)
  }

  /** A build: the rules, the entries in order, and what is observed for each of them. */
  datatype Build = Build(r: Rules, entries: seq<Entry>, obs: nat -> Observed)
  {
    /** The tally after the first `n` entries. */
    function At(n: nat): Tally
      requires n <= |entries|
    {
      if n == 0 then START else Consider(r, At(n - 1), entries[n - 1], obs(n - 1))
    }

    function Fate(i: nat): Fate
      requires i < |entries|
    {
      FateOf(r, At(i), entries[i], obs(i))
    }
  }

  // ---------- the fold as it runs ----------

  class Accumulator {
    var bundle: seq<UserOp>
    var storageMap: StorageMap
    var tuples: seq<Authorization>
    var notIncluded: seq<string>
    var marked: seq<Removal>
    var totalGas: nat
    var deposits: map<string, int>
    var entityCount: map<string, nat>
    var senders: set<string>

    constructor ()
      ensures View() == START
    {
      bundle, storageMap, tuples, notIncluded, marked := [], map[], [], [], [];
      totalGas, deposits, entityCount, senders := 0, map[], map[], {};
    }

    function View(): Tally
      reads this
    {
      Tally(bundle, storageMap, tuples, notIncluded, marked, totalGas, deposits, entityCount, senders)
    }

    method Add(r: Rules, e: Entry, o: Observed)
      modifies this
      ensures View() == Consider(r, old(View()), e, o)
    {
      var op := e.op;
      if Truthy(op.paymaster) && DepositOf(deposits, op.paymaster.value) == 0 {
        deposits := deposits[op.paymaster.value := o.balance];
      }
      if o.validation.None? {
        marked := marked + [Removal(e.hash, op, FailedSecondValidation)];
        return;
      }
      var v := o.validation.value;
      var excluded := Excluded(r, View(), op, o, v);
      if excluded.Some? {
        if excluded.value.Marked? {
          marked := marked + [Removal(e.hash, op, BannedEntity)];
        } else {
          notIncluded := notIncluded + [e.hash];
        }
        return;
      }
      Include(r, op, v);
    }

    /** Charges the op and, unless its authorization conflicts, bundles it. */
    method Include(r: Rules, op: UserOp, v: Validated)
      modifies this
      ensures var t := old(View());
              View() == match MergeAuth(r, t.tuples, op)
                        case None => Charge(t, op, v)
                        case Some(tuples) => Bundle(Charge(t, op, v), op, v, tuples)
    {
      UpdateCountAndDeposit(op, v.prefund);
      storageMap := Merge(storageMap, v.storageMap);
      var ok := MergeAuthorizations(r, op);
      if !ok { return; }
      bundle := bundle + [op];
      totalGas := totalGas + v.preOpGas + op.callGasLimit;
      senders := senders + {op.sender};
    }

    /** `updateEntityStakeCountAndDeposit` */
    method UpdateCountAndDeposit(op: UserOp, prefund: nat)
      modifies this`deposits, this`entityCount
      ensures deposits == ChargeDeposit(old(deposits), op, prefund)
      ensures entityCount == CountCharge(old(entityCount), op)
    {
      var counts := entityCount;
      if Truthy(op.paymaster) {
        deposits := deposits[op.paymaster.value := DepositOf(deposits, op.paymaster.value) - prefund];
        entityCount := Increment(counts, op.paymaster.value);
      }
      if Truthy(op.factory) {
        entityCount := Increment(counts, op.factory.value);
      }
    }

    method MergeAuthorizations(r: Rules, op: UserOp) returns (ok: bool)
      modifies this`tuples
      ensures ok <==> MergeAuth(r, old(tuples), op).Some?
      ensures tuples == MergeAuth(r, old(tuples), op).GetOr(old(tuples))
    {
      if op.auth.Some? {
        var existing := SameSigner(r, tuples, op.auth.value);
        if existing.None? {
          tuples := tuples + [op.auth.value];
        } else if Lower(existing.value.address) != Lower(op.auth.value.address) {
          return false;
        }
      }
      return true;
    }
  }

  method BuildBundle(b: Build) returns (acc: Accumulator)
    ensures fresh(acc) && acc.View() == b.At(|b.entries|)
  {
    acc := new Accumulator();
    for i := 0 to |b.entries|
      invariant fresh(acc) && acc.View() == b.At(i)
    {
      acc.Add(b.r, b.entries[i], b.obs(i));
    }
  }
}
