/** What holds of every bundle the builder makes. */
module BundleTheorems {
  import opened Common
  import opened Addresses
  import opened UserOps
  import opened Reputation
  import opened Mempool
  import opened StorageMaps
  import opened BundleBuilder

  // ---------- partition ----------

  /** The fate of every index, as a function of its own. */
  function Fates(b: Build): nat -> Fate { (i: nat) => if i < |b.entries| then b.Fate(i) else NotIncluded }

  /** The ops of the entries with fate `f` among the first `n`, in order. */
  function OpsWith(entries: seq<Entry>, fate: nat -> Fate, n: nat, f: Fate): seq<UserOp>
    requires n <= |entries|
  {
    if n == 0 then [] else OpsWith(entries, fate, n - 1, f) + if fate(n - 1) == f then [entries[n - 1].op] else []
  }

  function HashesWith(entries: seq<Entry>, fate: nat -> Fate, n: nat, f: Fate): seq<string>
    requires n <= |entries|
  {
    if n == 0 then [] else HashesWith(entries, fate, n - 1, f) + if fate(n - 1) == f then [entries[n - 1].hash] else []
  }

  function RemovalsOf(entries: seq<Entry>, fate: nat -> Fate, n: nat): seq<Removal>
    requires n <= |entries|
  {
    if n == 0 then []
    else RemovalsOf(entries, fate, n - 1)
         + match fate(n - 1)
           case Marked(reason) => [Removal(entries[n - 1].hash, entries[n - 1].op, reason)]
           case _ => []
  }

  /** The lists of a tally are those that the fates of the first `n` entries call for. */
  ghost predicate InOrder(entries: seq<Entry>, fate: nat -> Fate, n: nat, t: Tally)
    requires n <= |entries|
  {
    && t.bundle == OpsWith(entries, fate, n, InBundle)
    && t.notIncluded == HashesWith(entries, fate, n, NotIncluded)
    && t.marked == RemovalsOf(entries, fate, n)
  }

  ghost predicate Extends(t: Tally, u: Tally, e: Entry, fate: Fate) {
    && u.bundle == t.bundle + (if fate == InBundle then [e.op] else [])
    && u.notIncluded == t.notIncluded + (if fate == NotIncluded then [e.hash] else [])
    && u.marked == t.marked + (if fate.Marked? then [Removal(e.hash, e.op, fate.reason)] else [])
  }

  lemma ListsStep(r: Rules, t: Tally, e: Entry, o: Observed)
    ensures Extends(t, Consider(r, t, e, o), e, FateOf(r, t, e, o))
  {
  }

  lemma ListsStepAt(b: Build, i: nat)
    requires i < |b.entries|
    ensures Extends(b.At(i), b.At(i + 1), b.entries[i], b.Fate(i))
  {
    ListsStep(b.r, b.At(i), b.entries[i], b.obs(i));
  }

  /** The tally after every number of entries, as a function of its own. */
  function Tallies(b: Build): nat -> Tally { (i: nat) => if i <= |b.entries| then b.At(i) else START }

  lemma {:induction false} ExtendedInOrder(entries: seq<Entry>, fate: nat -> Fate, tally: nat -> Tally, n: nat)
    requires n <= |entries| && tally(0).bundle == [] && tally(0).notIncluded == [] && tally(0).marked == []
    requires forall i: nat :: i < n ==> Extends(tally(i), tally(i + 1), entries[i], fate(i))
    ensures InOrder(entries, fate, n, tally(n))
  {
    if n > 0 { ExtendedInOrder(entries, fate, tally, n - 1); }
  }

  lemma ListsInOrder(b: Build, n: nat)
    requires n <= |b.entries|
    ensures InOrder(b.entries, Fates(b), n, b.At(n))
  {
    forall i: nat | i < n ensures Extends(Tallies(b)(i), Tallies(b)(i + 1), b.entries[i], Fates(b)(i)) {
      ListsStepAt(b, i);
    }
    ExtendedInOrder(b.entries, Fates(b), Tallies(b), n);
  }

  lemma {:induction false} FatesAddUp(entries: seq<Entry>, fate: nat -> Fate, n: nat)
    requires n <= |entries|
    ensures |OpsWith(entries, fate, n, InBundle)| + |HashesWith(entries, fate, n, NotIncluded)|
          + |RemovalsOf(entries, fate, n)| + |OpsWith(entries, fate, n, AuthConflict)| == n
  {
    if n > 0 { FatesAddUp(entries, fate, n - 1); }
  }

  /** Every entry lands in exactly one of bundle, not-included, marked-to-remove and authorization conflict, in order. */
  lemma Partition(b: Build)
    ensures var n, t := |b.entries|, b.At(|b.entries|);
            && t.bundle == OpsWith(b.entries, Fates(b), n, InBundle)
            && t.notIncluded == HashesWith(b.entries, Fates(b), n, NotIncluded)
            && t.marked == RemovalsOf(b.entries, Fates(b), n)
            && |t.bundle| + |t.notIncluded| + |t.marked| + |OpsWith(b.entries, Fates(b), n, AuthConflict)| == n
  {
    ListsInOrder(b, |b.entries|);
    FatesAddUp(b.entries, Fates(b), |b.entries|);
  }

  // ---------- gas and senders ----------

  /** Pre-operation gas plus call gas of the bundled ops among the first `n` entries. */
  function BundledGas(b: Build, n: nat): nat
    requires n <= |b.entries|
  {
    if n == 0 then 0
    else BundledGas(b, n - 1) + if b.Fate(n - 1) == InBundle then GasOf(b.entries[n - 1].op, b.obs(n - 1).validation.value) else 0
  }

  lemma GasStep(r: Rules, t: Tally, e: Entry, o: Observed)
    ensures var u, fate := Consider(r, t, e, o), FateOf(r, t, e, o);
            if fate == InBundle then
              o.validation.Some? && u.totalGas == t.totalGas + GasOf(e.op, o.validation.value) <= r.maxBundleGas && u.bundle != []
            else u.totalGas == t.totalGas && u.bundle == t.bundle
  {
  }

  /** The gas of a non-empty bundle is within the limit. */
  lemma {:induction false} GasWithinLimit(b: Build, n: nat)
    requires n <= |b.entries|
    ensures b.At(n).totalGas == BundledGas(b, n)
    ensures b.At(n).bundle != [] ==> BundledGas(b, n) <= b.r.maxBundleGas
    ensures b.At(n).bundle == [] ==> BundledGas(b, n) == 0
  {
    hide FateOf, Consider;
    if n > 0 {
      GasWithinLimit(b, n - 1);
      GasStep(b.r, b.At(n - 1), b.entries[n - 1], b.obs(n - 1));
    }
  }

  lemma SendersStep(r: Rules, t: Tally, e: Entry, o: Observed)
    ensures Consider(r, t, e, o).senders == t.senders + if FateOf(r, t, e, o) == InBundle then {e.op.sender} else {}
    ensures FateOf(r, t, e, o) == InBundle ==> e.op.sender !in t.senders
  {
  }

  lemma {:induction false} SendersCollected(b: Build, n: nat, i: nat)
    requires i < n <= |b.entries| && b.Fate(i) == InBundle
    ensures b.entries[i].op.sender in b.At(n).senders
  {
    hide FateOf, Consider;
    SendersStep(b.r, b.At(n - 1), b.entries[n - 1], b.obs(n - 1));
    if i < n - 1 { SendersCollected(b, n - 1, i); }
  }

  /** No two bundled ops spell their sender alike; if senders come in lower case, no account occurs twice. */
  lemma SendersDistinct(b: Build, i: nat, j: nat)
    requires i < j < |b.entries| && b.Fate(i) == InBundle && b.Fate(j) == InBundle
    ensures b.entries[i].op.sender != b.entries[j].op.sender
    ensures Folded(b.entries[i].op.sender) && Folded(b.entries[j].op.sender) ==>
            Lower(b.entries[i].op.sender) != Lower(b.entries[j].op.sender)
  {
    hide FateOf, Consider;
    SendersCollected(b, j, i);
    SendersStep(b.r, b.At(j), b.entries[j], b.obs(j));
  }

  // ---------- storage of other senders ----------

  /** STO-041 for the whole bundle: when every entry's sender is known, the storage map of a charged op has no key
      that is the sender of another account's entry. */
  lemma NoInterference(b: Build, i: nat, j: nat, a: string)
    requires i < |b.entries| && j < |b.entries| && Charged(b.Fate(i))
    requires Lower(b.entries[j].op.sender) in b.r.knownSenders
    requires Lower(b.entries[i].op.sender) != Lower(b.entries[j].op.sender)
    requires a in b.obs(i).validation.value.storageMap
    ensures Lower(a) != Lower(b.entries[j].op.sender)
  {
  }

  // ---------- the merged storage map ----------

  /** The storage maps of the charged entries among the first `n`, in order. */
  function ChargedMaps(b: Build, n: nat): seq<StorageMap>
    requires n <= |b.entries|
  {
    if n == 0 then []
    else ChargedMaps(b, n - 1) + if Charged(b.Fate(n - 1)) then [b.obs(n - 1).validation.value.storageMap] else []
  }

  lemma StorageStep(r: Rules, t: Tally, e: Entry, o: Observed)
    ensures Charged(FateOf(r, t, e, o)) ==> o.validation.Some?
    ensures Consider(r, t, e, o).storageMap
         == if Charged(FateOf(r, t, e, o)) then Merge(t.storageMap, o.validation.value.storageMap) else t.storageMap
  {
  }

  lemma MergeAllSnoc(vs: seq<StorageMap>, v: StorageMap)
    ensures MergeAll(map[], vs + [v]) == Merge(MergeAll(map[], vs), v)
  {
    assert (vs + [v])[..|vs|] == vs;
  }

  lemma {:induction false} StorageMerged(b: Build, n: nat)
    requires n <= |b.entries|
    ensures b.At(n).storageMap == MergeAll(map[], ChargedMaps(b, n))
  {
    hide FateOf, Consider, Merge, MergeAll;
    if n > 0 {
      StorageMerged(b, n - 1);
      StorageStep(b.r, b.At(n - 1), b.entries[n - 1], b.obs(n - 1));
      if Charged(b.Fate(n - 1)) {
        MergeAllSnoc(ChargedMaps(b, n - 1), b.obs(n - 1).validation.value.storageMap);
      } else {
        assert ChargedMaps(b, n) == ChargedMaps(b, n - 1);
      }
    } else {
      NothingMerged();
    }
  }

  lemma NothingMerged()
    ensures MergeAll(map[], []) == map[] && START.storageMap == map[]
  {
  }

  /** The storage map that a bundle is sent with: when the maps of the charged ops do not contradict each other, it holds for
      every address the root if one of them has one, and else the union of their slots; and of nobody else anything. */
  lemma BundleStorageIsUnion(b: Build)
    requires Consistent(ChargedMaps(b, |b.entries|))
    ensures IsUnion(b.At(|b.entries|).storageMap, ChargedMaps(b, |b.entries|))
  {
    StorageMerged(b, |b.entries|);
    MergeAllIsUnion(ChargedMaps(b, |b.entries|));
  }

  // ---------- paymaster ledger ----------

  /** Prefunds charged to paymaster `p` over the first `n` entries. */
  function ChargedTo(b: Build, n: nat, p: string): nat
    requires n <= |b.entries|
  {
    if n == 0 then 0
    else
      ChargedTo(b, n - 1, p)
      + if Charged(b.Fate(n - 1)) && b.entries[n - 1].op.paymaster == Some(p) then b.obs(n - 1).validation.value.prefund else 0
  }

  predicate LoadsAt(b: Build, i: nat, p: string)
    requires i < |b.entries|
  {
    b.entries[i].op.paymaster == Some(p) && Loads(b.At(i).deposits, b.entries[i].op)
  }

  /** The sum of the balances loaded for `p`. */
  function LoadedFor(b: Build, n: nat, p: string): nat
    requires n <= |b.entries|
  {
    if n == 0 then 0 else LoadedFor(b, n - 1, p) + if LoadsAt(b, n - 1, p) then b.obs(n - 1).balance else 0
  }

  function Remainder(b: Build, n: nat, p: string): int
    requires n <= |b.entries|
  {
    DepositOf(b.At(n).deposits, p)
  }

  /** What one step does to the remainder of `p`. */
  lemma RemainderStep(r: Rules, t: Tally, e: Entry, o: Observed, p: string)
    requires p != "" && DepositOf(t.deposits, p) >= 0
    ensures var was, now := DepositOf(t.deposits, p), DepositOf(Consider(r, t, e, o).deposits, p);
            var mine := e.op.paymaster == Some(p);
            && now >= 0
            && now == was + (if mine && Loads(t.deposits, e.op) then o.balance else 0)
                          - (if mine && Charged(FateOf(r, t, e, o)) then o.validation.value.prefund else 0)
            && (mine && Loads(t.deposits, e.op) ==> was == 0)
            && now <= if mine && Loads(t.deposits, e.op) then o.balance else was
  {
    var u := WithDeposit(t, e.op, o);
    if e.op.paymaster == Some(p) && Charged(FateOf(r, t, e, o)) {
      assert Excluded(r, u, e.op, o, o.validation.value).None?;
    }
  }

  /** Conservation: remainder plus prefunds charged equals balances loaded, and no remainder is ever negative. */
  lemma {:induction false} Ledger(b: Build, n: nat, p: string)
    requires n <= |b.entries| && p != ""
    ensures Remainder(b, n, p) >= 0
    ensures Remainder(b, n, p) + ChargedTo(b, n, p) == LoadedFor(b, n, p)
  {
    hide FateOf, Consider;
    if n > 0 {
      Ledger(b, n - 1, p);
      RemainderStep(b.r, b.At(n - 1), b.entries[n - 1], b.obs(n - 1), p);
    }
  }

  /** The paymaster's balance does not change while the bundle is built. */
  predicate SteadyBalance(b: Build, n: nat, p: string, balance: nat)
    requires n <= |b.entries|
  {
    forall i :: 0 <= i < n && b.entries[i].op.paymaster == Some(p) ==> b.obs(i).balance == balance
  }

  /** The remainder never exceeds a steady balance. */
  lemma {:induction false} RemainderBounded(b: Build, n: nat, p: string, balance: nat)
    requires n <= |b.entries| && p != "" && SteadyBalance(b, n, p, balance)
    ensures 0 <= Remainder(b, n, p) <= balance
  {
    hide FateOf, Consider;
    if n > 0 {
      RemainderBounded(b, n - 1, p, balance);
      RemainderStep(b.r, b.At(n - 1), b.entries[n - 1], b.obs(n - 1), p);
    }
  }

  // ---------- throttling ----------

  predicate UsesFactory(op: UserOp, e: string) { op.factory == Some(e) }

  predicate UsesPaymaster(op: UserOp, e: string) { op.paymaster == Some(e) }

  /** The counter of `e` is incremented for `op`: its factory is `e`, or its paymaster is `e` and it has no factory. */
  predicate CountsFor(op: UserOp, e: string) {
    UsesFactory(op, e) || (UsesPaymaster(op, e) && !Truthy(op.factory))
  }

  /** The increment of `e` is lost: `e` is the paymaster, and the factory is another address. */
  predicate LosesCount(op: UserOp, e: string) {
    UsesPaymaster(op, e) && Truthy(op.factory) && !UsesFactory(op, e)
  }

  /** How many of the first `n` entries are charged and satisfy `p`. */
  function ChargedWith(entries: seq<Entry>, fate: nat -> Fate, n: nat, p: UserOp -> bool): nat
    requires n <= |entries|
  {
    if n == 0 then 0
    else ChargedWith(entries, fate, n - 1, p) + if Charged(fate(n - 1)) && p(entries[n - 1].op) then 1 else 0
  }

  function Counting(e: string): UserOp -> bool { (op: UserOp) => CountsFor(op, e) }

  function Losing(e: string): UserOp -> bool { (op: UserOp) => LosesCount(op, e) }

  function Using(e: string): UserOp -> bool { (op: UserOp) => UsesFactory(op, e) || UsesPaymaster(op, e) }

  function CountedUses(b: Build, n: nat, e: string): nat
    requires n <= |b.entries|
  {
    ChargedWith(b.entries, Fates(b), n, Counting(e))
  }

  function LostUses(b: Build, n: nat, e: string): nat
    requires n <= |b.entries|
  {
    ChargedWith(b.entries, Fates(b), n, Losing(e))
  }

  /** Charged ops that name `e` as paymaster or factory. */
  function AllUses(b: Build, n: nat, e: string): nat
    requires n <= |b.entries|
  {
    ChargedWith(b.entries, Fates(b), n, Using(e))
  }

  lemma {:induction false} UsesSplit(entries: seq<Entry>, fate: nat -> Fate, n: nat,
                                       all: UserOp -> bool, p: UserOp -> bool, q: UserOp -> bool)
    requires n <= |entries|
    requires forall op :: all(op) <==> p(op) || q(op)
    requires forall op :: !(p(op) && q(op))
    ensures ChargedWith(entries, fate, n, all) == ChargedWith(entries, fate, n, p) + ChargedWith(entries, fate, n, q)
  {
    if n > 0 { UsesSplit(entries, fate, n - 1, all, p, q); }
  }

  lemma CountStep(r: Rules, t: Tally, x: Entry, o: Observed, e: string)
    requires e != ""
    ensures CountOf(Consider(r, t, x, o).entityCount, e)
         == CountOf(t.entityCount, e) + if Charged(FateOf(r, t, x, o)) && CountsFor(x.op, e) then 1 else 0
  {
    hide FateOf, CountCharge;
    ChargeCounts(t.entityCount, x.op, e);
  }

  lemma ChargeCounts(counts: map<string, nat>, op: UserOp, e: string)
    requires e != ""
    ensures CountOf(CountCharge(counts, op), e) == CountOf(counts, e) + if CountsFor(op, e) then 1 else 0
  {
  }

  lemma ThrottledUseIsBelowCap(r: Rules, t: Tally, x: Entry, o: Observed, e: string)
    requires e != "" && Charged(FateOf(r, t, x, o))
    requires (UsesPaymaster(x.op, e) && o.paymasterStatus == THROTTLED) || (UsesFactory(x.op, e) && o.factoryStatus == THROTTLED)
    ensures CountOf(t.entityCount, e) < THROTTLED_ENTITY_BUNDLE_COUNT
  {
  }

  lemma {:induction false} CounterIsCountedUses(b: Build, n: nat, e: string)
    requires n <= |b.entries| && e != ""
    ensures CountOf(b.At(n).entityCount, e) == CountedUses(b, n, e)
  {
    hide FateOf, Consider;
    if n > 0 {
      CounterIsCountedUses(b, n - 1, e);
      CountStep(b.r, b.At(n - 1), b.entries[n - 1], b.obs(n - 1), e);
    }
  }

  /** The counter of `e` is exact up to the increments it loses to factories. */
  lemma CounterLaw(b: Build, n: nat, e: string)
    requires n <= |b.entries| && e != ""
    ensures CountOf(b.At(n).entityCount, e) == CountedUses(b, n, e)
    ensures AllUses(b, n, e) == CountedUses(b, n, e) + LostUses(b, n, e)
  {
    CounterIsCountedUses(b, n, e);
    UsesSplit(b.entries, Fates(b), n, Using(e), Counting(e), Losing(e));
  }

  /** Every entry that names `e` sees it throttled. */
  predicate ThrottledThroughout(b: Build, n: nat, e: string)
    requires n <= |b.entries|
  {
    forall i :: 0 <= i < n ==>
      && (UsesPaymaster(b.entries[i].op, e) ==> b.obs(i).paymasterStatus == THROTTLED)
      && (UsesFactory(b.entries[i].op, e) ==> b.obs(i).factoryStatus == THROTTLED)
  }

  lemma BelowCapBefore(b: Build, i: nat, e: string)
    requires i < |b.entries| && e != "" && Charged(b.Fate(i)) && Using(e)(b.entries[i].op)
    requires ThrottledThroughout(b, i + 1, e)
    ensures CountedUses(b, i, e) < THROTTLED_ENTITY_BUNDLE_COUNT
  {
    CounterLaw(b, i, e);
    ThrottledUseIsBelowCap(b.r, b.At(i), b.entries[i], b.obs(i), e);
  }

  // ---------- EIP-7702 authorizations ----------

  ghost predicate OneTuplePerSigner(r: Rules, tuples: seq<Authorization>) {
    forall i, j :: 0 <= i < j < |tuples| ==> r.signer(tuples[i]) != r.signer(tuples[j])
  }

  /** A tuple of the same signer that delegates to the same address. */
  predicate Honours(r: Rules, t: Authorization, a: Authorization) {
    r.signer(t) == r.signer(a) && Lower(t.address) == Lower(a.address)
  }

  predicate HonouredIn(r: Rules, tuples: seq<Authorization>, a: Authorization) {
    exists t :: t in tuples && Honours(r, t, a)
  }

  lemma HonouredStays(r: Rules, tuples: seq<Authorization>, more: seq<Authorization>, a: Authorization)
    requires HonouredIn(r, tuples, a) && tuples <= more
    ensures HonouredIn(r, more, a)
  {
    var t :| t in tuples && Honours(r, t, a);
    var i :| 0 <= i < |tuples| && tuples[i] == t;
    assert more[i] == t;
  }

  lemma MergeAuthKeeps(r: Rules, tuples: seq<Authorization>, op: UserOp)
    requires OneTuplePerSigner(r, tuples) && MergeAuth(r, tuples, op).Some?
    ensures var after := MergeAuth(r, tuples, op).value;
            && OneTuplePerSigner(r, after)
            && tuples <= after
            && (op.auth.Some? ==> HonouredIn(r, after, op.auth.value))
  {
    if op.auth.Some? {
      var a := op.auth.value;
      var x := SameSigner(r, tuples, a);
      if x.None? {
        assert a in tuples + [a] && Honours(r, a, a);
      } else {
        assert x.value in tuples && Honours(r, x.value, a);
      }
    }
  }

  lemma TuplesStep(r: Rules, t: Tally, e: Entry, o: Observed)
    ensures Consider(r, t, e, o).tuples
         == if FateOf(r, t, e, o) == InBundle then MergeAuth(r, t.tuples, e.op).value else t.tuples
    ensures FateOf(r, t, e, o) == InBundle ==> MergeAuth(r, t.tuples, e.op).Some?
  {
  }

  lemma {:induction false} TuplesDistinct(b: Build, n: nat)
    requires n <= |b.entries|
    ensures OneTuplePerSigner(b.r, b.At(n).tuples)
    ensures n > 0 ==> b.At(n - 1).tuples <= b.At(n).tuples
    ensures n > 0 && b.Fate(n - 1) == InBundle && b.entries[n - 1].op.auth.Some? ==>
            HonouredIn(b.r, b.At(n).tuples, b.entries[n - 1].op.auth.value)
  {
    if n > 0 {
      TuplesDistinct(b, n - 1);
      TuplesStep(b.r, b.At(n - 1), b.entries[n - 1], b.obs(n - 1));
      if b.Fate(n - 1) == InBundle { MergeAuthKeeps(b.r, b.At(n - 1).tuples, b.entries[n - 1].op); }
    }
  }

  /** The shared authorization list honours every bundled op, and never holds two tuples of one signer. */
  lemma {:induction false} AuthorizationsHonoured(b: Build, n: nat, i: nat)
    requires i < n <= |b.entries| && b.Fate(i) == InBundle && b.entries[i].op.auth.Some?
    ensures HonouredIn(b.r, b.At(n).tuples, b.entries[i].op.auth.value)
    ensures OneTuplePerSigner(b.r, b.At(n).tuples)
  {
    hide FateOf, Consider;
    TuplesDistinct(b, n);
    if i < n - 1 {
      AuthorizationsHonoured(b, n - 1, i);
      HonouredStays(b.r, b.At(n - 1).tuples, b.At(n).tuples, b.entries[i].op.auth.value);
    }
  }

  // ---------- which entries are charged ----------

  /** The paymaster or factory of the entry is throttled, and four charged ops before it have been counted for it. */
  predicate UsedUp(b: Build, i: nat, x: Option<string>, status: Status)
    requires i < |b.entries|
  {
    Truthy(x) && status == THROTTLED && CountedUses(b, i, x.value) >= 4
  }

  /** A bundled entry before the `i`-th spells its sender alike. */
  ghost predicate SenderTaken(b: Build, i: nat)
    requires i < |b.entries|
  {
    exists j: nat :: j < i && b.Fate(j) == InBundle && b.entries[j].op.sender == b.entries[i].op.sender
  }

  /** The storage map has the address of a known sender that is not the entry's own. */
  ghost predicate TouchesOthers(b: Build, i: nat, m: StorageMap)
    requires i < |b.entries|
  {
    exists a :: a in m && Lower(a) in b.r.knownSenders && Lower(a) != Lower(b.entries[i].op.sender)
  }

  /** What the paymaster has left when the `i`-th entry is considered: the remainder, or its balance when that is zero. */
  function Available(b: Build, i: nat): int
    requires i < |b.entries| && b.entries[i].op.paymaster.Some?
  {
    var rest := Remainder(b, i, b.entries[i].op.paymaster.value);
    if rest == 0 then b.obs(i).balance else rest
  }

  /** Everything that a charged entry must satisfy, in terms of the entries before it and without the order of the guards. */
  ghost predicate Includable(b: Build, i: nat, v: Validated)
    requires i < |b.entries|
  {
    var op, o := b.entries[i].op, b.obs(i);
    && !UsedUp(b, i, op.paymaster, o.paymasterStatus) && !UsedUp(b, i, op.factory, o.factoryStatus)
    && !SenderTaken(b, i) && !TouchesOthers(b, i, v.storageMap)
    && BundledGas(b, i) + v.preOpGas + op.callGasLimit <= b.r.maxBundleGas
    && (Truthy(op.paymaster) ==> v.prefund <= Available(b, i))
  }

  lemma {:induction false} SendersAreBundled(b: Build, n: nat, sender: string) returns (j: nat)
    requires n <= |b.entries| && sender in b.At(n).senders
    ensures j < n && b.Fate(j) == InBundle && b.entries[j].op.sender == sender
  {
    hide FateOf, Consider;
    SendersStep(b.r, b.At(n - 1), b.entries[n - 1], b.obs(n - 1));
    if sender in b.At(n - 1).senders { j := SendersAreBundled(b, n - 1, sender); } else { j := n - 1; }
  }

  /** The guards of the builder, held against one tally. */
  predicate Passes(r: Rules, t: Tally, op: UserOp, o: Observed, v: Validated) {
    && !BundleBuilder.IsThrottled(op.paymaster, o.paymasterStatus, t.entityCount)
    && !BundleBuilder.IsThrottled(op.factory, o.factoryStatus, t.entityCount)
    && op.sender !in t.senders && !AccessesOtherSenders(v.storageMap, op.sender, r.knownSenders)
    && t.totalGas + GasOf(op, v) <= r.maxBundleGas
    && (Truthy(op.paymaster) ==> v.prefund <= DepositOf(Load(t.deposits, op, o.balance), op.paymaster.value))
  }

  lemma FateIs(r: Rules, t: Tally, x: Entry, o: Observed)
    ensures FateOf(r, t, x, o) == Marked(FailedSecondValidation) <==> o.validation.None?
    ensures FateOf(r, t, x, o) == Marked(BannedEntity) <==>
            o.validation.Some? && (o.paymasterStatus == BANNED || o.factoryStatus == BANNED)
    ensures Charged(FateOf(r, t, x, o)) <==>
            o.validation.Some? && o.paymasterStatus != BANNED && o.factoryStatus != BANNED && Passes(r, t, x.op, o, o.validation.value)
    ensures Charged(FateOf(r, t, x, o)) ==> (FateOf(r, t, x, o) == InBundle <==> MergeAuth(r, t.tuples, x.op).Some?)
  {
    hide MergeAuth, AccessesOtherSenders, Lower;
  }

  lemma UsedUpIff(b: Build, i: nat, x: Option<string>, status: Status)
    requires i < |b.entries|
    ensures BundleBuilder.IsThrottled(x, status, b.At(i).entityCount) <==> UsedUp(b, i, x, status)
  {
    hide FateOf, Consider;
    if Truthy(x) { CounterIsCountedUses(b, i, x.value); }
  }

  lemma SenderTakenIff(b: Build, i: nat)
    requires i < |b.entries|
    ensures b.entries[i].op.sender in b.At(i).senders <==> SenderTaken(b, i)
  {
    hide FateOf, Consider;
    if b.entries[i].op.sender in b.At(i).senders {
      var j := SendersAreBundled(b, i, b.entries[i].op.sender);
    } else if j: nat :| j < i && b.Fate(j) == InBundle && b.entries[j].op.sender == b.entries[i].op.sender {
      SendersCollected(b, i, j);
    }
  }

  lemma TouchesOthersIff(b: Build, i: nat, m: StorageMap)
    requires i < |b.entries|
    ensures AccessesOtherSenders(m, b.entries[i].op.sender, b.r.knownSenders) <==> TouchesOthers(b, i, m)
  {
    hide Lower;
  }

  lemma AvailableIs(b: Build, i: nat)
    requires i < |b.entries| && Truthy(b.entries[i].op.paymaster)
    ensures Available(b, i) == DepositOf(Load(b.At(i).deposits, b.entries[i].op, b.obs(i).balance), b.entries[i].op.paymaster.value)
  {
    hide FateOf, Consider;
  }

  lemma PassesIff(b: Build, i: nat, v: Validated)
    requires i < |b.entries|
    ensures Passes(b.r, b.At(i), b.entries[i].op, b.obs(i), v) <==> Includable(b, i, v)
  {
    var op, o := b.entries[i].op, b.obs(i);
    UsedUpIff(b, i, op.paymaster, o.paymasterStatus);
    UsedUpIff(b, i, op.factory, o.factoryStatus);
    SenderTakenIff(b, i);
    TouchesOthersIff(b, i, v.storageMap);
    GasWithinLimit(b, i);
    if Truthy(op.paymaster) { AvailableIs(b, i); }
    hide FateOf, Consider, UsedUp, SenderTaken, TouchesOthers, Available, Load, DepositOf;
  }

  /** An op bundled before the `i`-th entry has an authorization of the same signer for another address. */
  ghost predicate Conflicts(b: Build, i: nat)
    requires i < |b.entries|
  {
    b.entries[i].op.auth.Some? && exists j: nat :: j < i && b.Fate(j) == InBundle && AuthorizedApart(b, j, i)
  }

  predicate AuthorizedApart(b: Build, j: nat, i: nat)
    requires i < |b.entries| && j < |b.entries| && b.entries[i].op.auth.Some?
  {
    var a, c := b.entries[i].op.auth.value, b.entries[j].op.auth;
    c.Some? && b.r.signer(c.value) == b.r.signer(a) && Lower(c.value.address) != Lower(a.address)
  }

  lemma {:induction false} TuplesAreBundled(b: Build, n: nat, t: Authorization) returns (j: nat)
    requires n <= |b.entries| && t in b.At(n).tuples
    ensures j < n && b.Fate(j) == InBundle && b.entries[j].op.auth == Some(t)
  {
    TuplesStep(b.r, b.At(n - 1), b.entries[n - 1], b.obs(n - 1));
    if t in b.At(n - 1).tuples { j := TuplesAreBundled(b, n - 1, t); } else { j := n - 1; }
  }

  lemma MergeFailsIff(b: Build, i: nat)
    requires i < |b.entries|
    ensures MergeAuth(b.r, b.At(i).tuples, b.entries[i].op).None? <==> Conflicts(b, i)
  {
    TuplesDistinct(b, i);
    hide FateOf, Consider;
    var tuples := b.At(i).tuples;
    if b.entries[i].op.auth.Some? {
      var a := b.entries[i].op.auth.value;
      if MergeAuth(b.r, tuples, b.entries[i].op).None? {
        var j := TuplesAreBundled(b, i, SameSigner(b.r, tuples, a).value);
        assert AuthorizedApart(b, j, i);
      } else if j: nat :| j < i && b.Fate(j) == InBundle && AuthorizedApart(b, j, i) {
        AuthorizationsHonoured(b, i, j);
        var t :| t in tuples && Honours(b.r, t, b.entries[j].op.auth.value);
        OnlyTuple(b.r, tuples, a, t);
      }
    }
  }

  lemma OnlyTuple(r: Rules, tuples: seq<Authorization>, a: Authorization, t: Authorization)
    requires OneTuplePerSigner(r, tuples) && t in tuples && r.signer(t) == r.signer(a)
    ensures SameSigner(r, tuples, a) == Some(t)
  {
    var x := SameSigner(r, tuples, a);
    var j :| 0 <= j < |tuples| && tuples[j] == t;
    assert x.Some?;
    var k :| 0 <= k < |tuples| && tuples[k] == x.value;
    if j < k { assert r.signer(tuples[j]) != r.signer(tuples[k]); }
    if k < j { assert r.signer(tuples[k]) != r.signer(tuples[j]); }
  }

  /** The fate of every entry, exactly: marked when it fails its second validation or an entity of it is banned; else bundled
      or, on an authorization conflict, skipped, when it is includable; and else put back. */
  lemma FateIff(b: Build, i: nat)
    requires i < |b.entries|
    ensures var o := b.obs(i);
            var banned := o.paymasterStatus == BANNED || o.factoryStatus == BANNED;
            && (b.Fate(i) == Marked(FailedSecondValidation) <==> o.validation.None?)
            && (b.Fate(i) == Marked(BannedEntity) <==> o.validation.Some? && banned)
            && (b.Fate(i) == InBundle <==> o.validation.Some? && !banned && Includable(b, i, o.validation.value) && !Conflicts(b, i))
            && (b.Fate(i) == AuthConflict <==> o.validation.Some? && !banned && Includable(b, i, o.validation.value) && Conflicts(b, i))
            && (b.Fate(i) == NotIncluded <==> o.validation.Some? && !banned && !Includable(b, i, o.validation.value))
  {
    FateIs(b.r, b.At(i), b.entries[i], b.obs(i));
    MergeFailsIff(b, i);
    if b.obs(i).validation.Some? { PassesIff(b, i, b.obs(i).validation.value); }
    hide FateOf, Consider, Includable, Conflicts, Passes, MergeAuth;
  }
}
