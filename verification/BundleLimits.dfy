/** Limits of a bundle that the guards enforce only for some lists of entries: which lists, exactly. The guards key their
    counters and deposits by spelling; what is limited is the account behind it. */
module BundleLimits {
  import opened Common
  import opened Addresses
  import opened UserOps
  import opened Reputation
  import opened Mempool
  import opened BundleBuilder
  import opened BundleTheorems

  // ---------- builds that pick their entries ----------

  function GasOfAll(entries: seq<Entry>, n: nat): nat
    requires n <= |entries|
  {
    if n == 0 then 0 else GasOfAll(entries, n - 1) + entries[n - 1].op.callGasLimit
  }

  lemma {:induction false} GasGrows(entries: seq<Entry>, m: nat, n: nat)
    requires m <= n <= |entries|
    ensures GasOfAll(entries, m) <= GasOfAll(entries, n)
  {
    if m < n { GasGrows(entries, m, n - 1); }
  }

  /** The validation of an op that costs `cost`, needs no gas and touches no storage. */
  function Costing(cost: nat): Validated { Validated(0, cost, map[]) }

  /** A signer under which authorizations never conflict. */
  const BY_TARGET: Authorization -> string := (a: Authorization) => Lower(a.address)

  function StatusFor(x: Option<string>, a: string): Status { if Names(x, a) then THROTTLED else OK }

  /** Account `a` is throttled, nothing else is; re-validation passes the picked entries only, and each of them costs
      all that a paymaster has. */
  function Picking(entries: seq<Entry>, picked: nat -> bool, cost: nat, a: string, known: seq<string>): Build {
    Build(Rules(GasOfAll(entries, |entries|), known, BY_TARGET), entries,
      (i: nat) =>
        if i < |entries| then
          Observed(cost, StatusFor(entries[i].op.paymaster, a), StatusFor(entries[i].op.factory, a),
                   if picked(i) then Some(Costing(cost)) else None)
        else Observed(cost, OK, OK, None))
  }

  /** Nothing in the tally stands in the way of an op but its sender and the throttled account. */
  ghost predicate Open(t: Tally, gas: nat, cost: nat) {
    t.totalGas <= gas && forall p :: p in t.deposits ==> t.deposits[p] == 0 || t.deposits[p] == cost
  }

  lemma OpenStep(r: Rules, t: Tally, x: Entry, o: Observed, gas: nat, cost: nat)
    requires Open(t, gas, cost) && o.balance == cost && (o.validation.Some? ==> o.validation.value == Costing(cost))
    ensures Open(Consider(r, t, x, o), gas + x.op.callGasLimit, cost)
  {
  }

  /** A validated op is charged unless its sender is taken or a throttled entity of it is used up. */
  lemma PickedIsCharged(r: Rules, t: Tally, x: Entry, o: Observed, gas: nat, cost: nat)
    requires Open(t, gas, cost) && gas + x.op.callGasLimit <= r.maxBundleGas
    requires o.balance == cost && o.validation == Some(Costing(cost)) && o.paymasterStatus != BANNED && o.factoryStatus != BANNED
    requires !BundleBuilder.IsThrottled(x.op.paymaster, o.paymasterStatus, t.entityCount)
    requires !BundleBuilder.IsThrottled(x.op.factory, o.factoryStatus, t.entityCount) && x.op.sender !in t.senders
    ensures FateOf(r, t, x, o) == if MergeAuth(r, t.tuples, x.op).Some? then InBundle else AuthConflict
  {
    var u := WithDeposit(t, x.op, o);
    assert Excluded(r, u, x.op, o, Costing(cost)).None?;
  }

  lemma NeverConflicts(r: Rules, tuples: seq<Authorization>, op: UserOp)
    requires r.signer == BY_TARGET
    ensures MergeAuth(r, tuples, op).Some?
  {
  }

  lemma LeftOutIsMarked(r: Rules, t: Tally, x: Entry, o: Observed)
    requires o.validation.None?
    ensures FateOf(r, t, x, o) == Marked(FailedSecondValidation)
  {
  }

  lemma {:induction false} PickingIsOpen(entries: seq<Entry>, picked: nat -> bool, cost: nat, a: string, known: seq<string>, n: nat)
    requires n <= |entries|
    ensures Open(Picking(entries, picked, cost, a, known).At(n), GasOfAll(entries, n), cost)
  {
    var b := Picking(entries, picked, cost, a, known);
    if n > 0 {
      hide Consider, Open;
      PickingIsOpen(entries, picked, cost, a, known, n - 1);
      OpenStep(b.r, b.At(n - 1), entries[n - 1], b.obs(n - 1), GasOfAll(entries, n - 1), cost);
    } else {
      assert Open(START, 0, cost);
    }
  }

  predicate BelowCap(t: Tally, x: Option<string>) { x.Some? && CountOf(t.entityCount, x.value) < THROTTLED_ENTITY_BUNDLE_COUNT }

  /** The sender is new, and account `a` is not used up under the spellings of the op. */
  predicate HasRoom(t: Tally, op: UserOp, a: string) {
    && op.sender !in t.senders
    && (a != "" && Names(op.paymaster, a) ==> BelowCap(t, op.paymaster))
    && (a != "" && Names(op.factory, a) ==> BelowCap(t, op.factory))
  }

  /** In a picking build, a picked entry that has room is bundled. */
  lemma PickedAt(entries: seq<Entry>, picked: nat -> bool, cost: nat, a: string, known: seq<string>, i: nat)
    requires i < |entries| && picked(i) && HasRoom(Picking(entries, picked, cost, a, known).At(i), entries[i].op, a)
    ensures Fates(Picking(entries, picked, cost, a, known))(i) == InBundle
  {
    var b := Picking(entries, picked, cost, a, known);
    PickingIsOpen(entries, picked, cost, a, known, i);
    GasGrows(entries, i + 1, |entries|);
    NeverConflicts(b.r, b.At(i).tuples, entries[i].op);
    hide FateOf, Open, MergeAuth;
    PickedIsCharged(b.r, b.At(i), entries[i], b.obs(i), GasOfAll(entries, i), cost);
  }

  lemma LeftOutAt(entries: seq<Entry>, picked: nat -> bool, cost: nat, a: string, known: seq<string>, i: nat)
    requires i < |entries| && !picked(i)
    ensures Fates(Picking(entries, picked, cost, a, known))(i) == Marked(FailedSecondValidation)
  {
    var b := Picking(entries, picked, cost, a, known);
    LeftOutIsMarked(b.r, b.At(i), entries[i], b.obs(i));
  }

  /** Picked entries spell their senders differently. */
  ghost predicate PicksDiffer(entries: seq<Entry>, picked: nat -> bool) {
    forall i, j :: 0 <= i < j < |entries| && picked(i) && picked(j) ==> entries[i].op.sender != entries[j].op.sender
  }

  /** Of the first `n` entries the picked ones are bundled and the others marked. */
  ghost predicate FatesAsPicked(fate: nat -> Fate, picked: nat -> bool, n: nat) {
    forall j: nat :: j < n ==> fate(j) == if picked(j) then InBundle else Marked(FailedSecondValidation)
  }

  /** When only picked entries have been bundled so far, a sender that no picked entry has is new. */
  lemma SenderIsNew(b: Build, picked: nat -> bool, i: nat)
    requires i < |b.entries| && FatesAsPicked(Fates(b), picked, i)
    requires forall j :: 0 <= j < i && picked(j) ==> b.entries[j].op.sender != b.entries[i].op.sender
    ensures b.entries[i].op.sender !in b.At(i).senders
  {
    if b.entries[i].op.sender in b.At(i).senders {
      var j := SendersAreBundled(b, i, b.entries[i].op.sender);
    }
  }

  // ---------- the throttling cap ----------

  /** The op names account `a` (given in lower case) as paymaster or factory, in whatever spelling. */
  function Naming(a: string): UserOp -> bool { (op: UserOp) => Names(op.paymaster, a) || Names(op.factory, a) }

  /** The senders of those of the first `n` ops that satisfy `p`. */
  function SendersOf(entries: seq<Entry>, n: nat, p: UserOp -> bool): set<string>
    requires n <= |entries|
  {
    if n == 0 then {} else SendersOf(entries, n - 1, p) + if p(entries[n - 1].op) then {entries[n - 1].op.sender} else {}
  }

  /** Two ops that satisfy `p` and spell their senders differently, so that neither keeps the other out. */
  predicate Rivals(entries: seq<Entry>, p: UserOp -> bool, k: nat, m: nat) {
    k < m < |entries| && p(entries[k].op) && p(entries[m].op) && entries[k].op.sender != entries[m].op.sender
  }

  /** How many of the first `n` entries are bundled and satisfy `p`. */
  function BundledWith(entries: seq<Entry>, fate: nat -> Fate, n: nat, p: UserOp -> bool): nat
    requires n <= |entries|
  {
    if n == 0 then 0 else BundledWith(entries, fate, n - 1, p) + if fate(n - 1) == InBundle && p(entries[n - 1].op) then 1 else 0
  }

  /** Every entry that names account `a` sees it throttled in that role. */
  predicate ThrottledAccount(b: Build, n: nat, a: string)
    requires n <= |b.entries|
  {
    forall i :: 0 <= i < n ==>
      && (Names(b.entries[i].op.paymaster, a) ==> b.obs(i).paymasterStatus == THROTTLED)
      && (Names(b.entries[i].op.factory, a) ==> b.obs(i).factoryStatus == THROTTLED)
  }

  /** In every build over these entries in which account `a` is throttled throughout, at most four bundled ops name it. */
  ghost predicate AlwaysWithinCap(entries: seq<Entry>, known: seq<string>, a: string) {
    forall b: Build :: b.entries == entries && b.r.knownSenders == known && ThrottledAccount(b, |b.entries|, a) ==>
      BundledWith(b.entries, Fates(b), |b.entries|, Naming(a)) <= THROTTLED_ENTITY_BUNDLE_COUNT
  }

  /** Two rival uses of `a` that do not go together under spelling `s`: the earlier one is not counted under `s`, or the
      later one is not spelled `s`. */
  predicate Apart(entries: seq<Entry>, a: string, s: string, k: nat, m: nat) {
    Rivals(entries, Naming(a), k, m) && !(Counting(s)(entries[k].op) && Using(s)(entries[m].op))
  }

  /** Of any two rival uses of `a`, the earlier one is counted under spelling `s`, and the later one is spelled `s`. */
  ghost predicate CountedTogether(entries: seq<Entry>, a: string, s: string) {
    Lower(s) == a && forall k: nat, m: nat :: !Apart(entries, a, s, k, m)
  }

  lemma CommonGrows(s: set<string>, t: set<string>, s1: set<string>, t1: set<string>, x: string)
    requires s <= s1 && t <= t1
    ensures |s * t| <= |s1 * t1|
    ensures x in s1 && x in t1 && x !in t ==> |s * t| + 1 <= |s1 * t1|
  {
    SubsetSize(s * t, s1 * t1);
    if x in s1 && x in t1 && x !in t { SubsetSize(s * t + {x}, s1 * t1); }
  }

  /** Bundled ops have a sender each. */
  lemma {:induction false} OnePerSender(b: Build, n: nat, p: UserOp -> bool)
    requires n <= |b.entries|
    ensures BundledWith(b.entries, Fates(b), n, p) <= |SendersOf(b.entries, n, p) * b.At(n).senders|
  {
    hide FateOf, Consider;
    if n > 0 {
      OnePerSender(b, n - 1, p);
      SendersStep(b.r, b.At(n - 1), b.entries[n - 1], b.obs(n - 1));
      CommonGrows(SendersOf(b.entries, n - 1, p), b.At(n - 1).senders, SendersOf(b.entries, n, p), b.At(n).senders,
                  b.entries[n - 1].op.sender);
    }
  }

  lemma {:induction false} BundledAreCounted(entries: seq<Entry>, fate: nat -> Fate, n: nat, p: UserOp -> bool, q: UserOp -> bool)
    requires n <= |entries| && forall i: nat :: i < n && fate(i) == InBundle && p(entries[i].op) ==> q(entries[i].op)
    ensures BundledWith(entries, fate, n, p) <= ChargedWith(entries, fate, n, q)
  {
    if n > 0 { BundledAreCounted(entries, fate, n - 1, p, q); }
  }

  lemma {:induction false} NoneBundled(entries: seq<Entry>, fate: nat -> Fate, n: nat, p: UserOp -> bool)
    requires n <= |entries| && forall i: nat :: i < n ==> !(fate(i) == InBundle && p(entries[i].op))
    ensures BundledWith(entries, fate, n, p) == 0
  {
    if n > 0 { NoneBundled(entries, fate, n - 1, p); }
  }

  /** When the uses of `a` are counted together, a bundled use finds fewer than four before it. */
  lemma FewBefore(b: Build, a: string, s: string, i: nat)
    requires a != "" && ThrottledAccount(b, |b.entries|, a) && CountedTogether(b.entries, a, s)
    requires i < |b.entries| && Fates(b)(i) == InBundle && Naming(a)(b.entries[i].op)
    ensures BundledWith(b.entries, Fates(b), i, Naming(a)) < THROTTLED_ENTITY_BUNDLE_COUNT
  {
    hide FateOf, Consider;
    forall k: nat | k < i && Fates(b)(k) == InBundle && Naming(a)(b.entries[k].op)
      ensures Counting(s)(b.entries[k].op) && Using(s)(b.entries[i].op)
    {
      SendersDistinct(b, k, i);
      assert Rivals(b.entries, Naming(a), k, i) && !Apart(b.entries, a, s, k, i);
    }
    if Using(s)(b.entries[i].op) {
      BelowCapBefore(b, i, s);
      BundledAreCounted(b.entries, Fates(b), i, Naming(a), Counting(s));
    } else {
      NoneBundled(b.entries, Fates(b), i, Naming(a));
    }
  }

  lemma {:induction false} CappedTogether(b: Build, a: string, s: string, n: nat)
    requires a != "" && ThrottledAccount(b, |b.entries|, a) && CountedTogether(b.entries, a, s) && n <= |b.entries|
    ensures BundledWith(b.entries, Fates(b), n, Naming(a)) <= THROTTLED_ENTITY_BUNDLE_COUNT
  {
    hide FateOf, Consider, ThrottledAccount, CountedTogether;
    if n > 0 {
      CappedTogether(b, a, s, n - 1);
      if Fates(b)(n - 1) == InBundle && Naming(a)(b.entries[n - 1].op) { FewBefore(b, a, s, n - 1); }
    }
  }

  /** The cap holds. */
  lemma CapHolds(b: Build, a: string, s: string)
    requires a != "" && ThrottledAccount(b, |b.entries|, a)
    requires |SendersOf(b.entries, |b.entries|, Naming(a))| <= THROTTLED_ENTITY_BUNDLE_COUNT || CountedTogether(b.entries, a, s)
    ensures BundledWith(b.entries, Fates(b), |b.entries|, Naming(a)) <= THROTTLED_ENTITY_BUNDLE_COUNT
  {
    var n := |b.entries|;
    if CountedTogether(b.entries, a, s) {
      CappedTogether(b, a, s, n);
    } else {
      OnePerSender(b, n, Naming(a));
      SubsetSize(SendersOf(b.entries, n, Naming(a)) * b.At(n).senders, SendersOf(b.entries, n, Naming(a)));
    }
  }

  lemma CapAlwaysHolds(entries: seq<Entry>, known: seq<string>, a: string, s: string)
    requires a != ""
    requires |SendersOf(entries, |entries|, Naming(a))| <= THROTTLED_ENTITY_BUNDLE_COUNT || CountedTogether(entries, a, s)
    ensures AlwaysWithinCap(entries, known, a)
  {
    hide CountedTogether;
    forall b: Build | b.entries == entries && b.r.knownSenders == known && ThrottledAccount(b, |b.entries|, a)
      ensures BundledWith(b.entries, Fates(b), |b.entries|, Naming(a)) <= THROTTLED_ENTITY_BUNDLE_COUNT
    {
      CapHolds(b, a, s);
    }
  }

  // ---------- five uses that pass ----------

  /** How many of the first `n` indices are picked. */
  function PickCount(picked: nat -> bool, n: nat): nat {
    if n == 0 then 0 else PickCount(picked, n - 1) + if picked(n - 1) then 1 else 0
  }

  lemma {:induction false} PickCountGrows(picked: nat -> bool, i: nat, n: nat)
    requires i <= n
    ensures PickCount(picked, i) <= PickCount(picked, n)
  {
    if i < n { PickCountGrows(picked, i, n - 1); }
  }

  /** A picked index with another one behind it leaves at least two to come. */
  lemma TwoToCome(picked: nat -> bool, i: nat, j: nat, n: nat)
    requires i < j < n && picked(i) && picked(j)
    ensures PickCount(picked, i) + 2 <= PickCount(picked, n)
  {
    PickCountGrows(picked, i + 1, j);
    PickCountGrows(picked, j + 1, n);
  }

  /** How many of the first `n` entries are picked and counted under spelling `s`. */
  function CountedPicks(entries: seq<Entry>, picked: nat -> bool, s: string, n: nat): nat
    requires n <= |entries|
  {
    if n == 0 then 0
    else CountedPicks(entries, picked, s, n - 1) + if picked(n - 1) && Counting(s)(entries[n - 1].op) then 1 else 0
  }

  lemma {:induction false} CountedPicksAreFewer(entries: seq<Entry>, picked: nat -> bool, s: string, j: nat, n: nat)
    requires n <= |entries| && j < |entries| && picked(j) && !Counting(s)(entries[j].op)
    ensures CountedPicks(entries, picked, s, n) + (if j < n then 1 else 0) <= PickCount(picked, n)
  {
    if n > 0 { CountedPicksAreFewer(entries, picked, s, j, n - 1); }
  }

  ghost predicate Followed(picked: nat -> bool, j: nat, n: nat) { exists l: nat :: j < l < n && picked(l) }

  /** The pick `j` does not count under `s`, and is not the last pick or not spelled `s` at all. */
  ghost predicate Spoils(entries: seq<Entry>, picked: nat -> bool, s: string, j: nat) {
    && j < |entries| && picked(j) && !Counting(s)(entries[j].op)
    && (Using(s)(entries[j].op) ==> Followed(picked, j, |entries|))
  }

  /** No spelling of `a` counts all the picks that come before a pick so spelled. */
  ghost predicate Mixed(entries: seq<Entry>, picked: nat -> bool, a: string) {
    forall s :: Lower(s) == a ==> exists j: nat :: Spoils(entries, picked, s, j)
  }

  /** Of five mixed picks, none finds a counter of its own spellings at four. */
  lemma CounterStaysLow(entries: seq<Entry>, picked: nat -> bool, a: string, s: string, i: nat)
    requires PickCount(picked, |entries|) == 5 && Mixed(entries, picked, a) && Lower(s) == a
    requires i < |entries| && picked(i) && Using(s)(entries[i].op)
    ensures CountedPicks(entries, picked, s, i) < THROTTLED_ENTITY_BUNDLE_COUNT
  {
    var j: nat :| Spoils(entries, picked, s, j);
    CountedPicksAreFewer(entries, picked, s, j, i);
    PickCountGrows(picked, i + 1, |entries|);
    if i < j {
      TwoToCome(picked, i, j, |entries|);
    } else if i == j {
      var l: nat :| j < l < |entries| && picked(l);
      TwoToCome(picked, i, l, |entries|);
    }
  }

  lemma {:induction false} ChargesAsPicked(entries: seq<Entry>, fate: nat -> Fate, picked: nat -> bool, s: string, n: nat)
    requires n <= |entries| && FatesAsPicked(fate, picked, n)
    ensures ChargedWith(entries, fate, n, Counting(s)) == CountedPicks(entries, picked, s, n)
  {
    if n > 0 { ChargesAsPicked(entries, fate, picked, s, n - 1); }
  }

  lemma CounterAsPicked(b: Build, picked: nat -> bool, s: string, i: nat)
    requires i <= |b.entries| && s != "" && FatesAsPicked(Fates(b), picked, i)
    ensures CountOf(b.At(i).entityCount, s) == CountedPicks(b.entries, picked, s, i)
  {
    CounterIsCountedUses(b, i, s);
    ChargesAsPicked(b.entries, Fates(b), picked, s, i);
  }

  /** A spelling of the `i`-th entry is below the cap when five mixed picks have been bundled as picked so far. */
  lemma RoleIsBelowCap(b: Build, picked: nat -> bool, a: string, x: Option<string>, i: nat)
    requires i < |b.entries| && picked(i) && a != "" && FatesAsPicked(Fates(b), picked, i)
    requires PickCount(picked, |b.entries|) == 5 && Mixed(b.entries, picked, a)
    requires Names(x, a) && (x == b.entries[i].op.paymaster || x == b.entries[i].op.factory)
    ensures BelowCap(b.At(i), x)
  {
    CounterAsPicked(b, picked, x.value, i);
    CounterStaysLow(b.entries, picked, a, x.value, i);
  }

  lemma MixedHasRoom(b: Build, picked: nat -> bool, a: string, i: nat)
    requires a != "" && PicksDiffer(b.entries, picked) && PickCount(picked, |b.entries|) == 5 && Mixed(b.entries, picked, a)
    requires i < |b.entries| && picked(i) && FatesAsPicked(Fates(b), picked, i)
    ensures HasRoom(b.At(i), b.entries[i].op, a)
  {
    hide Mixed, FatesAsPicked, BelowCap;
    SenderIsNew(b, picked, i);
    if Names(b.entries[i].op.paymaster, a) { RoleIsBelowCap(b, picked, a, b.entries[i].op.paymaster, i); }
    if Names(b.entries[i].op.factory, a) { RoleIsBelowCap(b, picked, a, b.entries[i].op.factory, i); }
  }

  lemma MixedAt(entries: seq<Entry>, picked: nat -> bool, a: string, known: seq<string>, i: nat)
    requires a != "" && PicksDiffer(entries, picked) && PickCount(picked, |entries|) == 5 && Mixed(entries, picked, a)
    requires i < |entries| && FatesAsPicked(Fates(Picking(entries, picked, 0, a, known)), picked, i)
    ensures FatesAsPicked(Fates(Picking(entries, picked, 0, a, known)), picked, i + 1)
  {
    var b := Picking(entries, picked, 0, a, known);
    if picked(i) {
      MixedHasRoom(b, picked, a, i);
      PickedAt(entries, picked, 0, a, known, i);
    } else {
      LeftOutAt(entries, picked, 0, a, known, i);
    }
  }

  lemma {:induction false} MixedRun(entries: seq<Entry>, picked: nat -> bool, a: string, known: seq<string>, n: nat)
    requires a != "" && PicksDiffer(entries, picked) && PickCount(picked, |entries|) == 5 && Mixed(entries, picked, a)
    requires n <= |entries|
    ensures FatesAsPicked(Fates(Picking(entries, picked, 0, a, known)), picked, n)
  {
    if n > 0 {
      hide Picking;
      MixedRun(entries, picked, a, known, n - 1);
      MixedAt(entries, picked, a, known, n - 1);
    }
  }

  lemma {:induction false} BundledAsPicked(entries: seq<Entry>, fate: nat -> Fate, picked: nat -> bool, p: UserOp -> bool, n: nat)
    requires n <= |entries| && FatesAsPicked(fate, picked, n)
    requires forall i: nat :: i < n && picked(i) ==> p(entries[i].op)
    ensures BundledWith(entries, fate, n, p) == PickCount(picked, n)
  {
    if n > 0 { BundledAsPicked(entries, fate, picked, p, n - 1); }
  }

  lemma PickingThrottles(entries: seq<Entry>, picked: nat -> bool, cost: nat, a: string, known: seq<string>)
    ensures var b := Picking(entries, picked, cost, a, known);
            b.entries == entries && b.r.knownSenders == known && ThrottledAccount(b, |b.entries|, a)
  {
    var b := Picking(entries, picked, cost, a, known);
    forall i: nat | i < |entries|
      ensures Names(entries[i].op.paymaster, a) ==> b.obs(i).paymasterStatus == THROTTLED
      ensures Names(entries[i].op.factory, a) ==> b.obs(i).factoryStatus == THROTTLED
    {
      assert b.obs(i).paymasterStatus == StatusFor(entries[i].op.paymaster, a);
      assert b.obs(i).factoryStatus == StatusFor(entries[i].op.factory, a);
    }
  }

  /** Five mixed picks are all bundled. */
  lemma MixedBreaksCap(entries: seq<Entry>, picked: nat -> bool, a: string, known: seq<string>)
    requires a != "" && PicksDiffer(entries, picked) && PickCount(picked, |entries|) == 5 && Mixed(entries, picked, a)
    requires forall i: nat :: i < |entries| && picked(i) ==> Naming(a)(entries[i].op)
    ensures !AlwaysWithinCap(entries, known, a)
  {
    var b := Picking(entries, picked, 0, a, known);
    PickingThrottles(entries, picked, 0, a, known);
    MixedRun(entries, picked, a, known, |entries|);
    BundledAsPicked(entries, Fates(b), picked, Naming(a), |entries|);
    assert b.entries == entries && b.r.knownSenders == known && ThrottledAccount(b, |b.entries|, a);
  }

  // ---------- which five ----------

  lemma {:induction false} SenderIsOne(entries: seq<Entry>, n: nat, p: UserOp -> bool, k: nat)
    requires k < n <= |entries| && p(entries[k].op)
    ensures entries[k].op.sender in SendersOf(entries, n, p)
  {
    if k < n - 1 { SenderIsOne(entries, n - 1, p, k); }
  }

  /** The first use by a sender that is not in `taken`. */
  predicate IsThird(entries: seq<Entry>, p: UserOp -> bool, taken: set<string>, i: nat) {
    i < |entries| && p(entries[i].op) && entries[i].op.sender !in taken && entries[i].op.sender !in SendersOf(entries, i, p)
  }

  function Thirds(entries: seq<Entry>, p: UserOp -> bool, taken: set<string>, n: nat): nat
    requires n <= |entries|
  {
    if n == 0 then 0 else Thirds(entries, p, taken, n - 1) + if IsThird(entries, p, taken, n - 1) then 1 else 0
  }

  lemma OneMore(s: set<string>, taken: set<string>, x: string)
    ensures |s + {x} - taken| == |s - taken| + if x in s || x in taken then 0 else 1
  {
    assert s + {x} - taken == if x in s || x in taken then s - taken else (s - taken) + {x};
  }

  lemma {:induction false} ThirdsAreTheRest(entries: seq<Entry>, p: UserOp -> bool, taken: set<string>, n: nat)
    requires n <= |entries|
    ensures Thirds(entries, p, taken, n) == |SendersOf(entries, n, p) - taken|
  {
    if n > 0 {
      ThirdsAreTheRest(entries, p, taken, n - 1);
      OneMore(SendersOf(entries, n - 1, p), taken, entries[n - 1].op.sender);
    }
  }

  lemma {:induction false} ThirdAt(entries: seq<Entry>, p: UserOp -> bool, taken: set<string>, n: nat, c: nat) returns (i: nat)
    requires n <= |entries| && Thirds(entries, p, taken, n) > c
    ensures i < n && IsThird(entries, p, taken, i) && Thirds(entries, p, taken, i) == c
  {
    if Thirds(entries, p, taken, n - 1) > c { i := ThirdAt(entries, p, taken, n - 1, c); } else { i := n - 1; }
  }

  /** The senders of two ops. */
  function Both(entries: seq<Entry>, k: nat, m: nat): set<string>
    requires k < |entries| && m < |entries|
  {
    {entries[k].op.sender, entries[m].op.sender}
  }

  /** Two rivals, and the first three uses by third senders. */
  function FiveUses(entries: seq<Entry>, p: UserOp -> bool, k: nat, m: nat): nat -> bool
    requires k < |entries| && m < |entries|
  {
    (i: nat) =>
      i == k || i == m || (IsThird(entries, p, Both(entries, k, m), i) && Thirds(entries, p, Both(entries, k, m), i) < 3)
  }

  function PickedSoFar(thirds: nat, n: nat, k: nat, m: nat): nat {
    (if k < n then 1 else 0) + (if m < n then 1 else 0) + if thirds < 3 then thirds else 3
  }

  lemma {:induction false} PicksOfFive(entries: seq<Entry>, p: UserOp -> bool, k: nat, m: nat, n: nat)
    requires n <= |entries| && Rivals(entries, p, k, m)
    ensures PickCount(FiveUses(entries, p, k, m), n) == PickedSoFar(Thirds(entries, p, Both(entries, k, m), n), n, k, m)
  {
    if n > 0 { PicksOfFive(entries, p, k, m, n - 1); }
  }

  lemma ThirdsDiffer(entries: seq<Entry>, p: UserOp -> bool, taken: set<string>, i: nat, j: nat)
    requires i < j && IsThird(entries, p, taken, i) && IsThird(entries, p, taken, j)
    ensures entries[i].op.sender != entries[j].op.sender
  {
    SenderIsOne(entries, j, p, i);
  }

  /** Five picks of different senders. */
  lemma FiveInAll(entries: seq<Entry>, p: UserOp -> bool, k: nat, m: nat)
    requires Rivals(entries, p, k, m) && |SendersOf(entries, |entries|, p)| > 4
    ensures Thirds(entries, p, Both(entries, k, m), |entries|) >= 3
    ensures PickCount(FiveUses(entries, p, k, m), |entries|) == 5 && PicksDiffer(entries, FiveUses(entries, p, k, m))
  {
    var all, taken := SendersOf(entries, |entries|, p), Both(entries, k, m);
    SenderIsOne(entries, |entries|, p, k);
    SenderIsOne(entries, |entries|, p, m);
    assert |all| == |all - taken| + |taken| by { assert all == (all - taken) + taken; }
    ThirdsAreTheRest(entries, p, taken, |entries|);
    PicksOfFive(entries, p, k, m, |entries|);
    forall i, j | 0 <= i < j < |entries| && FiveUses(entries, p, k, m)(i) && FiveUses(entries, p, k, m)(j)
      ensures entries[i].op.sender != entries[j].op.sender
    {
      if IsThird(entries, p, taken, i) && IsThird(entries, p, taken, j) { ThirdsDiffer(entries, p, taken, i, j); }
    }
  }

  lemma {:induction false} FirstOf(entries: seq<Entry>, n: nat, p: UserOp -> bool) returns (f: nat)
    requires n <= |entries| && SendersOf(entries, n, p) != {}
    ensures f < n && p(entries[f].op) && SendersOf(entries, f, p) == {}
  {
    if SendersOf(entries, n - 1, p) != {} { f := FirstOf(entries, n - 1, p); } else { f := n - 1; }
  }

  /** No use comes before the first one, and the first one is always among the five unless its sender has another use there. */
  lemma FirstIsPicked(entries: seq<Entry>, p: UserOp -> bool, k: nat, m: nat, f: nat)
    requires Rivals(entries, p, k, m) && f < |entries| && p(entries[f].op) && SendersOf(entries, f, p) == {}
    ensures f <= k
    ensures f == k || entries[f].op.sender !in Both(entries, k, m) ==> FiveUses(entries, p, k, m)(f)
    ensures Followed(FiveUses(entries, p, k, m), f, |entries|)
  {
    if k < f { SenderIsOne(entries, f, p, k); }
    ThirdsAreTheRest(entries, p, Both(entries, k, m), f);
    assert FiveUses(entries, p, k, m)(m);
  }

  /** An op counts under one spelling only. */
  lemma OneSpellingCounts(op: UserOp, s: string, r: string)
    requires s != "" && r != "" && Counting(s)(op) && Counting(r)(op)
    ensures s == r
  {
  }

  lemma ApartSpoils(entries: seq<Entry>, a: string, r: string, k: nat, m: nat) returns (j: nat)
    requires Lower(r) == a && Apart(entries, a, r, k, m)
    ensures Spoils(entries, FiveUses(entries, Naming(a), k, m), r, j)
  {
    var picked := FiveUses(entries, Naming(a), k, m);
    assert picked(k) && picked(m) && Followed(picked, k, |entries|);
    j := if Counting(r)(entries[k].op) then m else k;
  }

  /** Picks are mixed when the first use is among them and something spoils the spelling under which it counts. */
  lemma FirstMixes(entries: seq<Entry>, picked: nat -> bool, a: string, f: nat)
    requires a != "" && f < |entries| && picked(f) && Followed(picked, f, |entries|)
    requires forall r :: Lower(r) == a && Counting(r)(entries[f].op) ==> exists j: nat :: Spoils(entries, picked, r, j)
    ensures Mixed(entries, picked, a)
  {
    forall s | Lower(s) == a ensures exists j: nat :: Spoils(entries, picked, s, j) {
      if !Counting(s)(entries[f].op) { assert Spoils(entries, picked, s, f); }
    }
  }

  /** When the rivals `k` and `m` are apart under `r`, and yet the five around them are not mixed, the third senders count
      under another spelling, and that spoils `r` for any five with the same third senders. */
  lemma ThirdSpoils(entries: seq<Entry>, a: string, r: string, k: nat, m: nat, f: nat, w: nat) returns (z: nat)
    requires a != "" && Lower(r) == a && Apart(entries, a, r, k, m) && |SendersOf(entries, |entries|, Naming(a))| > 4
    requires !Mixed(entries, FiveUses(entries, Naming(a), k, m), a)
    requires f < |entries| && w < |entries| && Both(entries, f, w) == Both(entries, k, m)
    ensures Spoils(entries, FiveUses(entries, Naming(a), f, w), r, z)
  {
    var p, picked, taken := Naming(a), FiveUses(entries, Naming(a), k, m), Both(entries, k, m);
    FiveInAll(entries, p, k, m);
    var y := ThirdAt(entries, p, taken, |entries|, 1);
    z := ThirdAt(entries, p, taken, y, 0);
    assert picked(y) && picked(z) && FiveUses(entries, p, f, w)(y) && FiveUses(entries, p, f, w)(z);
    var s :| Lower(s) == a && forall j: nat :: !Spoils(entries, picked, s, j);
    var j := ApartSpoils(entries, a, r, k, m);
    assert !Spoils(entries, picked, s, z) && Followed(picked, z, |entries|);
    if Counting(r)(entries[z].op) { OneSpellingCounts(entries[z].op, s, r); }
    assert Followed(FiveUses(entries, p, f, w), z, |entries|);
  }

  /** When the rivals `k` and `m` are apart under the spelling `r` of the first use, the five around them are mixed, or
      those around the first use and the one of the two that is its rival. */
  lemma ApartMixes(entries: seq<Entry>, a: string, r: string, f: nat, k: nat, m: nat) returns (i: nat, j: nat)
    requires a != "" && Lower(r) == a && Apart(entries, a, r, k, m) && |SendersOf(entries, |entries|, Naming(a))| > 4
    requires f < |entries| && Counting(r)(entries[f].op) && Naming(a)(entries[f].op) && SendersOf(entries, f, Naming(a)) == {}
    ensures Rivals(entries, Naming(a), i, j) && Mixed(entries, FiveUses(entries, Naming(a), i, j), a)
  {
    hide Mixed, SendersOf, FiveUses, Spoils, Followed;
    i, j := k, m;
    FirstIsPicked(entries, Naming(a), k, m, f);
    if f == k || entries[f].op.sender !in Both(entries, k, m) {
      var spoiler := ApartSpoils(entries, a, r, k, m);
      OnlySpelling(entries, FiveUses(entries, Naming(a), k, m), a, r, f, spoiler);
    } else if !Mixed(entries, FiveUses(entries, Naming(a), k, m), a) {
      i, j := f, if entries[f].op.sender == entries[k].op.sender then m else k;
      assert Both(entries, i, j) == Both(entries, k, m);
      FirstIsPicked(entries, Naming(a), i, j, f);
      var spoiler := ThirdSpoils(entries, a, r, k, m, i, j);
      OnlySpelling(entries, FiveUses(entries, Naming(a), i, j), a, r, f, spoiler);
    }
  }

  lemma OnlySpelling(entries: seq<Entry>, picked: nat -> bool, a: string, r: string, f: nat, spoiler: nat)
    requires a != "" && f < |entries| && picked(f) && Followed(picked, f, |entries|)
    requires Lower(r) == a && Counting(r)(entries[f].op) && Spoils(entries, picked, r, spoiler)
    ensures Mixed(entries, picked, a)
  {
    forall s | Lower(s) == a && Counting(s)(entries[f].op) ensures exists j: nat :: Spoils(entries, picked, s, j) {
      OneSpellingCounts(entries[f].op, s, r);
    }
    FirstMixes(entries, picked, a, f);
  }

  lemma FiveMixed(entries: seq<Entry>, a: string) returns (k: nat, m: nat)
    requires a != "" && |SendersOf(entries, |entries|, Naming(a))| > THROTTLED_ENTITY_BUNDLE_COUNT
    requires forall s :: !CountedTogether(entries, a, s)
    ensures Rivals(entries, Naming(a), k, m) && Mixed(entries, FiveUses(entries, Naming(a), k, m), a)
  {
    var f := FirstOf(entries, |entries|, Naming(a));
    var op := entries[f].op;
    var r := if Names(op.factory, a) then op.factory.value else op.paymaster.value;
    assert !CountedTogether(entries, a, r);
    k, m :| Apart(entries, a, r, k, m);
    if Counting(r)(op) {
      k, m := ApartMixes(entries, a, r, f, k, m);
    } else {
      FirstIsPicked(entries, Naming(a), k, m, f);
      k, m := f, if op.sender == entries[k].op.sender then m else k;
      FirstIsPicked(entries, Naming(a), k, m, f);
      FirstMixes(entries, FiveUses(entries, Naming(a), k, m), a, f);
    }
  }

  /** GREP-020, exactly and per account: whatever else is observed, at most four bundled ops name a throttled account if
      and only if at most four senders name it, or there is one spelling under which the earlier of any two rival uses is
      counted and which the later one shares. */
  lemma CapIff(entries: seq<Entry>, known: seq<string>, a: string)
    requires a != ""
    ensures AlwaysWithinCap(entries, known, a) <==>
            || |SendersOf(entries, |entries|, Naming(a))| <= THROTTLED_ENTITY_BUNDLE_COUNT
            || exists s :: CountedTogether(entries, a, s)
  {
    if |SendersOf(entries, |entries|, Naming(a))| <= THROTTLED_ENTITY_BUNDLE_COUNT {
      CapAlwaysHolds(entries, known, a, a);
    } else if s :| CountedTogether(entries, a, s) {
      CapAlwaysHolds(entries, known, a, s);
    } else {
      var k, m := FiveMixed(entries, a);
      FiveInAll(entries, Naming(a), k, m);
      MixedBreaksCap(entries, FiveUses(entries, Naming(a), k, m), a, known);
    }
  }

  // ---------- pairs ----------

  function Pair(i: nat, j: nat): nat -> bool { (n: nat) => n == i || n == j }

  /** Two picked entries of different senders are both bundled, whatever they cost. */
  lemma PairAt(entries: seq<Entry>, i: nat, j: nat, cost: nat, known: seq<string>, n: nat)
    requires i < j < |entries| && n < |entries| && entries[i].op.sender != entries[j].op.sender
    requires FatesAsPicked(Fates(Picking(entries, Pair(i, j), cost, "", known)), Pair(i, j), n)
    ensures FatesAsPicked(Fates(Picking(entries, Pair(i, j), cost, "", known)), Pair(i, j), n + 1)
  {
    var b := Picking(entries, Pair(i, j), cost, "", known);
    if Pair(i, j)(n) {
      SenderIsNew(b, Pair(i, j), n);
      PickedAt(entries, Pair(i, j), cost, "", known, n);
    } else {
      LeftOutAt(entries, Pair(i, j), cost, "", known, n);
    }
  }

  lemma {:induction false} PairRun(entries: seq<Entry>, i: nat, j: nat, cost: nat, known: seq<string>, n: nat)
    requires i < j < |entries| && n <= |entries| && entries[i].op.sender != entries[j].op.sender
    ensures FatesAsPicked(Fates(Picking(entries, Pair(i, j), cost, "", known)), Pair(i, j), n)
  {
    if n > 0 {
      hide Picking;
      PairRun(entries, i, j, cost, known, n - 1);
      PairAt(entries, i, j, cost, known, n - 1);
    }
  }

  // ---------- one op per account ----------

  /** No account is bundled twice. */
  ghost predicate AccountsDiffer(b: Build) {
    forall i, j :: 0 <= i < j < |b.entries| && Fates(b)(i) == InBundle && Fates(b)(j) == InBundle ==>
      Lower(b.entries[i].op.sender) != Lower(b.entries[j].op.sender)
  }

  /** Every account is spelled in one way. */
  ghost predicate OneSpelling(entries: seq<Entry>) {
    forall i, j :: 0 <= i < j < |entries| && Lower(entries[i].op.sender) == Lower(entries[j].op.sender) ==>
      entries[i].op.sender == entries[j].op.sender
  }

  /** No build over these entries bundles an account twice if and only if they spell every account in one way. */
  lemma AccountsDifferIff(entries: seq<Entry>, known: seq<string>)
    ensures (forall b: Build :: b.entries == entries && b.r.knownSenders == known ==> AccountsDiffer(b)) <==> OneSpelling(entries)
  {
    hide FateOf, Consider;
    if OneSpelling(entries) {
      forall b: Build | b.entries == entries && b.r.knownSenders == known ensures AccountsDiffer(b) {
        forall i, j | 0 <= i < j < |b.entries| && Fates(b)(i) == InBundle && Fates(b)(j) == InBundle
          ensures Lower(b.entries[i].op.sender) != Lower(b.entries[j].op.sender)
        {
          SendersDistinct(b, i, j);
        }
      }
    } else {
      var i: nat, j: nat :| i < j < |entries| && Lower(entries[i].op.sender) == Lower(entries[j].op.sender)
                            && entries[i].op.sender != entries[j].op.sender;
      var b := Picking(entries, Pair(i, j), 0, "", known);
      PairRun(entries, i, j, 0, known, |entries|);
      assert Fates(b)(i) == InBundle && Fates(b)(j) == InBundle;
      assert b.entries == entries && b.r.knownSenders == known && !AccountsDiffer(b);
    }
  }

  // ---------- the balance of an account ----------

  /** The op names account `a` as its paymaster. */
  function PaidBy(a: string): UserOp -> bool { (op: UserOp) => Names(op.paymaster, a) }

  /** The prefunds of all bundled ops that account `a` pays for, over all its spellings. */
  function BundledForAccount(b: Build, n: nat, a: string): nat
    requires n <= |b.entries|
  {
    if n == 0 then 0
    else
      BundledForAccount(b, n - 1, a)
      + if b.Fate(n - 1) == InBundle && PaidBy(a)(b.entries[n - 1].op) then b.obs(n - 1).validation.value.prefund else 0
  }

  /** The balance of account `a` does not change while the bundle is built. */
  predicate SteadyAccount(b: Build, n: nat, a: string, balance: nat)
    requires n <= |b.entries|
  {
    forall i :: 0 <= i < n && PaidBy(a)(b.entries[i].op) ==> b.obs(i).balance == balance
  }

  /** In every build over these entries with a steady balance, the balance covers the bundled ops of the account. */
  ghost predicate AlwaysCovered(entries: seq<Entry>, known: seq<string>, a: string, balance: nat) {
    forall b: Build :: b.entries == entries && b.r.knownSenders == known && SteadyAccount(b, |b.entries|, a, balance) ==>
      BundledForAccount(b, |b.entries|, a) <= balance
  }

  lemma PrefundIsCovered(r: Rules, t: Tally, x: Entry, o: Observed)
    requires FateOf(r, t, x, o) == InBundle && Truthy(x.op.paymaster) && DepositOf(t.deposits, x.op.paymaster.value) <= o.balance
    ensures o.validation.Some? && o.validation.value.prefund <= o.balance
  {
  }

  /** One bundled op of `a` costs no more than the balance. */
  lemma OneIsCovered(b: Build, a: string, balance: nat, i: nat)
    requires a != "" && i < |b.entries| && SteadyAccount(b, |b.entries|, a, balance)
    requires b.Fate(i) == InBundle && PaidBy(a)(b.entries[i].op)
    ensures b.obs(i).validation.Some? && b.obs(i).validation.value.prefund <= balance
  {
    hide FateOf, Consider;
    RemainderBounded(b, i, b.entries[i].op.paymaster.value, balance);
    PrefundIsCovered(b.r, b.At(i), b.entries[i], b.obs(i));
  }

  /** Of two ops that are no rivals, one is not bundled. */
  lemma KeptOut(b: Build, p: UserOp -> bool, i: nat, j: nat)
    requires i < j < |b.entries| && p(b.entries[i].op) && p(b.entries[j].op) && !Rivals(b.entries, p, i, j)
    requires b.Fate(j) == InBundle
    ensures b.Fate(i) != InBundle
  {
    hide FateOf, Consider;
    if b.Fate(i) == InBundle { SendersDistinct(b, i, j); }
  }

  /** Without rivals, at most one of the ops of `a` is bundled. */
  lemma {:induction false} WithoutRivals(b: Build, a: string, balance: nat, n: nat)
    requires a != "" && n <= |b.entries| && SteadyAccount(b, |b.entries|, a, balance)
    requires forall i: nat, j: nat :: !Rivals(b.entries, PaidBy(a), i, j)
    ensures BundledForAccount(b, n, a) <= balance
    ensures BundledForAccount(b, n, a) > 0 ==> exists j: nat :: j < n && Fates(b)(j) == InBundle && PaidBy(a)(b.entries[j].op)
  {
    hide FateOf, Consider;
    if n > 0 {
      WithoutRivals(b, a, balance, n - 1);
      if Fates(b)(n - 1) == InBundle && PaidBy(a)(b.entries[n - 1].op) {
        OneIsCovered(b, a, balance, n - 1);
        forall j: nat | j < n - 1 && PaidBy(a)(b.entries[j].op) ensures Fates(b)(j) != InBundle { KeptOut(b, PaidBy(a), j, n - 1); }
      }
    }
  }

  /** What the pair of ops that cost the whole balance adds up to. */
  lemma {:induction false} PairCosts(b: Build, a: string, i: nat, j: nat, cost: nat, known: seq<string>, n: nat)
    requires i < j < |b.entries| && n <= |b.entries| && b == Picking(b.entries, Pair(i, j), cost, "", known)
    requires PaidBy(a)(b.entries[i].op) && PaidBy(a)(b.entries[j].op) && FatesAsPicked(Fates(b), Pair(i, j), |b.entries|)
    ensures BundledForAccount(b, n, a) == (if i < n then cost else 0) + if j < n then cost else 0
  {
    hide FateOf, Consider;
    if n > 0 {
      PairCosts(b, a, i, j, cost, known, n - 1);
      assert Fates(b)(n - 1) == b.Fate(n - 1);
      if Pair(i, j)(n - 1) { assert b.obs(n - 1).validation == Some(Costing(cost)); }
    }
  }

  lemma PickingIsSteady(entries: seq<Entry>, picked: nat -> bool, cost: nat, known: seq<string>, a: string)
    ensures var b := Picking(entries, picked, cost, "", known);
            b.entries == entries && b.r.knownSenders == known && SteadyAccount(b, |b.entries|, a, cost)
  {
    var b := Picking(entries, picked, cost, "", known);
    forall i: nat | i < |entries| ensures b.obs(i).balance == cost {
    }
  }

  lemma PairOverspends(entries: seq<Entry>, known: seq<string>, a: string, balance: nat, i: nat, j: nat)
    requires Rivals(entries, PaidBy(a), i, j) && balance > 0
    ensures !AlwaysCovered(entries, known, a, balance)
  {
    var b := Picking(entries, Pair(i, j), balance, "", known);
    PickingIsSteady(entries, Pair(i, j), balance, known, a);
    PairRun(entries, i, j, balance, known, |entries|);
    PairCosts(b, a, i, j, balance, known, |entries|);
    assert b.entries == entries && b.r.knownSenders == known && SteadyAccount(b, |b.entries|, a, balance);
  }

  /** Without a balance nothing is spent. */
  lemma {:induction false} NothingToSpend(b: Build, a: string, n: nat)
    requires a != "" && n <= |b.entries| && SteadyAccount(b, |b.entries|, a, 0)
    ensures BundledForAccount(b, n, a) == 0
  {
    hide FateOf, Consider;
    if n > 0 {
      NothingToSpend(b, a, n - 1);
      if Fates(b)(n - 1) == InBundle && PaidBy(a)(b.entries[n - 1].op) { OneIsCovered(b, a, 0, n - 1); }
    }
  }

  /** Whatever else is observed, a steady balance covers the bundled ops of an account if and only if it is zero, or no two
      entries of different senders name the account as paymaster: the second op finds the deposit reloaded at zero, or
      loaded again under another spelling. */
  lemma CoveredIff(entries: seq<Entry>, known: seq<string>, a: string, balance: nat)
    requires a != ""
    ensures AlwaysCovered(entries, known, a, balance) <==> balance == 0 || forall i: nat, j: nat :: !Rivals(entries, PaidBy(a), i, j)
  {
    if balance > 0 && exists i: nat, j: nat :: Rivals(entries, PaidBy(a), i, j) {
      var i: nat, j: nat :| Rivals(entries, PaidBy(a), i, j);
      PairOverspends(entries, known, a, balance, i, j);
    } else {
      forall b: Build | b.entries == entries && b.r.knownSenders == known && SteadyAccount(b, |b.entries|, a, balance)
        ensures BundledForAccount(b, |b.entries|, a) <= balance
      {
        if balance == 0 { NothingToSpend(b, a, |b.entries|); } else { WithoutRivals(b, a, balance, |b.entries|); }
      }
    }
  }
}
