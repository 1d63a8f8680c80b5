/** The reputation manager, the mempool manager and the processor's hook as objects that update shared state. */
module Managers {
  import opened Common
  import opened Addresses
  import opened UserOps
  import opened OrderedRecord
  import opened Reputation
  import opened Mempool
  import opened MempoolInvariants
  import opened MempoolRuns

  class ReputationManager {
    const limits: Limits
    var entries: map<string, RepEntry>
    var whiteList: seq<string>
    var blackList: seq<string>

    constructor (limits: Limits)
      ensures this.limits == limits && View() == Book(map[], [], [])
    {
      this.limits := limits;
      entries, whiteList, blackList := map[], [], [];
    }

    function View(): Book
      reads this
    {
      Book(entries, whiteList, blackList)
    }

    method UpdateSeenStatus(addr: Option<string>, up: bool)
      modifies this
      ensures View() == Apply(old(View()), Seen(addr, up))
    {
      if addr.None? || addr.value == "" { return; }
      var a := Lower(addr.value);
      var e := if a in entries then entries[a] else RepEntry(0, 0);
      var val := if up then 1 else -1;
      entries := entries[a := RepEntry(Max0(e.opsSeen + val), e.opsIncluded)];
    }

    method UpdateIncludedStatus(addr: string)
      modifies this
      ensures View() == Apply(old(View()), Included(addr))
    {
      var a := Lower(addr);
      var e := if a in entries then entries[a] else RepEntry(0, 0);
      entries := entries[a := RepEntry(e.opsSeen, e.opsIncluded + 1)];
    }

    method CrashedHandleOps(addr: string)
      modifies this
      ensures View() == Apply(old(View()), Crashed(addr))
    {
      var a := Lower(addr);
      var seen := if a in entries then entries[a].opsSeen + 10000 else 10000;
      entries := entries[a := RepEntry(seen, 0)];
    }

    method AddWhitelistItems(items: seq<string>)
      modifies this
      ensures View() == Apply(old(View()), AddWhitelist(items))
    {
      if |items| == 0 {
        assert whiteList + items == whiteList;
        return;
      }
      whiteList := whiteList + items;
    }

    method AddBlacklistItems(items: seq<string>)
      modifies this
      ensures View() == Apply(old(View()), AddBlacklist(items))
    {
      if |items| == 0 {
        assert blackList + items == blackList;
        return;
      }
      blackList := blackList + items;
    }

    method SetReputations(reputations: seq<(string, RepEntry)>)
      modifies this
      ensures View() == Apply(old(View()), SetReputation(reputations))
    {
      for i := 0 to |reputations|
        invariant whiteList == old(whiteList) && blackList == old(blackList)
        invariant entries == Overwrite(old(entries), reputations[..i])
      {
        assert reputations[..i + 1][..i] == reputations[..i];
        entries := entries[Lower(reputations[i].0) := reputations[i].1];
      }
      assert reputations[..|reputations|] == reputations;
    }

    method ClearState()
      modifies this
      ensures View() == Apply(old(View()), ClearReputation)
    {
      entries := map[];
    }

    /** The helper `updateSeenStatus` of the mempool. */
    method UpdateSeenStatuses(aggregator: Option<string>, op: UserOp, sender: StakeInfo, up: bool)
      modifies this
      ensures View() == ApplyAll(old(View()), SeenEvents(old(View()), limits, aggregator, op, sender, up))
    {
      ghost var b := View();
      ghost var staked := CheckStake(b, limits, Account, sender).None?;
      if CheckStake(View(), limits, Account, sender).None? {
        UpdateSeenStatus(Some(op.sender), true);
      }
      UpdateSeenStatus(aggregator, up);
      UpdateSeenStatus(op.paymaster, up);
      UpdateSeenStatus(op.factory, up);
      SeenInOrder(b, if staked then Some(op.sender) else None, aggregator, op.paymaster, op.factory, up);
    }
  }

  lemma SeenOne(b: Book, a: Option<string>, up: bool)
    ensures ApplyAll(b, SeenOf(a, up)) == Apply(b, Seen(a, up))
  {
    if Truthy(a) { assert ApplyAll(b, [Seen(a, up)]) == ApplyAll(Apply(b, Seen(a, up)), [Seen(a, up)][1..]); }
  }

  lemma SeenInOrder(b: Book, s: Option<string>, a: Option<string>, p: Option<string>, f: Option<string>, up: bool)
    ensures ApplyAll(b, SeenOf(s, true) + SeenOf(a, up) + SeenOf(p, up) + SeenOf(f, up))
         == Apply(Apply(Apply(Apply(b, Seen(s, true)), Seen(a, up)), Seen(p, up)), Seen(f, up))
  {
    var b1 := Apply(b, Seen(s, true));
    var b2 := Apply(b1, Seen(a, up));
    var b3 := Apply(b2, Seen(p, up));
    SeenOne(b, s, true);
    SeenOne(b1, a, up);
    SeenOne(b2, p, up);
    SeenOne(b3, f, up);
    ApplyAllConcat(b, SeenOf(s, true), SeenOf(a, up));
    ApplyAllConcat(b, SeenOf(s, true) + SeenOf(a, up), SeenOf(p, up));
    ApplyAllConcat(b, SeenOf(s, true) + SeenOf(a, up) + SeenOf(p, up), SeenOf(f, up));
  }

  /** In how many of its roles besides the sender's an op names `x`. */
  function EntityRoles(aggregator: Option<string>, op: UserOp, x: string): nat {
    (if Names(aggregator, x) then 1 else 0) + (if Names(op.paymaster, x) then 1 else 0) + if Names(op.factory, x) then 1 else 0
  }

  /** What one pass of the seen update does: every entity of the op is seen once more or once less per role, never below
      zero; a sender that is staked and not banned is seen once more either way. */
  lemma SightingsMoved(b: Book, lim: Limits, aggregator: Option<string>, op: UserOp, sender: StakeInfo, up: bool, x: string)
    requires Folded(x) && x != "" && EntryOf(b, x).opsSeen >= 0
    ensures var was, now := EntryOf(b, x), EntryOf(ApplyAll(b, SeenEvents(b, lim, aggregator, op, sender, up)), x);
            var asSender := GetStatus(b, Some(sender.addr)) != BANNED && sender.stake >= lim.minStake
                            && sender.unstakeDelaySec >= lim.minUnstakeDelay && Lower(op.sender) == x;
            var base := was.opsSeen + if asSender then 1 else 0;
            && now.opsIncluded == was.opsIncluded
            && now.opsSeen == if up then base + EntityRoles(aggregator, op, x) else Max0(base - EntityRoles(aggregator, op, x))
  {
    hide Lower, GetStatus;
    var s := if CheckStake(b, lim, Account, sender).None? then Some(op.sender) else None;
    SeenInOrder(b, s, aggregator, op.paymaster, op.factory, up);
    var b1 := Apply(b, Seen(s, true));
    var b2 := Apply(b1, Seen(aggregator, up));
    var b3 := Apply(b2, Seen(op.paymaster, up));
    SeenOnce(b, s, true, x);
    SeenOnce(b1, aggregator, up, x);
    SeenOnce(b2, op.paymaster, up, x);
    SeenOnce(b3, op.factory, up, x);
  }

  /** What an accepted add does to the sightings of an address that does not send it: once more for every role in the new op,
      after once less for every role in the op that it replaces. */
  lemma AddMovesSightings(cfg: Config, s: State, p: AddParams, x: string)
    requires Folded(x) && x != "" && EntryOf(s.book, x).opsSeen >= 0 && CheckAdd(cfg, s, p).None? && Keyed(s.pool)
    requires Lower(p.op.sender) != x
    ensures var was, now := EntryOf(s.book, x), EntryOf(Step(cfg, s, Add(p)).book, x);
            var aggregator := if p.aggregator.Some? then Some(p.aggregator.value.addr) else None;
            var kept := match Replaced(s, p)
                        case None => was.opsSeen
                        case Some(o) => Max0(was.opsSeen - EntityRoles(o.aggregator, o.op, x));
            now.opsIncluded == was.opsIncluded && now.opsSeen == kept + EntityRoles(aggregator, p.op, x)
  {
    FindMeans(p.op, s.pool);
    hide Lower, GetStatus, SeenEvents, CheckAdd, EntityRoles;
    var aggregator := EntryFor(p).aggregator;
    match Replaced(s, p)
    case None => SightingsMoved(s.book, cfg.limits, aggregator, p.op, p.sender, true, x);
    case Some(o) =>
      var first := SeenEvents(s.book, cfg.limits, o.aggregator, o.op, p.sender, false);
      var mid := ApplyAll(s.book, first);
      SightingsMoved(s.book, cfg.limits, o.aggregator, o.op, p.sender, false, x);
      SightingsMoved(mid, cfg.limits, aggregator, p.op, p.sender, true, x);
      ApplyAllConcat(s.book, first, SeenEvents(mid, cfg.limits, aggregator, p.op, p.sender, true));
  }

  class MempoolManager {
    const cfg: Config
    const reputation: ReputationManager
    var standardPool: Pool
    var mempoolEntryCount: Counts

    constructor (cfg: Config)
      ensures Valid() && this.cfg == cfg && fresh(reputation)
      ensures View() == INITIAL
    {
      this.cfg := cfg;
      reputation := new ReputationManager(cfg.limits);
      standardPool, mempoolEntryCount := Empty(), map[];
    }

    function View(): State
      reads this, reputation
    {
      State(standardPool, mempoolEntryCount, reputation.View())
    }

    ghost predicate Valid()
      reads this, reputation
    {
      Inv(View()) && reputation.limits == cfg.limits
    }

    method AddUserOp(p: AddParams) returns (r: Result<string, Reject>)
      requires Valid()
      modifies this, reputation
      ensures Valid() && View() == Step(cfg, old(View()), Add(p))
      ensures r == match CheckAdd(cfg, old(View()), p)
                   case None => Success(p.hash)
                   case Some(error) => Failure(error)
    {
      ghost var before := View();
      var rejected := CheckAdd(cfg, View(), p);
      if rejected.Some? { return Failure(rejected.value); }
      var oldEntry := FindBySenderNonce(p.op, standardPool);
      UpdateMempoolState(EntryFor(p), oldEntry);
      RecordSeen(p, oldEntry);
      InvStep(cfg, before, Add(p));
      return Success(p.hash);
    }

    /** The reputation updates that follow an accepted add. */
    method RecordSeen(p: AddParams, oldEntry: Option<Entry>)
      requires reputation.limits == cfg.limits
      modifies reputation
      ensures reputation.View() == ApplyAll(old(reputation.View()), AddEvents(cfg, old(reputation.View()), p, oldEntry))
    {
      ghost var b := reputation.View();
      if oldEntry.Some? {
        var o := oldEntry.value;
        reputation.UpdateSeenStatuses(o.aggregator, o.op, p.sender, false);
        ghost var first := SeenEvents(b, cfg.limits, o.aggregator, o.op, p.sender, false);
        ApplyAllConcat(b, first, SeenEvents(reputation.View(), cfg.limits, EntryFor(p).aggregator, p.op, p.sender, true));
      }
      reputation.UpdateSeenStatuses(EntryFor(p).aggregator, p.op, p.sender, true);
    }

    /** `doUpdateMempoolState` */
    method UpdateMempoolState(entry: Entry, oldEntry: Option<Entry>)
      modifies this
      ensures (standardPool, mempoolEntryCount) == AddEntry(old(View()), entry, oldEntry)
    {
      if oldEntry.Some? {
        standardPool := Delete(standardPool, oldEntry.value.hash);
        standardPool := Put(standardPool, entry.hash, entry);
        return;
      }
      var updated := CountsToUpdate(mempoolEntryCount, entry.op);
      standardPool := Put(standardPool, entry.hash, entry);
      mempoolEntryCount := mempoolEntryCount + updated;
    }

    method RemoveUserOp(ref: Ref) returns (found: bool)
      requires Valid()
      modifies this
      ensures Valid() && View() == Step(cfg, old(View()), Remove(ref))
      ensures found <==> Resolve(ref, old(standardPool)).Some?
    {
      InvStep(cfg, View(), Remove(ref));
      var entry := Resolve(ref, standardPool);
      if entry.None? { return false; }
      var sender := entry.value.op.sender;
      standardPool := Delete(standardPool, entry.value.hash);
      var count := CountAt(mempoolEntryCount, sender) - 1;
      if count <= 0 {
        mempoolEntryCount := mempoolEntryCount - {sender};
      } else {
        mempoolEntryCount := mempoolEntryCount[sender := count];
      }
      return true;
    }

    method RemoveUserOpsForBannedAddr(addr: string)
      requires Valid()
      modifies this
      ensures Valid() && View() == Step(cfg, old(View()), BanSweep(addr))
    {
      InvStep(cfg, View(), BanSweep(addr));
      SweepStep(cfg, View(), addr);
      var opsToRemove := OpsSpelling(Values(standardPool), addr);
      ForgetAll(opsToRemove);
    }

    /** The rounds of the sweep. */
    method ForgetAll(opsToRemove: seq<Entry>)
      modifies this`standardPool, this`mempoolEntryCount
      ensures (standardPool, mempoolEntryCount) == SweepAll(old(standardPool), old(mempoolEntryCount), opsToRemove)
    {
      for i := 0 to |opsToRemove|
        invariant SweepAll(standardPool, mempoolEntryCount, opsToRemove[i..])
               == SweepAll(old(standardPool), old(mempoolEntryCount), opsToRemove)
      {
        assert opsToRemove[i..][0] == opsToRemove[i] && opsToRemove[i..][1..] == opsToRemove[i + 1..];
        Forget(opsToRemove[i]);
      }
    }

    /** One round of the sweep. */
    method Forget(e: Entry)
      modifies this`standardPool, this`mempoolEntryCount
      ensures standardPool == Delete(old(standardPool), e.hash)
      ensures mempoolEntryCount == old(mempoolEntryCount) - SweepKeys(e.op)
    {
      standardPool := Delete(standardPool, e.hash);
      mempoolEntryCount := mempoolEntryCount - {e.op.sender};
      if Truthy(e.op.paymaster) { mempoolEntryCount := mempoolEntryCount - {e.op.paymaster.value}; }
      if Truthy(e.op.factory) { mempoolEntryCount := mempoolEntryCount - {e.op.factory.value}; }
    }

    method GetNextPending() returns (found: seq<Entry>)
      requires Valid()
      modifies this
      ensures Valid() && View() == Step(cfg, old(View()), HandOut(false))
      ensures found == HandedOut(cfg, old(View()), false)
    {
      InvStep(cfg, View(), HandOut(false));
      HandOutStep(cfg, View(), false);
      found := PendingUpTo(Values(standardPool), cfg.bundleSize);
      MarkAll(found, false);
    }

    method GetAllPending() returns (found: seq<Entry>)
      requires Valid()
      modifies this
      ensures Valid() && View() == Step(cfg, old(View()), HandOut(true))
      ensures found == HandedOut(cfg, old(View()), true)
    {
      InvStep(cfg, View(), HandOut(true));
      HandOutStep(cfg, View(), true);
      found := AllPending(Values(standardPool));
      FirstPendingIsPrefix(Values(standardPool), |Values(standardPool)|);
      PendingOfSize(Values(standardPool));
      MarkAll(found, true);
    }

    /** Sets the status of every entry handed out; each hash is a key of the pool. */
    method MarkAll(found: seq<Entry>, ghost all: bool)
      requires Keyed(standardPool) && found == HandedOut(cfg, View(), all)
      modifies this`standardPool
      ensures standardPool == MarkBundling(old(standardPool), found)
    {
      GivenAreKeys(cfg, View(), all);
      hide HandedOut;
      for i := 0 to |found|
        invariant MarkBundling(standardPool, found[i..]) == MarkBundling(old(standardPool), found)
        invariant standardPool.vals.Keys == old(standardPool.vals.Keys)
      {
        var hash := found[i].hash;
        assert found[i..][0] == found[i] && found[i..][1..] == found[i + 1..];
        assert found[i] in found;
        standardPool := Put(standardPool, hash, standardPool.vals[hash].(status := Bundling));
      }
    }

    method UpdateEntryStatus(ref: Ref, status: EntryStatus)
      requires Valid()
      modifies this`standardPool
      ensures Valid() && View() == Step(cfg, old(View()), SetStatus(ref, status))
    {
      InvStep(cfg, View(), SetStatus(ref, status));
      var entry := Resolve(ref, standardPool);
      if entry.Some? {
        standardPool := Put(standardPool, entry.value.hash, entry.value.(status := status));
      }
    }

    method ClearState()
      requires Valid()
      modifies this
      ensures Valid() && View() == Step(cfg, old(View()), Clear)
    {
      standardPool, mempoolEntryCount := Empty(), map[];
    }
  }

  lemma GivenAreKeys(cfg: Config, s: State, all: bool)
    requires Keyed(s.pool)
    ensures forall e :: e in HandedOut(cfg, s, all) ==> e.hash in s.pool.vals
  {
    forall e | e in HandedOut(cfg, s, all) ensures e.hash in s.pool.vals {
      GivenWerePending(cfg, s, HandOut(all), e);
    }
  }

  /** The counts that an add overwrites, each computed from the old counts. */
  method CountsToUpdate(counts: Counts, op: UserOp) returns (r: Counts)
    ensures counts + r == CountUp(counts, op)
  {
    hide Lower, CountAt;
    r := map[Lower(op.sender) := CountAt(counts, Lower(op.sender)) + 1];
    if Truthy(op.paymaster) {
      var paymaster := Lower(op.paymaster.value);
      if paymaster != "0x" { r := r[paymaster := CountAt(counts, paymaster) + 1]; }
    }
    if Truthy(op.factory) {
      var factory := Lower(op.factory.value);
      if factory != "0x" { r := r[factory := CountAt(counts, factory) + 1]; }
    }
    CountsMatch(counts, op, r);
  }

  lemma CountsMatch(counts: Counts, op: UserOp, r: Counts)
    requires r.Keys == {Lower(op.sender)} + CountedEntities(op) && forall a :: a in r ==> r[a] == CountAt(counts, a) + 1
    ensures counts + r == CountUp(counts, op)
  {
    hide Lower, CountAt, CountedEntities;
    assert r == map a | a in {Lower(op.sender)} + CountedEntities(op) :: CountAt(counts, a) + 1;
  }

  /** The filter of the ban sweep. */
  method OpsSpelling(entries: seq<Entry>, addr: string) returns (r: seq<Entry>)
    ensures r == Spelling(entries, addr)
  {
    r := [];
    for i := 0 to |entries|
      invariant r + Spelling(entries[i..], addr) == Spelling(entries, addr)
    {
      assert entries[i..][0] == entries[i] && entries[i..][1..] == entries[i + 1..];
      if Spells(entries[i].op, addr) { r := r + [entries[i]]; }
    }
  }

  /** The loop of `getNextPending`: stops counting at the bundle size but still scans every entry. */
  method PendingUpTo(entries: seq<Entry>, bundleSize: nat) returns (found: seq<Entry>)
    ensures found == FirstPending(entries, bundleSize)
  {
    var count := 0;
    found := [];
    for i := 0 to |entries|
      invariant count <= bundleSize && count == |found|
      invariant found + FirstPending(entries[i..], bundleSize - count) == FirstPending(entries, bundleSize)
    {
      assert entries[i..][0] == entries[i] && entries[i..][1..] == entries[i + 1..];
      if count < bundleSize && entries[i].status == Pending {
        count := count + 1;
        found := found + [entries[i]];
      }
    }
  }

  method AllPending(entries: seq<Entry>) returns (found: seq<Entry>)
    ensures found == PendingOf(entries)
  {
    found := [];
    for i := 0 to |entries|
      invariant found + PendingOf(entries[i..]) == PendingOf(entries)
    {
      assert entries[i..][0] == entries[i] && entries[i..][1..] == entries[i + 1..];
      if entries[i].status == Pending { found := found + [entries[i]]; }
    }
  }

  lemma HandOutStep(cfg: Config, s: State, all: bool)
    ensures Step(cfg, s, HandOut(all)) == State(MarkBundling(s.pool, HandedOut(cfg, s, all)), s.counts, s.book)
  {
  }

  /** One action per op that goes back to pending. */
  function BackToPending(ops: seq<UserOp>): seq<Action> {
    seq(|ops|, i requires 0 <= i < |ops| => SetStatus(ByOp(ops[i]), Pending))
  }

  /** The loop sets exactly the entries that share a slot with a listed op back to pending, and changes nothing else. */
  lemma {:induction false} SentBack(cfg: Config, s: State, ops: seq<UserOp>, t: State)
    requires Inv(s) && t == Run(cfg, s, BackToPending(ops))
    ensures Inv(t) && t.pool.keys == s.pool.keys && t.pool.vals.Keys == s.pool.vals.Keys && t.counts == s.counts && t.book == s.book
    ensures forall k :: k in s.pool.vals ==>
              t.pool.vals[k] == if InSlotOf(ops, s.pool.vals[k]) then s.pool.vals[k].(status := Pending) else s.pool.vals[k]
    decreases ops
  {
    hide Step, InSlotOf;
    RunInv(cfg, s, BackToPending(ops));
    if ops != [] {
      var n := |ops| - 1;
      assert BackToPending(ops)[..n] == BackToPending(ops[..n]);
      var before := Run(cfg, s, BackToPending(ops[..n]));
      SentBack(cfg, s, ops[..n], before);
      StatusMeans(cfg, before, ByOp(ops[n]), Pending);
      forall k | k in s.pool.vals
        ensures InSlotOf(ops, s.pool.vals[k]) <==> InSlotOf(ops[..n], s.pool.vals[k]) || SameSlot(s.pool.vals[k].op, ops[n])
      {
        InSlotSnoc(ops, s.pool.vals[k]);
      }
    } else {
      forall k | k in s.pool.vals ensures !InSlotOf(ops, s.pool.vals[k]) { NoSlots(s.pool.vals[k]); }
    }
  }

  predicate InSlotOf(ops: seq<UserOp>, e: Entry) { exists op :: op in ops && SameSlot(e.op, op) }

  lemma NoSlots(e: Entry)
    ensures !InSlotOf([], e)
  {
  }

  lemma InSlotSnoc(ops: seq<UserOp>, e: Entry)
    requires ops != []
    ensures InSlotOf(ops, e) <==> InSlotOf(ops[..|ops| - 1], e) || SameSlot(e.op, ops[|ops| - 1])
  {
    assert ops == ops[..|ops| - 1] + [ops[|ops| - 1]];
  }

  /** An unsent op that is still in the pool is given by the next forced hand-out. */
  lemma UnsentGivenAgain(cfg: Config, s: State, ops: seq<UserOp>, k: string)
    requires Inv(s) && k in s.pool.vals && InSlotOf(ops, s.pool.vals[k])
    ensures s.pool.vals[k].(status := Pending) in HandedOut(cfg, Run(cfg, s, BackToPending(ops)), true)
  {
    var t := Run(cfg, s, BackToPending(ops));
    SentBack(cfg, s, ops, t);
    HandOutMeans(cfg, t);
    ValuesAreVals(t.pool, t.pool.vals[k]);
    PendingOfMeans(Values(t.pool), t.pool.vals[k]);
  }

  /** The processor's `afterHook`: `crashed` is the failed op with the address to ban, if any;
      `unsent` lists the ops of a bundle that failed for another reason. */
  method AfterHook(mempool: MempoolManager, crashed: Option<(UserOp, Option<string>)>, unsent: Option<seq<UserOp>>)
    requires mempool.Valid()
    modifies mempool, mempool.reputation
    ensures mempool.Valid()
    ensures var s := old(mempool.View());
            var t := match crashed
                     case None => s
                     case Some((failed, addr)) =>
                       if Truthy(addr) then AfterBlame(mempool.cfg, s, failed, addr.value)
                       else Step(mempool.cfg, s, Remove(ByOp(failed)));
            mempool.View() == Run(mempool.cfg, t, if unsent.Some? then BackToPending(unsent.value) else [])
  {
    if crashed.Some? {
      var failed, addressToBan := crashed.value.0, crashed.value.1;
      if addressToBan.Some? && addressToBan.value != "" {
        Blame(mempool, failed, addressToBan.value);
      } else {
        var _ := mempool.RemoveUserOp(ByOp(failed));
      }
    }
    if unsent.Some? { SendBack(mempool, unsent.value); }
  }

  method Blame(mempool: MempoolManager, failed: UserOp, addr: string)
    requires mempool.Valid()
    modifies mempool, mempool.reputation
    ensures mempool.Valid() && mempool.View() == AfterBlame(mempool.cfg, old(mempool.View()), failed, addr)
  {
    ghost var s := mempool.View();
    mempool.reputation.UpdateSeenStatus(Some(failed.sender), false);
    mempool.reputation.UpdateSeenStatus(failed.paymaster, false);
    mempool.reputation.UpdateSeenStatus(failed.factory, false);
    CountedDownIs(mempool.cfg, s, failed);
    mempool.RemoveUserOpsForBannedAddr(addr);
    RepStep(mempool.cfg, mempool.View(), Crashed(addr));
    mempool.reputation.CrashedHandleOps(addr);
    var _ := mempool.RemoveUserOp(ByOp(failed));
  }

  method SendBack(mempool: MempoolManager, ops: seq<UserOp>)
    requires mempool.Valid()
    modifies mempool
    ensures mempool.Valid() && mempool.View() == Run(mempool.cfg, old(mempool.View()), BackToPending(ops))
  {
    for i := 0 to |ops|
      invariant mempool.Valid()
      invariant mempool.View() == Run(mempool.cfg, old(mempool.View()), BackToPending(ops[..i]))
    {
      mempool.UpdateEntryStatus(ByOp(ops[i]), Pending);
      assert BackToPending(ops[..i + 1])[..i] == BackToPending(ops[..i]);
      assert ops[..i + 1][i] == ops[i];
    }
    assert ops[..|ops|] == ops;
  }
}
