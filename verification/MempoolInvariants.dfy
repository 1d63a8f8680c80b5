/** What every serialized run of mempool steps keeps. */
module MempoolInvariants {
  import opened Common
  import opened Addresses
  import opened UserOps
  import opened OrderedRecord
  import opened Mempool

  // ---------- keys and slots ----------

  ghost predicate Keyed(pool: Pool) { forall k :: k in pool.vals ==> pool.vals[k].hash == k }

  /** One account and one nonce. */
  predicate InOneSlot(a: UserOp, b: UserOp) { Lower(a.sender) == Lower(b.sender) && a.nonce == b.nonce }

  ghost predicate OneEntryPerSlot(pool: Pool) {
    forall j, k :: j in pool.vals && k in pool.vals && InOneSlot(pool.vals[j].op, pool.vals[k].op) ==> j == k
  }

  ghost predicate Inv(s: State) { Keyed(s.pool) && OneEntryPerSlot(s.pool) }

  /** Nothing is new in `after` but statuses. */
  ghost predicate Narrows(before: Pool, after: Pool) {
    forall k :: k in after.vals ==>
      k in before.vals && after.vals[k] == before.vals[k].(status := after.vals[k].status)
  }

  lemma FindMeans(op: UserOp, pool: Pool)
    requires Keyed(pool)
    ensures match FindBySenderNonce(op, pool)
            case Some(e) => e.hash in pool.vals && pool.vals[e.hash] == e && SameSlot(e.op, op)
            case None => forall k :: k in pool.vals ==> !SameSlot(pool.vals[k].op, op)
  {
    var es := Values(pool);
    match FindBySenderNonce(op, pool)
    case Some(e) => ValuesAreVals(pool, e);
    case None =>
      forall k | k in pool.vals ensures !SameSlot(pool.vals[k].op, op) {
        ValuesAreVals(pool, pool.vals[k]);
      }
  }

  lemma ResolveMeans(ref: Ref, pool: Pool)
    requires Keyed(pool) && Resolve(ref, pool).Some?
    ensures var e := Resolve(ref, pool).value; e.hash in pool.vals && pool.vals[e.hash] == e
  {
    if ref.ByOp? { FindMeans(ref.op, pool); }
  }

  function Hashes(es: seq<Entry>): set<string> { set e | e in es :: e.hash }

  lemma HashesCons(es: seq<Entry>)
    requires es != []
    ensures Hashes(es) == {es[0].hash} + Hashes(es[1..])
  {
    assert es == [es[0]] + es[1..];
  }

  lemma {:induction false} MarkMeans(pool: Pool, es: seq<Entry>)
    ensures var after := MarkBundling(pool, es);
            && after.keys == pool.keys && after.vals.Keys == pool.vals.Keys
            && forall k :: k in pool.vals ==>
                 after.vals[k] == if k in Hashes(es) then pool.vals[k].(status := Bundling) else pool.vals[k]
    decreases es
  {
    if es != [] {
      var h := es[0].hash;
      var once := if h in pool.vals then Put(pool, h, pool.vals[h].(status := Bundling)) else pool;
      MarkMeans(once, es[1..]);
      HashesCons(es);
    }
  }

  function AllSweepKeys(es: seq<Entry>): set<string> {
    if es == [] then {} else SweepKeys(es[0].op) + AllSweepKeys(es[1..])
  }

  lemma {:induction false} SweepPool(pool: Pool, counts: Counts, doomed: seq<Entry>)
    ensures SweepAll(pool, counts, doomed).0.vals == pool.vals - Hashes(doomed)
    decreases doomed
  {
    if doomed == [] {
      assert pool.vals - {} == pool.vals;
    } else {
      var once := Delete(pool, doomed[0].hash);
      SweepPool(once, counts - SweepKeys(doomed[0].op), doomed[1..]);
      HashesCons(doomed);
      assert once.vals - Hashes(doomed[1..]) == pool.vals - Hashes(doomed);
    }
  }

  lemma {:induction false} SweepCounts(pool: Pool, counts: Counts, doomed: seq<Entry>)
    ensures SweepAll(pool, counts, doomed).1 == counts - AllSweepKeys(doomed)
    decreases doomed
  {
    if doomed == [] {
      assert counts - {} == counts;
    } else {
      var once := counts - SweepKeys(doomed[0].op);
      SweepCounts(Delete(pool, doomed[0].hash), once, doomed[1..]);
      assert once - AllSweepKeys(doomed[1..]) == counts - AllSweepKeys(doomed);
    }
  }

  lemma {:induction false} SpellingMeans(es: seq<Entry>, addr: string, e: Entry)
    ensures e in Spelling(es, addr) <==> e in es && Spells(e.op, addr)
  {
    if es != [] {
      SpellingMeans(es[1..], addr, e);
      assert es == [es[0]] + es[1..];
    }
  }

  /** A sweep removes exactly the entries that spell the address in one of their roles. */
  lemma SweepRemovesExactly(s: State, addr: string)
    requires Keyed(s.pool)
    ensures var after := Sweep(s, addr).0;
            && (forall k :: k in after.vals <==> k in s.pool.vals && !Spells(s.pool.vals[k].op, addr))
            && (forall k :: k in after.vals ==> after.vals[k] == s.pool.vals[k])
  {
    var doomed := Spelling(Values(s.pool), addr);
    SweepPool(s.pool, s.counts, doomed);
    forall k | k in s.pool.vals ensures k in Hashes(doomed) <==> Spells(s.pool.vals[k].op, addr) {
      var e := s.pool.vals[k];
      SpellingMeans(Values(s.pool), addr, e);
      ValuesAreVals(s.pool, e);
      if k in Hashes(doomed) {
        var d :| d in doomed && d.hash == k;
        SpellingMeans(Values(s.pool), addr, d);
        ValuesAreVals(s.pool, d);
      }
    }
  }

  lemma OthersNarrow(cfg: Config, s: State, a: Action)
    requires Keyed(s.pool) && !a.Add?
    ensures Narrows(s.pool, Step(cfg, s, a).pool)
  {
    match a
    case Remove(ref) =>
    case SetStatus(ref, st) => if Resolve(ref, s.pool).Some? { ResolveMeans(ref, s.pool); }
    case HandOut(all) => MarkMeans(s.pool, HandedOut(cfg, s, all));
    case BanSweep(addr) => SweepRemovesExactly(s, addr);
    case Clear =>
    case Rep(e) =>
  }

  predicate Accepted(cfg: Config, s: State, a: Action) { a.Add? && CheckAdd(cfg, s, a.p).None? }

  /** The entry that an accepted add replaces, if any. */
  function Replaced(s: State, p: AddParams): Option<Entry> { FindBySenderNonce(p.op, s.pool) }

  /** `after` is `before` with `e` under its hash, in the place of `was` when its slot was taken. */
  ghost predicate Inserted(before: Pool, after: Pool, e: Entry, was: Option<Entry>) {
    match was
    case Some(o) =>
      && o.hash in before.vals && before.vals[o.hash] == o && SameSlot(o.op, e.op)
      && after.vals == (before.vals - {o.hash})[e.hash := e]
    case None =>
      && (forall k :: k in before.vals ==> !SameSlot(before.vals[k].op, e.op))
      && after.vals == before.vals[e.hash := e]
  }

  lemma AddMeans(cfg: Config, s: State, a: Action)
    requires Keyed(s.pool) && Accepted(cfg, s, a)
    ensures Inserted(s.pool, Step(cfg, s, a).pool, EntryFor(a.p), Replaced(s, a.p))
  {
    FindMeans(a.p.op, s.pool);
  }

  lemma RejectedChangesNothing(cfg: Config, s: State, a: Action)
    requires a.Add? && !Accepted(cfg, s, a)
    ensures Step(cfg, s, a) == s
  {
  }

  lemma InsertedInv(before: Pool, after: Pool, e: Entry, was: Option<Entry>)
    requires Keyed(before) && OneEntryPerSlot(before) && Inserted(before, after, e, was)
    ensures Keyed(after) && OneEntryPerSlot(after)
  {
    forall k | k in after.vals && k != e.hash ensures k in before.vals && !SameSlot(before.vals[k].op, e.op) {
    }
  }

  lemma InvStep(cfg: Config, s: State, a: Action)
    requires Inv(s)
    ensures Inv(Step(cfg, s, a))
  {
    if Accepted(cfg, s, a) {
      AddMeans(cfg, s, a);
      InsertedInv(s.pool, Step(cfg, s, a).pool, EntryFor(a.p), Replaced(s, a.p));
    } else if a.Add? {
      RejectedChangesNothing(cfg, s, a);
    } else {
      OthersNarrow(cfg, s, a);
    }
  }

  /** In every reachable state each key is its entry's hash, and (sender up to case, nonce) occurs at most once. */
  lemma {:induction false} RunInv(cfg: Config, s: State, actions: seq<Action>)
    requires Inv(s)
    ensures Inv(Run(cfg, s, actions))
  {
    if actions != [] {
      RunInv(cfg, s, actions[..|actions| - 1]);
      InvStep(cfg, Run(cfg, s, actions[..|actions| - 1]), actions[|actions| - 1]);
    }
  }

  // ---------- single entries ----------

  /** The reference is to this entry: by its hash, or by an op in its slot. */
  predicate Refers(ref: Ref, e: Entry) {
    match ref
    case ByHash(h) => e.hash == h
    case ByOp(op) => SameSlot(e.op, op)
  }

  lemma ResolveRefers(ref: Ref, s: State)
    requires Inv(s)
    ensures Resolve(ref, s.pool).Some? ==> Refers(ref, Resolve(ref, s.pool).value)
    ensures forall k :: k in s.pool.vals ==> (Refers(ref, s.pool.vals[k]) <==> Resolve(ref, s.pool) == Some(s.pool.vals[k]))
  {
    if ref.ByOp? {
      FindMeans(ref.op, s.pool);
      forall k | k in s.pool.vals && Refers(ref, s.pool.vals[k]) ensures Resolve(ref, s.pool) == Some(s.pool.vals[k]) {
        var e := FindBySenderNonce(ref.op, s.pool).value;
        assert SameSlot(s.pool.vals[k].op, s.pool.vals[e.hash].op);
      }
    }
  }

  /** A status update changes the status of the one entry that is meant, and nothing else. */
  lemma StatusMeans(cfg: Config, s: State, ref: Ref, st: EntryStatus)
    requires Inv(s)
    ensures var t := Step(cfg, s, SetStatus(ref, st));
            && t.pool.keys == s.pool.keys && t.pool.vals.Keys == s.pool.vals.Keys && t.counts == s.counts && t.book == s.book
            && forall k :: k in s.pool.vals ==>
                 t.pool.vals[k] == if Refers(ref, s.pool.vals[k]) then s.pool.vals[k].(status := st) else s.pool.vals[k]
  {
    hide Inv, Refers;
    ResolveRefers(ref, s);
    if Resolve(ref, s.pool).Some? {
      Resolved(ref, s);
      StatusPut(s.pool, Resolve(ref, s.pool).value, st);
    }
  }

  lemma Resolved(ref: Ref, s: State)
    requires Inv(s) && Resolve(ref, s.pool).Some?
    ensures var e := Resolve(ref, s.pool).value; e.hash in s.pool.vals && s.pool.vals[e.hash] == e
    ensures forall k :: k in s.pool.vals && s.pool.vals[k] == Resolve(ref, s.pool).value ==> k == Resolve(ref, s.pool).value.hash
  {
    ResolveMeans(ref, s.pool);
  }

  lemma StatusPut(pool: Pool, e: Entry, st: EntryStatus)
    requires e.hash in pool.vals && pool.vals[e.hash] == e
    ensures var after := Put(pool, e.hash, e.(status := st));
            && after.keys == pool.keys && after.vals.Keys == pool.vals.Keys
            && forall k :: k in pool.vals ==> after.vals[k] == if k == e.hash then e.(status := st) else pool.vals[k]
  {
  }

  /** A removal takes out the one entry that is meant, and nothing else. */
  lemma RemoveMeans(cfg: Config, s: State, ref: Ref)
    requires Inv(s)
    ensures var t := Step(cfg, s, Remove(ref));
            && (forall k :: k in t.pool.vals <==> k in s.pool.vals && !Refers(ref, s.pool.vals[k]))
            && (forall k :: k in t.pool.vals ==> t.pool.vals[k] == s.pool.vals[k])
            && t.book == s.book
  {
    ResolveRefers(ref, s);
    if Resolve(ref, s.pool).Some? { ResolveMeans(ref, s.pool); }
  }

  /** It is counted down once, under its sender as that is spelled, and no other count changes. */
  lemma RemoveCounts(cfg: Config, s: State, ref: Ref, x: string)
    requires Inv(s)
    ensures var removed := exists k :: k in s.pool.vals && Refers(ref, s.pool.vals[k]) && s.pool.vals[k].op.sender == x;
            CountAt(Step(cfg, s, Remove(ref)).counts, x)
            == if !removed then CountAt(s.counts, x) else if CountAt(s.counts, x) <= 1 then 0 else CountAt(s.counts, x) - 1
  {
    hide Refers;
    ResolveRefers(ref, s);
    if Resolve(ref, s.pool).Some? { Resolved(ref, s); }
  }

  // ---------- counts over-approximate the pool ----------

  function SenderKeys(pool: Pool, x: string): set<string> {
    set k | k in pool.vals && Lower(pool.vals[k].op.sender) == x
  }

  /** The count of `x` is at least the number of entries that `x` sends. */
  ghost predicate Covered(s: State, x: string) { |SenderKeys(s.pool, x)| <= CountAt(s.counts, x) }

  lemma NarrowSenders(before: Pool, after: Pool, x: string)
    requires Narrows(before, after)
    ensures SenderKeys(after, x) <= SenderKeys(before, x)
  {
  }

  lemma InsertedSenders(before: Pool, after: Pool, e: Entry, was: Option<Entry>, x: string)
    requires Keyed(before) && Inserted(before, after, e, was)
    ensures |SenderKeys(after, x)| <= |SenderKeys(before, x)| + if was.None? && Lower(e.op.sender) == x then 1 else 0
  {
    var had, now := SenderKeys(before, x), SenderKeys(after, x);
    if Lower(e.op.sender) != x {
      SubsetSize(now, had);
    } else if was.None? {
      OneMoreAtMost(had, now, e.hash);
    } else {
      ExchangedAtMost(had, now, was.value.hash, e.hash);
    }
  }

  lemma AddSenders(cfg: Config, s: State, a: Action, x: string)
    requires Inv(s) && Accepted(cfg, s, a)
    ensures |SenderKeys(Step(cfg, s, a).pool, x)|
         <= |SenderKeys(s.pool, x)| + if Replaced(s, a.p).None? && Lower(a.p.op.sender) == x then 1 else 0
  {
    AddMeans(cfg, s, a);
    InsertedSenders(s.pool, Step(cfg, s, a).pool, EntryFor(a.p), Replaced(s, a.p), x);
  }

  lemma DropCovered(pool: Pool, counts: Counts, e: Entry, x: string)
    requires e.hash in pool.vals && pool.vals[e.hash] == e && Folded(x)
    requires |SenderKeys(pool, x)| <= CountAt(counts, x)
    ensures |SenderKeys(Delete(pool, e.hash), x)| <= CountAt(CountDown(counts, e.op.sender), x)
  {
    var had, now := SenderKeys(pool, x), SenderKeys(Delete(pool, e.hash), x);
    assert now == had - {e.hash};
    if e.op.sender == x {
      assert e.hash in had;
      assert |now| == |had| - 1;
    } else {
      SubsetSize(now, had);
    }
  }

  lemma RemoveCovered(s: State, ref: Ref, x: string)
    requires Inv(s) && Folded(x) && Covered(s, x)
    ensures Covered(State(RemoveEntry(s, ref).0, RemoveEntry(s, ref).1, s.book), x)
  {
    if Resolve(ref, s.pool).Some? {
      ResolveMeans(ref, s.pool);
      DropCovered(s.pool, s.counts, Resolve(ref, s.pool).value, x);
    }
  }

  lemma AddCovered(cfg: Config, s: State, a: Action, x: string)
    requires Inv(s) && Covered(s, x) && Accepted(cfg, s, a)
    ensures Covered(Step(cfg, s, a), x)
  {
    hide CheckAdd, AddEvents;
    AddSenders(cfg, s, a, x);
  }

  lemma OthersCovered(cfg: Config, s: State, a: Action, x: string)
    requires Inv(s) && Covered(s, x) && !a.Add? && !a.Remove? && !a.BanSweep?
    ensures Covered(Step(cfg, s, a), x)
  {
    OthersNarrow(cfg, s, a);
    NarrowSenders(s.pool, Step(cfg, s, a).pool, x);
    SubsetSize(SenderKeys(Step(cfg, s, a).pool, x), SenderKeys(s.pool, x));
  }

  lemma CoveredStep(cfg: Config, s: State, a: Action, x: string)
    requires Inv(s) && Folded(x) && Covered(s, x) && !a.BanSweep?
    ensures Covered(Step(cfg, s, a), x)
  {
    if Accepted(cfg, s, a) {
      AddCovered(cfg, s, a, x);
    } else if a.Add? {
      RejectedChangesNothing(cfg, s, a);
    } else if a.Remove? {
      RemoveCovered(s, a.ref, x);
    } else {
      OthersCovered(cfg, s, a, x);
    }
  }

  lemma {:induction false} RunCovered(cfg: Config, s: State, actions: seq<Action>, x: string)
    requires Inv(s) && Folded(x) && Covered(s, x)
    requires forall a :: a in actions ==> !a.BanSweep?
    ensures Covered(Run(cfg, s, actions), x)
  {
    if actions != [] {
      var n := |actions| - 1;
      RunCovered(cfg, s, actions[..n], x);
      RunInv(cfg, s, actions[..n]);
      CoveredStep(cfg, Run(cfg, s, actions[..n]), actions[n], x);
    }
  }

  /** Validation describes the sender under its own address, and its stake is too low. */
  predicate UnstakedAdd(cfg: Config, p: AddParams) {
    && Lower(p.sender.addr) == Lower(p.op.sender)
    && (p.sender.stake < cfg.limits.minStake || p.sender.unstakeDelaySec < cfg.limits.minUnstakeDelay)
  }

  lemma UnstakedBelowCap(cfg: Config, s: State, p: AddParams)
    requires CheckAdd(cfg, s, p).None? && Replaced(s, p).None? && UnstakedAdd(cfg, p)
    ensures CountAt(s.counts, Lower(p.op.sender)) < MAX_MEMPOOL_USEROPS_PER_SENDER
  {
    assert CheckReputation(s.book, cfg.limits, s.counts, p).None?;
  }

  lemma CapStep(cfg: Config, s: State, a: Action, x: string)
    requires Inv(s) && Folded(x) && Covered(s, x)
    requires a.Add? && Lower(a.p.op.sender) == x ==> UnstakedAdd(cfg, a.p)
    requires |SenderKeys(s.pool, x)| <= MAX_MEMPOOL_USEROPS_PER_SENDER
    ensures |SenderKeys(Step(cfg, s, a).pool, x)| <= MAX_MEMPOOL_USEROPS_PER_SENDER
  {
    if Accepted(cfg, s, a) {
      AddSenders(cfg, s, a, x);
      if Replaced(s, a.p).None? && Lower(a.p.op.sender) == x {
        UnstakedBelowCap(cfg, s, a.p);
      }
    } else if a.Add? {
      RejectedChangesNothing(cfg, s, a);
    } else {
      OthersNarrow(cfg, s, a);
      NarrowSenders(s.pool, Step(cfg, s, a).pool, x);
      SubsetSize(SenderKeys(Step(cfg, s, a).pool, x), SenderKeys(s.pool, x));
    }
  }

  /** A sender that is never staked holds at most four entries, in every run without a ban sweep. */
  lemma {:induction false} SenderCap(cfg: Config, actions: seq<Action>, x: string)
    requires Folded(x)
    requires forall a :: a in actions ==> !a.BanSweep?
    requires forall a :: a in actions && a.Add? && Lower(a.p.op.sender) == x ==> UnstakedAdd(cfg, a.p)
    ensures |SenderKeys(Run(cfg, INITIAL, actions).pool, x)| <= MAX_MEMPOOL_USEROPS_PER_SENDER
  {
    if actions == [] {
      assert SenderKeys(INITIAL.pool, x) == {};
    } else {
      var n := |actions| - 1;
      SenderCap(cfg, actions[..n], x);
      assert SenderKeys(INITIAL.pool, x) == {};
      RunInv(cfg, INITIAL, actions[..n]);
      RunCovered(cfg, INITIAL, actions[..n], x);
      CapStep(cfg, Run(cfg, INITIAL, actions[..n]), actions[n], x);
    }
  }

  lemma SpelledKeys(op: UserOp, x: string)
    requires x != ""
    ensures x in SweepKeys(op) <==> Spells(op, x)
  {
  }

  lemma {:induction false} InAllSweepKeys(es: seq<Entry>, x: string)
    ensures x in AllSweepKeys(es) <==> exists e :: e in es && x in SweepKeys(e.op)
  {
    if es != [] {
      InAllSweepKeys(es[1..], x);
      assert es == [es[0]] + es[1..];
    }
  }

  predicate SweptWith(s: State, addr: string, x: string, k: string) {
    k in s.pool.vals && Spells(s.pool.vals[k].op, addr) && Spells(s.pool.vals[k].op, x)
  }

  /** The sweep forgets the count of `x` exactly when some swept op spells `x` as sender, paymaster or factory. */
  lemma SweptCount(s: State, addr: string, x: string)
    requires x != ""
    ensures x in Sweep(s, addr).1 <==> x in s.counts && forall k :: !SweptWith(s, addr, x, k)
    ensures x in Sweep(s, addr).1 ==> Sweep(s, addr).1[x] == s.counts[x]
  {
    var doomed := Spelling(Values(s.pool), addr);
    SweepCounts(s.pool, s.counts, doomed);
    InAllSweepKeys(doomed, x);
    if k :| SweptWith(s, addr, x, k) {
      var e := s.pool.vals[k];
      ValuesAreVals(s.pool, e);
      SpellingMeans(Values(s.pool), addr, e);
      SpelledKeys(e.op, x);
    } else if x in AllSweepKeys(doomed) {
      var d :| d in doomed && x in SweepKeys(d.op);
      SpelledKeys(d.op, x);
      SpellingMeans(Values(s.pool), addr, d);
      ValuesAreVals(s.pool, d);
      var k :| k in s.pool.vals && s.pool.vals[k] == d;
      assert SweptWith(s, addr, x, k);
    }
  }

  /** A ban sweep is what can break the count law: it keeps it for `x` exactly when no swept entry spells `x`, or every
      entry that `x` sends spells the address, so that none is left. */
  lemma SweepCoverage(s: State, addr: string, x: string)
    requires Inv(s) && x != "" && Covered(s, x)
    ensures var t := State(Sweep(s, addr).0, Sweep(s, addr).1, s.book);
            Covered(t, x) <==>
            || (forall k :: !SweptWith(s, addr, x, k))
            || (forall k :: k in s.pool.vals && Lower(s.pool.vals[k].op.sender) == x ==> Spells(s.pool.vals[k].op, addr))
  {
    var t := State(Sweep(s, addr).0, Sweep(s, addr).1, s.book);
    SweptCount(s, addr, x);
    SweepRemovesExactly(s, addr);
    SubsetSize(SenderKeys(t.pool, x), SenderKeys(s.pool, x));
    NoneLeft(s, addr, x, t.pool);
  }

  lemma NoneLeft(s: State, addr: string, x: string, after: Pool)
    requires forall k :: k in after.vals <==> k in s.pool.vals && !Spells(s.pool.vals[k].op, addr)
    requires forall k :: k in after.vals ==> after.vals[k] == s.pool.vals[k]
    ensures |SenderKeys(after, x)| == 0 <==>
            forall k :: k in s.pool.vals && Lower(s.pool.vals[k].op.sender) == x ==> Spells(s.pool.vals[k].op, addr)
  {
    if k :| k in s.pool.vals && Lower(s.pool.vals[k].op.sender) == x && !Spells(s.pool.vals[k].op, addr) {
      assert k in SenderKeys(after, x);
    } else {
      assert SenderKeys(after, x) == {};
    }
  }

  // ---------- fees ----------

  function Pow(b: nat, k: nat): nat { if k == 0 then 1 else b * Pow(b, k - 1) }

  predicate Occupied(s: State, op: UserOp) { FindBySenderNonce(op, s.pool).Some? }

  /** How many accepted adds of the run replaced the entry in the slot of `op`. */
  function Replacements(cfg: Config, s: State, actions: seq<Action>, op: UserOp): nat {
    if actions == [] then 0
    else
      var n := |actions| - 1;
      Replacements(cfg, s, actions[..n], op) + Bumps(cfg, Run(cfg, s, actions[..n]), actions[n], op)
  }

  lemma FindIs(op: UserOp, pool: Pool, e: Entry)
    requires Keyed(pool) && OneEntryPerSlot(pool)
    requires e.hash in pool.vals && pool.vals[e.hash] == e && SameSlot(e.op, op)
    ensures FindBySenderNonce(op, pool) == Some(e)
  {
    FindMeans(op, pool);
    var f := FindBySenderNonce(op, pool);
    assert f.Some?;
    assert SameSlot(pool.vals[f.value.hash].op, pool.vals[e.hash].op);
  }

  /** Unless it is replaced, the entry of a slot stays the same up to its status. */
  lemma SlotKept(before: Pool, after: Pool, op: UserOp, now: Entry)
    requires Keyed(before) && OneEntryPerSlot(before) && Keyed(after)
    requires FindBySenderNonce(op, after) == Some(now)
    requires now.hash in before.vals && before.vals[now.hash].op == now.op
    ensures FindBySenderNonce(op, before).Some? && FindBySenderNonce(op, before).value.op == now.op
  {
    FindMeans(op, after);
    FindIs(op, before, before.vals[now.hash]);
  }

  /** Both fees of the entry in the slot of `op`. */
  function FeesIn(s: State, op: UserOp): (nat, nat)
    requires Occupied(s, op)
  {
    var e := FindBySenderNonce(op, s.pool).value;
    (e.op.maxFeePerGas, e.op.maxPriorityFeePerGas)
  }

  /** 1 when the action replaces the entry in the slot of `op`, else 0. */
  function Bumps(cfg: Config, s: State, a: Action, op: UserOp): nat {
    if Accepted(cfg, s, a) && SameSlot(a.p.op, op) then 1 else 0
  }

  predicate Raised(bumps: nat, was: (nat, nat), now: (nat, nat)) {
    if bumps == 0 then now == was else 10 * now.0 >= 11 * was.0 && 10 * now.1 >= 11 * was.1
  }

  lemma SlotStep(cfg: Config, s: State, a: Action, op: UserOp)
    requires Inv(s) && Occupied(s, op) && Occupied(Step(cfg, s, a), op)
    ensures Raised(Bumps(cfg, s, a, op), FeesIn(s, op), FeesIn(Step(cfg, s, a), op))
  {
    InvStep(cfg, s, a);
    var after := Step(cfg, s, a).pool;
    var was, now := FindBySenderNonce(op, s.pool).value, FindBySenderNonce(op, after).value;
    FindMeans(op, s.pool);
    FindMeans(op, after);
    if Accepted(cfg, s, a) {
      AddMeans(cfg, s, a);
      SlotInserted(s.pool, after, EntryFor(a.p), Replaced(s, a.p), op, was, now);
      if SameSlot(a.p.op, op) { ReplaceRaisesFees(cfg, s, a.p, was); }
    } else if a.Add? {
      RejectedChangesNothing(cfg, s, a);
    } else {
      OthersNarrow(cfg, s, a);
      SlotKept(s.pool, after, op, now);
    }
  }

  lemma ReplaceRaisesFees(cfg: Config, s: State, p: AddParams, was: Entry)
    requires CheckAdd(cfg, s, p).None? && Replaced(s, p) == Some(was)
    ensures 10 * p.op.maxFeePerGas >= 11 * was.op.maxFeePerGas
    ensures 10 * p.op.maxPriorityFeePerGas >= 11 * was.op.maxPriorityFeePerGas
  {
  }

  lemma SlotInserted(before: Pool, after: Pool, e: Entry, replaced: Option<Entry>, op: UserOp, was: Entry, now: Entry)
    requires Keyed(before) && OneEntryPerSlot(before) && Keyed(after) && OneEntryPerSlot(after)
    requires Inserted(before, after, e, replaced)
    requires was.hash in before.vals && before.vals[was.hash] == was && SameSlot(was.op, op)
    requires FindBySenderNonce(op, after) == Some(now) && FindBySenderNonce(op, before) == Some(was)
    ensures if SameSlot(e.op, op) then now == e && replaced == Some(was) else now.op == was.op
  {
    FindMeans(op, after);
    if SameSlot(e.op, op) {
      FindIs(op, after, e);
      assert replaced.Some?;
      assert SameSlot(was.op, before.vals[replaced.value.hash].op);
    } else {
      SlotKept(before, after, op, now);
    }
  }

  /** 10 to the k times x, and 11 to the k times x, without a product of variables. */
  function Tens(k: nat, x: nat): nat { if k == 0 then x else 10 * Tens(k - 1, x) }

  function Elevens(k: nat, x: nat): nat { if k == 0 then x else 11 * Elevens(k - 1, x) }

  lemma {:induction false} ScaledByPow(k: nat, x: nat)
    ensures Tens(k, x) == Pow(10, k) * x && Elevens(k, x) == Pow(11, k) * x
  {
    if k > 0 { ScaledByPow(k - 1, x); }
  }

  lemma {:induction false} TensGrow(k: nat, mid: nat, top: nat)
    requires 10 * top >= 11 * mid
    ensures 10 * Tens(k, top) >= 11 * Tens(k, mid)
  {
    if k > 0 { TensGrow(k - 1, mid, top); }
  }

  /** The slot of `op` is taken in every state of the run. */
  predicate StaysOccupied(cfg: Config, s: State, actions: seq<Action>, op: UserOp) {
    Occupied(Run(cfg, s, actions), op) && (actions != [] ==> StaysOccupied(cfg, s, actions[..|actions| - 1], op))
  }

  predicate Grown(k: nat, was: (nat, nat), now: (nat, nat)) {
    Tens(k, now.0) >= Elevens(k, was.0) && Tens(k, now.1) >= Elevens(k, was.1)
  }

  lemma GrowOnce(k: nat, bumps: nat, was: (nat, nat), mid: (nat, nat), now: (nat, nat))
    requires Grown(k, was, mid) && Raised(bumps, mid, now) && bumps <= 1
    ensures Grown(k + bumps, was, now)
  {
    if bumps == 1 {
      TensGrow(k, mid.0, now.0);
      TensGrow(k, mid.1, now.1);
    }
  }

  /** The fees of a slot before a run and after each of its steps, with the number of replacements in each step. */
  datatype History = Origin(fees: (nat, nat)) | After(earlier: History, bumps: nat, fees: (nat, nat))
  {
    predicate Valid() { After? ==> bumps <= 1 && Raised(bumps, earlier.fees, fees) && earlier.Valid() }

    function First(): (nat, nat) { if Origin? then fees else earlier.First() }

    function Total(): nat { if Origin? then 0 else earlier.Total() + bumps }
  }

  lemma {:induction false} HistoryGrows(h: History)
    requires h.Valid()
    ensures Grown(h.Total(), h.First(), h.fees)
  {
    if h.After? {
      HistoryGrows(h.earlier);
      GrowOnce(h.earlier.Total(), h.bumps, h.First(), h.earlier.fees, h.fees);
    }
  }

  /** `SlotStep`, as one more step of a history. */
  lemma HistoryStep(cfg: Config, t: State, a: Action, u: State, op: UserOp, h: History) returns (g: History)
    requires Inv(t) && Occupied(t, op) && u == Step(cfg, t, a) && Occupied(u, op) && h.Valid() && h.fees == FeesIn(t, op)
    ensures g.Valid() && g.First() == h.First() && g.Total() == h.Total() + Bumps(cfg, t, a, op) && g.fees == FeesIn(u, op)
  {
    SlotStep(cfg, t, a, op);
    g := After(h, Bumps(cfg, t, a, op), FeesIn(u, op));
  }

  lemma {:induction false} FeesHistory(cfg: Config, s: State, actions: seq<Action>, op: UserOp, t: State) returns (h: History)
    requires Inv(s) && StaysOccupied(cfg, s, actions, op) && t == Run(cfg, s, actions)
    ensures Occupied(s, op) && Occupied(t, op)
    ensures h.Valid() && h.Total() == Replacements(cfg, s, actions, op)
    ensures h.First() == FeesIn(s, op) && h.fees == FeesIn(t, op)
    decreases actions
  {
    if actions == [] {
      h := Origin(FeesIn(s, op));
    } else {
      var n := |actions| - 1;
      var before := Run(cfg, s, actions[..n]);
      h := FeesHistory(cfg, s, actions[..n], op, before);
      RunInv(cfg, s, actions[..n]);
      h := HistoryStep(cfg, before, actions[n], t, op, h);
    }
  }

  /** k replacements of a slot that stays occupied multiply both fees by at least 1.1 to the k. */
  lemma FeesCompound(cfg: Config, s: State, actions: seq<Action>, op: UserOp)
    requires Inv(s) && StaysOccupied(cfg, s, actions, op)
    ensures Occupied(s, op) && Occupied(Run(cfg, s, actions), op)
    ensures var k, was, now := Replacements(cfg, s, actions, op), FeesIn(s, op), FeesIn(Run(cfg, s, actions), op);
            && Pow(10, k) * now.0 >= Pow(11, k) * was.0
            && Pow(10, k) * now.1 >= Pow(11, k) * was.1
  {
    var h := FeesHistory(cfg, s, actions, op, Run(cfg, s, actions));
    HistoryGrows(h);
    var k, was, now := h.Total(), h.First(), h.fees;
    ScaledByPow(k, now.0);
    ScaledByPow(k, now.1);
    ScaledByPow(k, was.0);
    ScaledByPow(k, was.1);
  }
}
