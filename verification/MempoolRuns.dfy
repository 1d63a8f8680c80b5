/** Role separation, exclusive hand-out and lasting bans over whole runs of the mempool. */
module MempoolRuns {
  import opened Common
  import opened Addresses
  import opened UserOps
  import opened OrderedRecord
  import opened Reputation
  import opened Mempool
  import opened MempoolInvariants

  // ---------- STO-040: no sender of one entry is the paymaster or factory of another ----------

  /** The paymaster or factory of `op` is `x` up to case; "0x" and the empty string stand for none. */
  predicate Employs(op: UserOp, x: string) {
    || (Names(op.paymaster, x) && op.paymaster != Some("") && op.paymaster != Some("0x"))
    || (Names(op.factory, x) && op.factory != Some("") && op.factory != Some("0x"))
  }

  lemma EntitiesAre(op: UserOp, x: string)
    ensures x in Entities(op) <==> Employs(op, x)
  {
  }

  ghost predicate Separated(pool: Pool) {
    forall j, k :: j in pool.vals && k in pool.vals && j != k ==> !Employs(pool.vals[k].op, Lower(pool.vals[j].op.sender))
  }

  /** No entry but the one that is replaced and the one whose key is taken over is sent by an entity of `op`. */
  ghost predicate SendersApart(pool: Pool, replaced: string, taken: string, op: UserOp) {
    forall k :: k in pool.vals && k != replaced && k != taken ==> !Employs(op, Lower(pool.vals[k].op.sender))
  }

  ghost predicate EntitiesApart(pool: Pool, op: UserOp) {
    forall k :: k in pool.vals ==> !Employs(pool.vals[k].op, Lower(op.sender))
  }

  /** STO-040 and STO-041: the sender is no entity of another entry, and paymaster and factory are no senders. */
  ghost predicate RolesApart(pool: Pool, op: UserOp) {
    forall k :: k in pool.vals ==>
      && !Employs(pool.vals[k].op, Lower(op.sender))
      && Lower(pool.vals[k].op.sender) != Lower(op.paymaster.GetOr(""))
      && Lower(pool.vals[k].op.sender) != Lower(op.factory.GetOr(""))
  }

  lemma KnownSendersAre(pool: Pool, y: string)
    ensures y in KnownSenders(pool) <==> exists k :: k in pool.vals && Lower(pool.vals[k].op.sender) == y
  {
    var es := Values(pool);
    if k :| k in pool.vals && Lower(pool.vals[k].op.sender) == y {
      ValuesAreVals(pool, pool.vals[k]);
      var i :| 0 <= i < |es| && es[i] == pool.vals[k];
      assert KnownSenders(pool)[i] == Lower(es[i].op.sender);
    } else if y in KnownSenders(pool) {
      var i :| 0 <= i < |KnownSenders(pool)| && KnownSenders(pool)[i] == y;
      ValuesAreVals(pool, es[i]);
    }
  }

  lemma RolesApartIff(pool: Pool, op: UserOp)
    ensures CheckMultipleRoles(op, KnownEntities(pool), KnownSenders(pool)).None? <==> RolesApart(pool, op)
  {
    hide KnownSenders, Entities, WellFormed;
    KnownSendersAre(pool, Lower(op.paymaster.GetOr("")));
    KnownSendersAre(pool, Lower(op.factory.GetOr("")));
    forall k | k in pool.vals ensures Lower(op.sender) in Entities(pool.vals[k].op) <==> Employs(pool.vals[k].op, Lower(op.sender)) {
      EntitiesAre(pool.vals[k].op, Lower(op.sender));
    }
    assert Lower(op.sender) in KnownEntities(pool) <==> exists k :: k in pool.vals && Lower(op.sender) in Entities(pool.vals[k].op);
  }

  lemma RolesChecked(s: State, op: UserOp)
    requires CheckMultipleRoles(op, KnownEntities(s.pool), KnownSenders(s.pool)).None?
    ensures EntitiesApart(s.pool, op)
    ensures forall k :: k in s.pool.vals ==> !Employs(op, Lower(s.pool.vals[k].op.sender))
  {
    hide CheckMultipleRoles, KnownEntities, KnownSenders;
    RolesApartIff(s.pool, op);
  }

  lemma NewEntrySeparated(before: Pool, after: Pool, e: Entry)
    requires Separated(before) && Inserted(before, after, e, None)
    requires EntitiesApart(before, e.op)
    requires forall k :: k in before.vals ==> !Employs(e.op, Lower(before.vals[k].op.sender))
    ensures Separated(after)
  {
  }

  /** The replacement path runs no role check. It keeps the separation exactly when the check would have passed on the
      other entries: none of them is sent by the paymaster or the factory of the new op. */
  lemma ReplacementSeparated(before: Pool, after: Pool, e: Entry, was: Entry)
    requires Keyed(before) && Separated(before) && Inserted(before, after, e, Some(was))
    ensures Separated(after) <==> SendersApart(before, was.hash, e.hash, e.op)
  {
    if SendersApart(before, was.hash, e.hash, e.op) {
      forall j, k | j in after.vals && k in after.vals && j != k
        ensures !Employs(after.vals[k].op, Lower(after.vals[j].op.sender))
      {
        if j == e.hash { assert k in before.vals && k != was.hash; }
      }
    }
    if Separated(after) {
      forall k | k in before.vals && k != was.hash && k != e.hash ensures !Employs(e.op, Lower(before.vals[k].op.sender)) {
        assert after.vals[e.hash] == e && k in after.vals;
      }
    }
  }

  lemma NarrowedSeparated(before: Pool, after: Pool)
    requires Separated(before) && Narrows(before, after)
    ensures Separated(after)
  {
  }

  /** In this state, the action is no accepted replacement that fails the role check on the other entries. */
  ghost predicate PassesRoles(cfg: Config, s: State, a: Action) {
    Accepted(cfg, s, a) && Replaced(s, a.p).Some? ==> SendersApart(s.pool, Replaced(s, a.p).value.hash, a.p.hash, a.p.op)
  }

  lemma NewAddChecked(cfg: Config, s: State, p: AddParams)
    requires CheckAdd(cfg, s, p).None? && Replaced(s, p).None?
    ensures EntitiesApart(s.pool, p.op)
    ensures forall k :: k in s.pool.vals ==> !Employs(p.op, Lower(s.pool.vals[k].op.sender))
  {
    RolesChecked(s, p.op);
  }

  lemma AddSeparated(cfg: Config, s: State, a: Action)
    requires Inv(s) && Separated(s.pool) && Accepted(cfg, s, a)
    ensures Separated(Step(cfg, s, a).pool) <==> PassesRoles(cfg, s, a)
  {
    var after, was := Step(cfg, s, a).pool, Replaced(s, a.p);
    hide Step, CheckAdd, Separated, SendersApart;
    AddMeans(cfg, s, a);
    if was.None? {
      NewAddChecked(cfg, s, a.p);
      NewEntrySeparated(s.pool, after, EntryFor(a.p));
    } else {
      ReplacementSeparated(s.pool, after, EntryFor(a.p), was.value);
    }
  }

  /** One step ends the separation exactly when it is a replacement that fails the skipped check. */
  lemma SeparatedStepIff(cfg: Config, s: State, a: Action)
    requires Inv(s) && Separated(s.pool)
    ensures Separated(Step(cfg, s, a).pool) <==> PassesRoles(cfg, s, a)
  {
    if Accepted(cfg, s, a) {
      AddSeparated(cfg, s, a);
    } else if a.Add? {
      RejectedChangesNothing(cfg, s, a);
    } else {
      OthersNarrow(cfg, s, a);
      NarrowedSeparated(s.pool, Step(cfg, s, a).pool);
    }
  }

  /** Roles are separated before, during and after the run. */
  ghost predicate SeparatedThroughout(cfg: Config, s: State, actions: seq<Action>) {
    Separated(Run(cfg, s, actions).pool) && (actions != [] ==> SeparatedThroughout(cfg, s, actions[..|actions| - 1]))
  }

  ghost predicate RunPassesRoles(cfg: Config, s: State, actions: seq<Action>) {
    actions != [] ==>
      var n := |actions| - 1;
      RunPassesRoles(cfg, s, actions[..n]) && PassesRoles(cfg, Run(cfg, s, actions[..n]), actions[n])
  }

  /** STO-040 holds throughout a run exactly when every accepted replacement of the run would have passed the role check. */
  lemma {:induction false} RunSeparated(cfg: Config, s: State, actions: seq<Action>)
    requires Inv(s) && Separated(s.pool)
    ensures SeparatedThroughout(cfg, s, actions) <==> RunPassesRoles(cfg, s, actions)
  {
    hide Step, Separated, PassesRoles;
    if actions != [] {
      var n := |actions| - 1;
      RunSeparated(cfg, s, actions[..n]);
      RunInv(cfg, s, actions[..n]);
      if SeparatedThroughout(cfg, s, actions[..n]) { SeparatedStepIff(cfg, Run(cfg, s, actions[..n]), actions[n]); }
    }
  }

  /** A replacement that brings no new paymaster or factory passes. */
  lemma NarrowerPasses(cfg: Config, s: State, a: Action)
    requires Inv(s) && Separated(s.pool) && Accepted(cfg, s, a) && Replaced(s, a.p).Some?
    requires Entities(a.p.op) <= Entities(Replaced(s, a.p).value.op)
    ensures PassesRoles(cfg, s, a)
  {
    hide CheckAdd;
    FindMeans(a.p.op, s.pool);
  }

  // ---------- exclusive hand-out ----------

  function Given(cfg: Config, s: State, a: Action): seq<Entry> {
    if a.HandOut? then HandedOut(cfg, s, a.all) else []
  }

  /** The action puts the entry with hash `h` back to pending, or adds it (again). */
  predicate Returns(cfg: Config, s: State, a: Action, h: string) {
    match a
    case Add(p) => CheckAdd(cfg, s, p).None? && p.hash == h
    case SetStatus(ref, st) => st == Pending && Resolve(ref, s.pool).Some? && Resolve(ref, s.pool).value.hash == h
    case _ => false
  }

  predicate IsPending(pool: Pool, h: string) { h in pool.vals && pool.vals[h].status == Pending }

  function PendingOf(es: seq<Entry>): seq<Entry> {
    if es == [] then [] else (if es[0].status == Pending then [es[0]] else []) + PendingOf(es[1..])
  }

  /** Hand-out is first in, first out: the pending entries in insertion order, up to the limit. */
  lemma {:induction false} FirstPendingIsPrefix(es: seq<Entry>, n: nat)
    ensures FirstPending(es, n) == if |PendingOf(es)| <= n then PendingOf(es) else PendingOf(es)[..n]
  {
    if es != [] && n > 0 {
      var rest := PendingOf(es[1..]);
      if es[0].status == Pending {
        FirstPendingIsPrefix(es[1..], n - 1);
        assert PendingOf(es) == [es[0]] + rest;
        if |rest| >= n { assert ([es[0]] + rest)[..n] == [es[0]] + rest[..n - 1]; }
      } else {
        FirstPendingIsPrefix(es[1..], n);
        assert PendingOf(es) == [] + rest == rest;
      }
    }
  }

  lemma {:induction false} PendingOfMeans(es: seq<Entry>, e: Entry)
    ensures e in PendingOf(es) <==> e in es && e.status == Pending
  {
    if es != [] {
      PendingOfMeans(es[1..], e);
      assert es == [es[0]] + es[1..];
    }
  }

  lemma {:induction false} PendingOfSize(es: seq<Entry>)
    ensures |PendingOf(es)| <= |es|
  {
    if es != [] { PendingOfSize(es[1..]); }
  }

  /** A forced hand-out gives every pending entry, any other one the first pending entries up to the bundle size. */
  lemma HandOutMeans(cfg: Config, s: State)
    ensures HandedOut(cfg, s, true) == PendingOf(Values(s.pool))
    ensures var pending := PendingOf(Values(s.pool));
            HandedOut(cfg, s, false) == if |pending| <= cfg.bundleSize then pending else pending[..cfg.bundleSize]
  {
    FirstPendingIsPrefix(Values(s.pool), |s.pool.keys|);
    FirstPendingIsPrefix(Values(s.pool), cfg.bundleSize);
    PendingOfSize(Values(s.pool));
  }

  lemma GivenWerePending(cfg: Config, s: State, a: Action, e: Entry)
    requires Keyed(s.pool) && e in Given(cfg, s, a)
    ensures e.hash in s.pool.vals && s.pool.vals[e.hash] == e && e.status == Pending
  {
    var es := Values(s.pool);
    var n := if a.all then |s.pool.keys| else cfg.bundleSize;
    FirstPendingIsPrefix(es, n);
    assert e in PendingOf(es);
    PendingOfMeans(es, e);
    ValuesAreVals(s.pool, e);
  }

  /** After a hand-out the entries given are no longer pending, and all others keep their status. */
  lemma GivenAreMarked(cfg: Config, s: State, a: Action, h: string)
    requires Keyed(s.pool) && a.HandOut?
    ensures IsPending(Step(cfg, s, a).pool, h) <==> IsPending(s.pool, h) && h !in Hashes(Given(cfg, s, a))
  {
    MarkMeans(s.pool, Given(cfg, s, a));
  }

  lemma NotPendingStep(cfg: Config, s: State, a: Action, h: string)
    requires Inv(s) && !IsPending(s.pool, h) && !Returns(cfg, s, a, h)
    ensures !IsPending(Step(cfg, s, a).pool, h)
  {
    match a
    case Add(p) =>
      if Accepted(cfg, s, a) { AddMeans(cfg, s, a); } else { RejectedChangesNothing(cfg, s, a); }
    case SetStatus(ref, st) => if Resolve(ref, s.pool).Some? { ResolveMeans(ref, s.pool); }
    case HandOut(all) => GivenAreMarked(cfg, s, a, h);
    case BanSweep(addr) => SweepRemovesExactly(s, addr);
    case Remove(ref) =>
    case Clear =>
    case Rep(e) =>
  }

  /** Some step of the run returns `h`. */
  predicate SomeStepReturns(cfg: Config, s: State, actions: seq<Action>, h: string) {
    actions != [] &&
      var n := |actions| - 1;
      SomeStepReturns(cfg, s, actions[..n], h) || Returns(cfg, Run(cfg, s, actions[..n]), actions[n], h)
  }

  lemma {:induction false} StaysOut(cfg: Config, s: State, actions: seq<Action>, h: string)
    requires Inv(s) && !IsPending(s.pool, h)
    ensures IsPending(Run(cfg, s, actions).pool, h) ==> SomeStepReturns(cfg, s, actions, h)
  {
    if actions != [] {
      var n := |actions| - 1;
      StaysOut(cfg, s, actions[..n], h);
      RunInv(cfg, s, actions[..n]);
      if !SomeStepReturns(cfg, s, actions, h) {
        NotPendingStep(cfg, Run(cfg, s, actions[..n]), actions[n], h);
      }
    }
  }

  /** No hash is handed out twice unless a step in between returns it to pending or adds it again. */
  lemma ExclusiveHandOut(cfg: Config, s: State, first: Action, between: seq<Action>, second: Action, h: string)
    requires Inv(s)
    requires h in Hashes(Given(cfg, s, first))
    requires h in Hashes(Given(cfg, Run(cfg, Step(cfg, s, first), between), second))
    ensures SomeStepReturns(cfg, Step(cfg, s, first), between, h)
  {
    var t := Step(cfg, s, first);
    var u := Run(cfg, t, between);
    InvStep(cfg, s, first);
    RunInv(cfg, t, between);
    GivenAreMarked(cfg, s, first, h);
    var e :| e in Given(cfg, u, second) && e.hash == h;
    GivenWerePending(cfg, u, second, e);
    StaysOut(cfg, t, between, h);
  }

  // ---------- bans ----------

  /** `op` names `addr` (given in lower case) up to case. */
  predicate Mentions(op: UserOp, addr: string) {
    Lower(op.sender) == addr || Names(op.paymaster, addr) || Names(op.factory, addr)
  }

  ghost predicate FreeOf(pool: Pool, addr: string) { forall k :: k in pool.vals ==> !Mentions(pool.vals[k].op, addr) }

  /** The processor counts the failed op's entities down before it sweeps. */
  function CountedDown(cfg: Config, s: State, failed: UserOp): State {
    var s1 := Step(cfg, s, Rep(Seen(Some(failed.sender), false)));
    var s2 := Step(cfg, s1, Rep(Seen(failed.paymaster, false)));
    Step(cfg, s2, Rep(Seen(failed.factory, false)))
  }

  /** What the processor's failure hook does once an entity is to blame: count down, sweep, ban, remove. */
  function AfterBlame(cfg: Config, s: State, failed: UserOp, addr: string): State {
    var swept := Step(cfg, CountedDown(cfg, s, failed), BanSweep(addr));
    var banned := Step(cfg, swept, Rep(Crashed(addr)));
    Step(cfg, banned, Remove(ByOp(failed)))
  }

  lemma RepStep(cfg: Config, s: State, e: Event)
    ensures Step(cfg, s, Rep(e)) == s.(book := Apply(s.book, e))
  {
    assert ApplyAll(s.book, [e]) == ApplyAll(Apply(s.book, e), [e][1..]);
  }

  function CountedDownBook(b: Book, failed: UserOp): Book {
    Apply(Apply(Apply(b, Seen(Some(failed.sender), false)), Seen(failed.paymaster, false)), Seen(failed.factory, false))
  }

  lemma CountedDownIs(cfg: Config, s: State, failed: UserOp)
    ensures CountedDown(cfg, s, failed) == s.(book := CountedDownBook(s.book, failed))
  {
    var s1 := Step(cfg, s, Rep(Seen(Some(failed.sender), false)));
    RepStep(cfg, s, Seen(Some(failed.sender), false));
    var s2 := Step(cfg, s1, Rep(Seen(failed.paymaster, false)));
    RepStep(cfg, s1, Seen(failed.paymaster, false));
    RepStep(cfg, s2, Seen(failed.factory, false));
  }

  /** In how many of its three roles an op names `x`. */
  function RolesNaming(op: UserOp, x: string): nat {
    (if Lower(op.sender) == x then 1 else 0) + (if Names(op.paymaster, x) then 1 else 0) + if Names(op.factory, x) then 1 else 0
  }

  lemma SeenOnce(b: Book, target: Option<string>, up: bool, x: string)
    requires Folded(x) && x != "" && EntryOf(b, x).opsSeen >= 0
    ensures var was, now := EntryOf(b, x), EntryOf(Apply(b, Seen(target, up)), x);
            && now.opsIncluded == was.opsIncluded
            && now.opsSeen == if !Names(target, x) then was.opsSeen else if up then was.opsSeen + 1 else Max0(was.opsSeen - 1)
  {
  }

  /** What the failure hook does to the reputation: the failed op is unseen once in each of its roles, never below zero,
      and the blamed address is then charged 10000 sightings and loses its inclusions. */
  lemma BlamedReputation(cfg: Config, s: State, failed: UserOp, addr: string, x: string)
    requires Folded(x) && x != "" && EntryOf(s.book, x).opsSeen >= 0
    ensures var was, now := EntryOf(s.book, x), EntryOf(AfterBlame(cfg, s, failed, addr).book, x);
            && now.opsSeen == Max0(was.opsSeen - RolesNaming(failed, x)) + (if Lower(addr) == x then 10000 else 0)
            && now.opsIncluded == if Lower(addr) == x then 0 else was.opsIncluded
  {
    hide AfterBlame, Lower;
    BlameParts(cfg, s, failed, addr);
    var b1 := Apply(s.book, Seen(Some(failed.sender), false));
    var b2 := Apply(b1, Seen(failed.paymaster, false));
    SeenOnce(s.book, Some(failed.sender), false, x);
    SeenOnce(b1, failed.paymaster, false, x);
    SeenOnce(b2, failed.factory, false, x);
  }

  lemma SweepStep(cfg: Config, s: State, addr: string)
    ensures Step(cfg, s, BanSweep(addr)) == State(Sweep(s, addr).0, Sweep(s, addr).1, s.book)
  {
  }

  lemma RemoveStep(cfg: Config, s: State, ref: Ref)
    ensures Step(cfg, s, Remove(ref)) == State(RemoveEntry(s, ref).0, RemoveEntry(s, ref).1, s.book)
  {
  }

  lemma BlameParts(cfg: Config, s: State, failed: UserOp, addr: string)
    ensures var t, swept := AfterBlame(cfg, s, failed, addr), Sweep(s, addr);
            && t.book == Apply(CountedDownBook(s.book, failed), Crashed(addr))
            && t.pool == RemoveEntry(State(swept.0, swept.1, t.book), ByOp(failed)).0
  {
    var down := CountedDown(cfg, s, failed);
    CountedDownIs(cfg, s, failed);
    SweepStep(cfg, down, addr);
    var swept := Step(cfg, down, BanSweep(addr));
    RepStep(cfg, swept, Crashed(addr));
    RemoveStep(cfg, swept.(book := Apply(swept.book, Crashed(addr))), ByOp(failed));
  }

  lemma RemovesSlot(s: State, op: UserOp)
    requires Keyed(s.pool) && OneEntryPerSlot(s.pool)
    ensures var after := RemoveEntry(s, ByOp(op)).0;
            && (forall k :: k in after.vals <==> k in s.pool.vals && !SameSlot(s.pool.vals[k].op, op))
            && (forall k :: k in after.vals ==> after.vals[k] == s.pool.vals[k])
  {
    FindMeans(op, s.pool);
    match FindBySenderNonce(op, s.pool)
    case None =>
    case Some(e) =>
      forall k | k in s.pool.vals && SameSlot(s.pool.vals[k].op, op) ensures k == e.hash {
        assert SameSlot(s.pool.vals[k].op, s.pool.vals[e.hash].op);
      }
  }

  /** The pool after the hook: what neither spells the address nor shares the slot of the failed op. */
  lemma BlamedPool(cfg: Config, s: State, failed: UserOp, addr: string)
    requires Inv(s)
    ensures var after := AfterBlame(cfg, s, failed, addr).pool;
            && (forall k :: k in after.vals <==>
                            k in s.pool.vals && !Spells(s.pool.vals[k].op, addr) && !SameSlot(s.pool.vals[k].op, failed))
            && (forall k :: k in after.vals ==> after.vals[k] == s.pool.vals[k])
  {
    BlameParts(cfg, s, failed, addr);
    SweepRemovesExactly(s, addr);
    RemovesSlot(State(Sweep(s, addr).0, Sweep(s, addr).1, AfterBlame(cfg, s, failed, addr).book), failed);
  }

  /** A ban is complete, up to case, exactly when every pool entry that mentions the address up to case either spells
      it the way the blame does or shares the slot of the failed op. */
  lemma BanIsComplete(cfg: Config, s: State, failed: UserOp, addr: string)
    requires Inv(s)
    ensures forall k :: k in AfterBlame(cfg, s, failed, addr).pool.vals ==> !Spells(AfterBlame(cfg, s, failed, addr).pool.vals[k].op, addr)
    ensures FreeOf(AfterBlame(cfg, s, failed, addr).pool, Lower(addr)) <==>
            forall k :: k in s.pool.vals && Mentions(s.pool.vals[k].op, Lower(addr)) ==>
              Spells(s.pool.vals[k].op, addr) || SameSlot(s.pool.vals[k].op, failed)
  {
    BlamedPool(cfg, s, failed, addr);
  }

  /** Validation reports the stake of every entity of the op under the entity's own address;
      the EIP-7702 marker in the place of a factory has no stake to report. */
  predicate Described(p: AddParams) {
    && Lower(p.sender.addr) == Lower(p.op.sender)
    && (p.op.paymaster.Some? ==> p.paymaster.Some? && Lower(p.paymaster.value.addr) == Lower(p.op.paymaster.value))
    && (p.op.factory.Some? && p.op.factory.value != "0x7702" ==>
          p.factory.Some? && Lower(p.factory.value.addr) == Lower(p.op.factory.value))
  }

  /** Every add of the run is described by validation. */
  predicate AllDescribed(actions: seq<Action>) { forall a :: a in actions && a.Add? ==> Described(a.p) }

  /** The action is no accepted replacement that names `addr`. */
  predicate Harmless(cfg: Config, s: State, a: Action, addr: string) {
    Accepted(cfg, s, a) && Replaced(s, a.p).Some? ==> !Mentions(a.p.op, addr)
  }

  lemma StatusFolds(b: Book, x: string, addr: string)
    requires Lower(x) == addr
    ensures GetStatus(b, Some(x)) == GetStatus(b, Some(addr))
  {
    LowerIsFolded(x);
  }

  lemma BannedAddRejected(cfg: Config, s: State, p: AddParams, addr: string)
    requires Folded(addr) && addr != "0x7702" && GetStatus(s.book, Some(addr)) == BANNED
    requires Described(p) && Mentions(p.op, addr) && Replaced(s, p).None?
    ensures CheckAdd(cfg, s, p).Some?
  {
    if Lower(p.op.sender) == addr {
      StatusFolds(s.book, p.sender.addr, addr);
      assert CheckBanned(s.book, Account, p.sender).Some?;
    } else if Names(p.op.paymaster, addr) {
      StatusFolds(s.book, p.paymaster.value.addr, addr);
      assert CheckBanned(s.book, PaymasterRole, p.paymaster.value).Some?;
    } else {
      assert Lower("0x7702") == "0x7702";
      StatusFolds(s.book, p.factory.value.addr, addr);
      assert CheckBanned(s.book, Deployer, p.factory.value).Some?;
    }
  }

  /** An op that mentions a banned address is accepted exactly when it replaces an entry and pays for that. */
  lemma BannedAddIff(cfg: Config, s: State, p: AddParams, addr: string)
    requires Folded(addr) && addr != "0x7702" && GetStatus(s.book, Some(addr)) == BANNED
    requires Described(p) && Mentions(p.op, addr)
    ensures CheckAdd(cfg, s, p).None? <==>
            p.depositOk && Replaced(s, p).Some? && CheckReplace(p.op, Replaced(s, p).value.op).None?
  {
    if Replaced(s, p).None? { BannedAddRejected(cfg, s, p, addr); }
  }

  lemma InsertedFreeIff(before: Pool, after: Pool, e: Entry, was: Option<Entry>, addr: string)
    requires Inserted(before, after, e, was) && FreeOf(before, addr)
    ensures FreeOf(after, addr) <==> !Mentions(e.op, addr)
  {
    assert after.vals[e.hash] == e;
  }

  /** One step lets a banned address back into the pool exactly when it is a replacement that names it. */
  lemma FreeStepIff(cfg: Config, s: State, a: Action, addr: string)
    requires Inv(s) && Folded(addr) && addr != "0x7702" && GetStatus(s.book, Some(addr)) == BANNED
    requires FreeOf(s.pool, addr) && (a.Add? ==> Described(a.p))
    ensures FreeOf(Step(cfg, s, a).pool, addr) <==> Harmless(cfg, s, a, addr)
  {
    if Accepted(cfg, s, a) {
      AddMeans(cfg, s, a);
      InsertedFreeIff(s.pool, Step(cfg, s, a).pool, EntryFor(a.p), Replaced(s, a.p), addr);
      if Mentions(a.p.op, addr) { BannedAddIff(cfg, s, a.p, addr); }
    } else if a.Add? {
      RejectedChangesNothing(cfg, s, a);
    } else {
      OthersNarrow(cfg, s, a);
    }
  }

  /** No entry mentions `addr` before, during or after the run. */
  ghost predicate FreeThroughout(cfg: Config, s: State, actions: seq<Action>, addr: string) {
    FreeOf(Run(cfg, s, actions).pool, addr) && (actions != [] ==> FreeThroughout(cfg, s, actions[..|actions| - 1], addr))
  }

  predicate RunHarmless(cfg: Config, s: State, actions: seq<Action>, addr: string) {
    actions != [] ==>
      var n := |actions| - 1;
      RunHarmless(cfg, s, actions[..n], addr) && Harmless(cfg, Run(cfg, s, actions[..n]), actions[n], addr)
  }

  lemma {:induction false} RunBook(cfg: Config, s: State, actions: seq<Action>)
    ensures Run(cfg, s, actions).book == ApplyAll(s.book, Log(cfg, s, actions))
  {
    if actions != [] {
      var n := |actions| - 1;
      RunBook(cfg, s, actions[..n]);
      ApplyAllConcat(s.book, Log(cfg, s, actions[..n]), Events(cfg, Run(cfg, s, actions[..n]), actions[n]));
    }
  }

  lemma {:induction false} CountsConcat(es: seq<Event>, fs: seq<Event>, addr: string)
    ensures Inclusions(es + fs, addr) == Inclusions(es, addr) + Inclusions(fs, addr)
    ensures Decrements(es + fs, addr) == Decrements(es, addr) + Decrements(fs, addr)
  {
    if es == [] {
      assert es + fs == fs;
    } else {
      assert (es + fs)[1..] == es[1..] + fs;
      CountsConcat(es[1..], fs, addr);
    }
  }

  /** The log of a run leaves the ban of `addr` in force. */
  predicate WithinBan(log: seq<Event>, addr: string) {
    NoPardon(log, addr) && 10 * Inclusions(log, addr) + Decrements(log, addr) <= 9490
  }

  lemma WithinBanPrefix(es: seq<Event>, fs: seq<Event>, addr: string)
    requires WithinBan(es + fs, addr)
    ensures WithinBan(es, addr)
  {
    CountsConcat(es, fs, addr);
    assert forall e :: e in es ==> e in es + fs;
  }

  /** A ban lasts: from a state in which `addr` has just been banned, through every later run whose log has i inclusions
      and d decrements of it with 10 * i + d <= 9490 and no pardon, `addr` stays BANNED; and no entry comes to mention it
      exactly as long as no replacement names it. */
  lemma {:induction false} BanIsLasting(cfg: Config, s: State, b: Book, addr: string, actions: seq<Action>)
    requires Inv(s) && FreeOf(s.pool, addr) && Folded(addr) && addr != "0x7702"
    requires s.book == Apply(b, Crashed(addr)) && addr !in b.whiteList && EntryOf(b, addr).opsSeen >= 0
    requires AllDescribed(actions) && WithinBan(Log(cfg, s, actions), addr)
    ensures GetStatus(Run(cfg, s, actions).book, Some(addr)) == BANNED
    ensures FreeThroughout(cfg, s, actions, addr) <==> RunHarmless(cfg, s, actions, addr)
  {
    hide GetStatus, Step, FreeOf, Harmless;
    StaysBanned(cfg, s, b, addr, actions);
    if actions != [] {
      var n := |actions| - 1;
      WithinBanPrefix(Log(cfg, s, actions[..n]), Events(cfg, Run(cfg, s, actions[..n]), actions[n]), addr);
      assert forall a :: a in actions[..n] ==> a in actions;
      BanIsLasting(cfg, s, b, addr, actions[..n]);
      RunInv(cfg, s, actions[..n]);
      if FreeThroughout(cfg, s, actions[..n], addr) { FreeStepIff(cfg, Run(cfg, s, actions[..n]), actions[n], addr); }
    }
  }

  lemma StaysBanned(cfg: Config, s: State, b: Book, addr: string, actions: seq<Action>)
    requires Folded(addr) && s.book == Apply(b, Crashed(addr)) && addr !in b.whiteList && EntryOf(b, addr).opsSeen >= 0
    requires WithinBan(Log(cfg, s, actions), addr)
    ensures GetStatus(Run(cfg, s, actions).book, Some(addr)) == BANNED
  {
    RunBook(cfg, s, actions);
    BanLasts(b, addr, Log(cfg, s, actions));
  }

  lemma CountedDownKeeps(b: Book, failed: UserOp, addr: string)
    requires EntryOf(b, addr).opsSeen >= 0
    ensures CountedDownBook(b, failed).whiteList == b.whiteList && EntryOf(CountedDownBook(b, failed), addr).opsSeen >= 0
  {
  }

  /** The hook followed by any such run: banned at its end, and gone from the pool exactly as long as no replacement
      names the address. */
  lemma BlamedStaysOut(cfg: Config, s: State, failed: UserOp, addr: string, actions: seq<Action>)
    requires Inv(s) && Folded(addr) && addr != "0x7702" && addr !in s.book.whiteList && EntryOf(s.book, addr).opsSeen >= 0
    requires forall k :: k in s.pool.vals && Mentions(s.pool.vals[k].op, addr) ==>
               Spells(s.pool.vals[k].op, addr) || SameSlot(s.pool.vals[k].op, failed)
    requires AllDescribed(actions) && WithinBan(Log(cfg, AfterBlame(cfg, s, failed, addr), actions), addr)
    ensures GetStatus(Run(cfg, AfterBlame(cfg, s, failed, addr), actions).book, Some(addr)) == BANNED
    ensures FreeThroughout(cfg, AfterBlame(cfg, s, failed, addr), actions, addr)
       <==> RunHarmless(cfg, AfterBlame(cfg, s, failed, addr), actions, addr)
  {
    var t := AfterBlame(cfg, s, failed, addr);
    BlameParts(cfg, s, failed, addr);
    BlamedInv(cfg, s, failed, addr);
    BanIsComplete(cfg, s, failed, addr);
    CountedDownKeeps(s.book, failed, addr);
    BanIsLasting(cfg, t, CountedDownBook(s.book, failed), addr, actions);
  }

  lemma BlamedInv(cfg: Config, s: State, failed: UserOp, addr: string)
    requires Inv(s)
    ensures Inv(AfterBlame(cfg, s, failed, addr))
  {
    BlamedPool(cfg, s, failed, addr);
  }
}
