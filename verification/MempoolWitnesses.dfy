/** Short runs from the empty mempool in which a promise fails whose exact condition is proved elsewhere. */
module MempoolWitnesses {
  import opened Common
  import opened Addresses
  import opened UserOps
  import opened OrderedRecord
  import opened Reputation
  import opened Mempool
  import opened MempoolInvariants
  import opened MempoolRuns

  // ---------- adds that pass ----------

  const CFG := Config(Limits(1, 1), 10)

  /** An op without gas, at one price for both fees. */
  function Op(sender: string, nonce: int, paymaster: Option<string>, factory: Option<string>, fee: nat): UserOp {
    UserOp(sender, nonce, factory, paymaster, 0, fee, fee, None)
  }

  function StakedInfo(a: Option<string>): Option<StakeInfo> {
    if a.Some? then Some(StakeInfo(a.value, 1, 1)) else None
  }

  /** Validation reports an unstaked sender, and a staked paymaster and factory. */
  function Params(op: UserOp, hash: string): AddParams {
    AddParams(op, hash, StakeInfo(op.sender, 0, 0), StakedInfo(op.paymaster), StakedInfo(op.factory), None, true)
  }

  lemma ParamsDescribed(op: UserOp, hash: string)
    ensures Described(Params(op, hash))
  {
  }

  ghost predicate StatusOK(b: Book, a: Option<string>) { GetStatus(b, a) == OK }

  /** Nothing but the op itself decides about its add: the slot is free, the roles are apart, and nobody is throttled. */
  ghost predicate Welcome(s: State, op: UserOp) {
    && (forall k :: k in s.pool.vals ==>
          && !SameSlot(s.pool.vals[k].op, op)
          && Lower(op.sender) !in Entities(s.pool.vals[k].op)
          && Lower(s.pool.vals[k].op.sender) != Lower(op.paymaster.GetOr(""))
          && Lower(s.pool.vals[k].op.sender) != Lower(op.factory.GetOr("")))
    && StatusOK(s.book, Some(op.sender)) && StatusOK(s.book, op.paymaster) && StatusOK(s.book, op.factory)
    && CountAt(s.counts, Lower(op.sender)) < MAX_MEMPOOL_USEROPS_PER_SENDER
  }

  lemma RolesPass(s: State, op: UserOp)
    requires Welcome(s, op)
    ensures CheckMultipleRoles(op, KnownEntities(s.pool), KnownSenders(s.pool)).None?
  {
    var es := Values(s.pool);
    forall i | 0 <= i < |KnownSenders(s.pool)|
      ensures KnownSenders(s.pool)[i] != Lower(op.paymaster.GetOr("")) && KnownSenders(s.pool)[i] != Lower(op.factory.GetOr(""))
    {
      assert KnownSenders(s.pool)[i] == Lower(es[i].op.sender);
      ValuesAreVals(s.pool, es[i]);
    }
  }

  lemma ReputationPasses(s: State, op: UserOp, hash: string)
    requires Welcome(s, op)
    ensures CheckReputation(s.book, CFG.limits, s.counts, Params(op, hash)).None?
  {
    hide GetStatus;
    var p := Params(op, hash);
    assert CheckStake(s.book, CFG.limits, PaymasterRole, StakeInfo(op.paymaster.GetOr(""), 1, 1)).None? || op.paymaster.None?;
    assert CheckStake(s.book, CFG.limits, Deployer, StakeInfo(op.factory.GetOr(""), 1, 1)).None? || op.factory.None?;
  }

  /** The whole state after a welcome add. */
  lemma WelcomeAdd(s: State, op: UserOp, hash: string)
    requires Keyed(s.pool) && Welcome(s, op)
    ensures CheckAdd(CFG, s, Params(op, hash)).None? && Replaced(s, Params(op, hash)).None?
    ensures var t := Step(CFG, s, Add(Params(op, hash)));
            t.pool == Put(s.pool, hash, Entry(op, hash, Pending, None)) && t.counts == CountUp(s.counts, op)
            && t.book == ApplyAll(s.book, SeenOf(op.paymaster, true) + SeenOf(op.factory, true))
  {
    FindMeans(op, s.pool);
    RolesPass(s, op);
    ReputationPasses(s, op, hash);
    UnstakedEvents(s.book, op, true);
  }

  /** An unstaked sender is not counted as seen. */
  lemma UnstakedEvents(b: Book, op: UserOp, up: bool)
    ensures SeenEvents(b, CFG.limits, None, op, StakeInfo(op.sender, 0, 0), up) == SeenOf(op.paymaster, up) + SeenOf(op.factory, up)
  {
    assert CheckStake(b, CFG.limits, Account, StakeInfo(op.sender, 0, 0)).Some?;
    assert SeenOf(None, up) == [];
  }

  lemma RunSnoc(cfg: Config, s: State, actions: seq<Action>, a: Action)
    ensures Run(cfg, s, actions + [a]) == Step(cfg, Run(cfg, s, actions), a)
  {
    assert (actions + [a])[..|actions|] == actions;
  }

  /** Few sightings, and no list entries: nobody is throttled. */
  ghost predicate Calm(b: Book, k: nat) {
    b.whiteList == [] && b.blackList == [] && forall a :: a in b.entries ==> 0 <= b.entries[a].opsSeen <= k && b.entries[a].opsIncluded >= 0
  }

  lemma CalmIsOK(b: Book, k: nat, a: Option<string>)
    requires Calm(b, k) && k < 110
    ensures StatusOK(b, a)
  {
  }

  lemma CalmSeen(b: Book, k: nat, a: Option<string>, up: bool)
    requires Calm(b, k)
    ensures Calm(ApplyAll(b, SeenOf(a, up)), k + 1)
  {
    if Truthy(a) { assert [Seen(a, up)][1..] == []; }
  }

  lemma CalmAdd(b: Book, k: nat, op: UserOp)
    requires Calm(b, k)
    ensures Calm(ApplyAll(b, SeenOf(op.paymaster, true) + SeenOf(op.factory, true)), k + 2)
  {
    CalmSeen(b, k, op.paymaster, true);
    CalmSeen(ApplyAll(b, SeenOf(op.paymaster, true)), k + 1, op.factory, true);
    ApplyAllConcat(b, SeenOf(op.paymaster, true), SeenOf(op.factory, true));
  }

  // ---------- the first two adds ----------

  /** The second op is welcome beside the first. */
  ghost predicate Compatible(o: UserOp, op: UserOp) {
    && !SameSlot(o, op) && Lower(op.sender) !in Entities(o)
    && Lower(o.sender) != Lower(op.paymaster.GetOr("")) && Lower(o.sender) != Lower(op.factory.GetOr(""))
  }

  function Single(o: UserOp, h: string): Pool { Put(Empty(), h, Entry(o, h, Pending, None)) }

  function Couple(o: UserOp, h: string, op: UserOp, g: string): Pool { Put(Single(o, h), g, Entry(op, g, Pending, None)) }

  lemma CoupleMeans(o: UserOp, h: string, op: UserOp, g: string)
    requires h != g
    ensures Single(o, h).keys == [h] && Single(o, h).vals == map[h := Entry(o, h, Pending, None)]
    ensures Couple(o, h, op, g).keys == [h, g]
    ensures Couple(o, h, op, g).vals == map[h := Entry(o, h, Pending, None), g := Entry(op, g, Pending, None)]
  {
  }

  lemma OneStep(a: Action)
    ensures Run(CFG, INITIAL, [a]) == Step(CFG, INITIAL, a)
  {
    hide Step;
    assert [a][..0] == [];
  }

  lemma EmptyIsWelcoming(s: State, o: UserOp)
    requires s == INITIAL
    ensures Inv(s) && Welcome(s, o) && Calm(s.book, 0) && s.pool == Empty() && s.counts == map[]
  {
    CalmIsOK(s.book, 0, Some(o.sender));
    CalmIsOK(s.book, 0, o.paymaster);
    CalmIsOK(s.book, 0, o.factory);
  }

  lemma AddToEmpty(s: State, o: UserOp, h: string, t: State)
    requires Inv(s) && Welcome(s, o) && Calm(s.book, 0) && s.pool == Empty() && s.counts == map[]
    requires t == Step(CFG, s, Add(Params(o, h)))
    ensures Inv(t) && t.pool == Single(o, h) && t.counts == CountUp(map[], o) && Calm(t.book, 2)
    ensures t.book == ApplyAll(s.book, SeenOf(o.paymaster, true) + SeenOf(o.factory, true))
  {
    hide Step, CheckAdd, CountUp, Replaced, ApplyAll, SeenOf, Calm, Welcome;
    WelcomeAdd(s, o, h);
    CalmAdd(s.book, 0, o);
    InvStep(CFG, s, Add(Params(o, h)));
  }

  lemma FirstAdd(o: UserOp, h: string) returns (s: State)
    ensures s == Run(CFG, INITIAL, [Add(Params(o, h))]) && Inv(s) && s.pool == Single(o, h)
    ensures s.counts == CountUp(map[], o) && Calm(s.book, 2)
    ensures s.book == ApplyAll(INITIAL.book, SeenOf(o.paymaster, true) + SeenOf(o.factory, true))
  {
    hide Step, Run, CountUp, ApplyAll, SeenOf, Calm, Welcome, Single, Inv;
    var empty := INITIAL;
    EmptyIsWelcoming(empty, o);
    OneStep(Add(Params(o, h)));
    s := Step(CFG, empty, Add(Params(o, h)));
    AddToEmpty(empty, o, h, s);
  }

  lemma CountsAfterOne(o: UserOp, a: string)
    ensures CountAt(CountUp(map[], o), a) <= 1
  {
  }

  lemma SecondIsWelcome(r: State, o: UserOp, h: string, op: UserOp)
    requires r.pool == Single(o, h) && r.counts == CountUp(map[], o) && Calm(r.book, 2)
    requires Compatible(o, op)
    ensures Welcome(r, op)
  {
    CalmIsOK(r.book, 2, Some(op.sender));
    CalmIsOK(r.book, 2, op.paymaster);
    CalmIsOK(r.book, 2, op.factory);
    CountsAfterOne(o, Lower(op.sender));
  }

  lemma SecondAdd(r: State, o: UserOp, h: string, op: UserOp, g: string) returns (s: State)
    requires Inv(r) && r.pool == Single(o, h) && r.counts == CountUp(map[], o) && Calm(r.book, 2) && Compatible(o, op)
    ensures s == Step(CFG, r, Add(Params(op, g))) && Inv(s) && s.pool == Couple(o, h, op, g)
    ensures s.counts == CountUp(CountUp(map[], o), op)
  {
    SecondIsWelcome(r, o, h, op);
    hide Welcome, Step, CheckAdd, Calm, CountUp, ApplyAll, SeenOf, Compatible, Replaced;
    WelcomeAdd(r, op, g);
    s := Step(CFG, r, Add(Params(op, g)));
    InvStep(CFG, r, Add(Params(op, g)));
  }

  lemma TwoSteps(a1: Action, a2: Action)
    ensures Run(CFG, INITIAL, [a1, a2]) == Step(CFG, Run(CFG, INITIAL, [a1]), a2)
  {
    hide Step;
    RunSnoc(CFG, INITIAL, [a1], a2);
    assert [a1] + [a2] == [a1, a2];
  }

  lemma TwoAdds(o: UserOp, h: string, op: UserOp, g: string) returns (s: State)
    requires Compatible(o, op)
    ensures s == Run(CFG, INITIAL, [Add(Params(o, h)), Add(Params(op, g))]) && Inv(s) && s.pool == Couple(o, h, op, g)
    ensures s.counts == CountUp(CountUp(map[], o), op)
  {
    var r := FirstAdd(o, h);
    hide Step, Inv, Calm, CountUp, Compatible, Run, Couple, Single;
    s := SecondAdd(r, o, h, op, g);
    TwoSteps(Add(Params(o, h)), Add(Params(op, g)));
  }

  lemma LowerOfOne(c: char)
    ensures Lower([c]) == [LowerChar(c)]
  {
  }

  // ---------- replacements ----------

  /** The state after a replacement that pays enough. */
  lemma ReplacingAdd(s: State, was: Entry, op: UserOp, hash: string)
    requires Inv(s) && was.hash in s.pool.vals && s.pool.vals[was.hash] == was && SameSlot(was.op, op)
    requires 10 * op.maxFeePerGas >= 11 * was.op.maxFeePerGas && 10 * op.maxPriorityFeePerGas >= 11 * was.op.maxPriorityFeePerGas
    ensures CheckAdd(CFG, s, Params(op, hash)).None?
    ensures Step(CFG, s, Add(Params(op, hash))).pool == Put(Delete(s.pool, was.hash), hash, Entry(op, hash, Pending, None))
    ensures Step(CFG, s, Add(Params(op, hash))).book == ApplyAll(s.book, AddEvents(CFG, s.book, Params(op, hash), Some(was)))
  {
    FindIs(op, s.pool, was);
  }

  /** The run of `BannedReturns`: an op of `a`, a crash of paymaster `p`, and a replacement that names it. */
  function ReturningRun(fee: nat, more: nat): seq<Action> {
    [Add(Params(Op("a", 0, None, None, fee), "h")), Rep(Crashed("p")), Add(Params(Op("a", 0, Some("p"), None, more), "g"))]
  }

  lemma CrashedFresh(s: State, t: State)
    requires s.book == INITIAL.book && t == Step(CFG, s, Rep(Crashed("p")))
    ensures t.pool == s.pool && t.counts == s.counts && t.book == Book(map["p" := RepEntry(CRASH_PENALTY, 0)], [], [])
  {
    LowerOfOne('p');
    RepStep(CFG, s, Crashed("p"));
  }

  lemma SeenAgain(b: Book, o: UserOp, op: UserOp)
    requires b == Book(map["p" := RepEntry(CRASH_PENALTY, 0)], [], [])
    requires o == Op("a", 0, None, None, o.maxFeePerGas) && op == Op("a", 0, Some("p"), None, op.maxFeePerGas)
    ensures ApplyAll(b, AddEvents(CFG, b, Params(op, "g"), Some(Entry(o, "h", Pending, None))))
         == Book(map["p" := RepEntry(CRASH_PENALTY + 1, 0)], [], [])
  {
    LowerOfOne('p');
    UnstakedEvents(b, o, false);
    UnstakedEvents(b, op, true);
    assert SeenOf(o.paymaster, false) + SeenOf(o.factory, false) == [];
    assert SeenOf(op.paymaster, true) + SeenOf(op.factory, true) == [Seen(Some("p"), true)];
    assert [] + [Seen(Some("p"), true)] == [Seen(Some("p"), true)];
    assert [Seen(Some("p"), true)][1..] == [];
  }

  lemma CrashedStatus(b: Book, seen: int)
    requires b == Book(map["p" := RepEntry(seen, 0)], [], []) && seen >= CRASH_PENALTY
    ensures GetStatus(b, Some("p")) == BANNED
  {
    LowerOfOne('p');
  }

  /** Three actions as one run. */
  lemma ThreeSteps(a1: Action, a2: Action, a3: Action, s1: State)
    requires s1 == Run(CFG, INITIAL, [a1])
    ensures Run(CFG, INITIAL, [a1, a2, a3]) == Step(CFG, Step(CFG, s1, a2), a3)
  {
    hide Step;
    RunSnoc(CFG, INITIAL, [a1], a2);
    RunSnoc(CFG, INITIAL, [a1, a2], a3);
    assert [a1] + [a2] == [a1, a2] && [a1, a2] + [a3] == [a1, a2, a3];
  }

  /** The state after the op of `a` and the crash of `p`. */
  lemma CrashedBesideEntry(o: UserOp, was: Entry) returns (s1: State, s2: State)
    requires o == Op("a", 0, None, None, o.maxFeePerGas) && was == Entry(o, "h", Pending, None)
    ensures s1 == Run(CFG, INITIAL, [Add(Params(o, "h"))]) && s2 == Step(CFG, s1, Rep(Crashed("p")))
    ensures Inv(s2) && s2.pool.vals == map["h" := was] && s2.book == Book(map["p" := RepEntry(CRASH_PENALTY, 0)], [], [])
  {
    hide Step, CheckAdd, Apply, ApplyAll, AddEvents, GetStatus, CountUp, Calm;
    s1 := FirstAdd(o, "h");
    CoupleMeans(o, "h", o, "g");
    assert SeenOf(o.paymaster, true) + SeenOf(o.factory, true) == [];
    NoEvents(INITIAL.book);
    s2 := Step(CFG, s1, Rep(Crashed("p")));
    CrashedFresh(s1, s2);
  }

  lemma ReturnedBesideCrash(s: State, o: UserOp, was: Entry, op: UserOp, t: State)
    requires o == Op("a", 0, None, None, o.maxFeePerGas) && was == Entry(o, "h", Pending, None)
    requires op == Op("a", 0, Some("p"), None, op.maxFeePerGas) && 10 * op.maxFeePerGas >= 11 * o.maxFeePerGas
    requires Inv(s) && s.pool.vals == map["h" := was] && s.book == Book(map["p" := RepEntry(CRASH_PENALTY, 0)], [], [])
    requires t == Step(CFG, s, Add(Params(op, "g")))
    ensures "g" in t.pool.vals && t.pool.vals["g"].op == op && GetStatus(t.book, Some("p")) == BANNED
  {
    hide Step, CheckAdd, Apply, ApplyAll, AddEvents, GetStatus, CountUp, Lookup, Without;
    ReplacingAdd(s, was, op, "g");
    SeenAgain(s.book, o, op);
    CrashedStatus(t.book, CRASH_PENALTY + 1);
  }

  /** A banned address returns by replacement: at the end of this run `p` is BANNED and the pool names it, although every
      add was described by validation. */
  lemma BannedReturns(fee: nat, more: nat)
    requires 10 * more >= 11 * fee
    ensures var s := Run(CFG, INITIAL, ReturningRun(fee, more));
            && GetStatus(s.book, Some("p")) == BANNED
            && "g" in s.pool.vals && Mentions(s.pool.vals["g"].op, "p")
            && AllDescribed(ReturningRun(fee, more))
  {
    var o, op := Op("a", 0, None, None, fee), Op("a", 0, Some("p"), None, more);
    var was := Entry(o, "h", Pending, None);
    ParamsDescribed(o, "h");
    ParamsDescribed(op, "g");
    LowerOfOne('p');
    hide Step, Run, GetStatus, Described, Inv;
    var s1, s2 := CrashedBesideEntry(o, was);
    ReturnedBesideCrash(s2, o, was, op, Step(CFG, s2, Add(Params(op, "g"))));
    ThreeSteps(Add(Params(o, "h")), Rep(Crashed("p")), Add(Params(op, "g")), s1);
  }

  lemma NoEvents(b: Book)
    ensures ApplyAll(b, []) == b
  {
  }

  lemma MixedAfter(s: State, o: UserOp, x: UserOp, op: UserOp, t: State)
    requires o == Op("a", 0, None, None, o.maxFeePerGas) && x == Op("b", 0, None, None, o.maxFeePerGas)
    requires op == Op("a", 0, Some("b"), None, op.maxFeePerGas) && 10 * op.maxFeePerGas >= 11 * o.maxFeePerGas
    requires Inv(s) && s.pool == Couple(o, "h", x, "i") && t == Step(CFG, s, Add(Params(op, "g")))
    ensures !Separated(t.pool)
  {
    hide Step, CheckAdd, ApplyAll, AddEvents, Couple, Inv;
    CoupleMeans(o, "h", x, "i");
    ReplacingAdd(s, Entry(o, "h", Pending, None), op, "g");
    RolesMixed(s.pool, t.pool, x, op);
  }

  lemma RolesMixed(before: Pool, after: Pool, x: UserOp, op: UserOp)
    requires "i" in before.vals && before.vals["i"].op == x && x.sender == "b" && op.paymaster == Some("b")
    requires after == Put(Delete(before, "h"), "g", Entry(op, "g", Pending, None))
    ensures !Separated(after)
  {
    LowerOfOne('b');
    assert Lower(after.vals["i"].op.sender) in Entities(after.vals["g"].op);
  }

  /** A replacement mixes roles: after this run `b` is the sender of one entry and the paymaster of another. */
  lemma ReplacementMixesRoles(fee: nat, more: nat)
    requires 10 * more >= 11 * fee
    ensures var actions := [Add(Params(Op("a", 0, None, None, fee), "h")), Add(Params(Op("b", 0, None, None, fee), "i")),
                            Add(Params(Op("a", 0, Some("b"), None, more), "g"))];
            !Separated(Run(CFG, INITIAL, actions).pool)
  {
    var o, x, op := Op("a", 0, None, None, fee), Op("b", 0, None, None, fee), Op("a", 0, Some("b"), None, more);
    LowerOfOne('a');
    LowerOfOne('b');
    assert Lower("") == "";
    hide Step, Inv, Calm, CountUp, Run, Entities;
    var s := TwoAdds(o, "h", x, "i");
    var t := ThirdStep(Add(Params(o, "h")), Add(Params(x, "i")), Add(Params(op, "g")), s);
    MixedAfter(s, o, x, op, t);
  }

  lemma ThirdStep(a1: Action, a2: Action, a3: Action, s: State) returns (t: State)
    requires s == Run(CFG, INITIAL, [a1, a2])
    ensures t == Step(CFG, s, a3) == Run(CFG, INITIAL, [a1, a2, a3])
  {
    hide Step;
    t := Step(CFG, s, a3);
    RunSnoc(CFG, INITIAL, [a1, a2], a3);
    assert [a1, a2] + [a3] == [a1, a2, a3];
  }

  // ---------- sweeps ----------

  /** A ban that is not complete: the pool spells the paymaster "P", the blame spells it "p", and the entry stays. */
  lemma OtherSpellingStays(failed: UserOp, fee: nat)
    requires failed.sender == "f"
    ensures var s := Run(CFG, INITIAL, [Add(Params(Op("a", 0, Some("P"), None, fee), "h"))]);
            var t := AfterBlame(CFG, s, failed, "p");
            && GetStatus(t.book, Some("p")) == BANNED && "h" in t.pool.vals && Mentions(t.pool.vals["h"].op, "p")
  {
    var o := Op("a", 0, Some("P"), None, fee);
    var s := FirstAdd(o, "h");
    hide Run, AfterBlame, CountUp, GetStatus, ApplyAll, Inv, Single, Calm, SeenOf;
    StaysAfterBlame(s, o, failed);
  }

  lemma StaysAfterBlame(s: State, o: UserOp, failed: UserOp)
    requires Inv(s) && s.pool == Single(o, "h") && Calm(s.book, 2)
    requires failed.sender == "f" && o == Op("a", 0, Some("P"), None, o.maxFeePerGas)
    ensures var t := AfterBlame(CFG, s, failed, "p");
            && GetStatus(t.book, Some("p")) == BANNED && "h" in t.pool.vals && Mentions(t.pool.vals["h"].op, "p")
  {
    hide AfterBlame, GetStatus, Inv, Calm, Apply, CountedDownBook;
    NotSwept(s, o, failed);
    BlameParts(CFG, s, failed, "p");
    CalmHasNoWhiteList(s.book);
    CountedDownKeeps(s.book, failed, "p");
    CrashedIsBanned(CountedDownBook(s.book, failed));
  }

  lemma CalmHasNoWhiteList(b: Book)
    requires Calm(b, 2)
    ensures "p" !in b.whiteList && EntryOf(b, "p").opsSeen >= 0
  {
  }

  lemma NotSwept(s: State, o: UserOp, failed: UserOp)
    requires Inv(s) && s.pool == Single(o, "h")
    requires failed.sender == "f" && o == Op("a", 0, Some("P"), None, o.maxFeePerGas)
    ensures var t := AfterBlame(CFG, s, failed, "p"); "h" in t.pool.vals && Mentions(t.pool.vals["h"].op, "p")
  {
    hide AfterBlame, Single, Inv;
    CoupleMeans(o, "h", o, "g");
    LowerOfOne('a');
    LowerOfOne('f');
    LowerOfOne('P');
    BlamedPool(CFG, s, failed, "p");
  }

  lemma CrashedIsBanned(b: Book)
    requires "p" !in b.whiteList && EntryOf(b, "p").opsSeen >= 0
    ensures GetStatus(Apply(b, Crashed("p")), Some("p")) == BANNED
  {
    LowerOfOne('p');
    BanLasts(b, "p", []);
  }

  /** What a sweep of `p` does to two entries of `a`, the second of them with paymaster `p`. */
  lemma SweptPair(s: State, o: UserOp, x: UserOp)
    requires Inv(s) && s.pool == Couple(o, "h", x, "g")
    requires o == Op("a", 0, None, None, o.maxFeePerGas) && x == Op("a", 1, Some("p"), None, o.maxFeePerGas)
    ensures Sweep(s, "p").0.vals.Keys == {"h"} && Sweep(s, "p").0.vals["h"].op == o && "a" !in Sweep(s, "p").1
  {
    hide Sweep, Couple, Inv;
    CoupleMeans(o, "h", x, "g");
    SweepRemovesExactly(s, "p");
    assert SweptWith(s, "p", "a", "g");
    SweptCount(s, "p", "a");
  }

  lemma SendersOfCouple(pool: Pool, o: UserOp, x: UserOp)
    requires pool == Couple(o, "h", x, "g") && Lower(o.sender) == "a" && Lower(x.sender) == "a"
    ensures SenderKeys(pool, "a") == {"h", "g"} && |SenderKeys(pool, "a")| == 2
  {
    CoupleMeans(o, "h", x, "g");
  }

  lemma TwoCounted(o: UserOp, x: UserOp, a: string)
    requires Lower(o.sender) == a && Lower(x.sender) == a
    ensures CountAt(CountUp(CountUp(map[], o), x), a) == 2
  {
  }

  lemma PairIsCompatible(o: UserOp, x: UserOp)
    requires o == Op("a", 0, None, None, o.maxFeePerGas) && x == Op("a", 1, Some("p"), None, o.maxFeePerGas)
    ensures Compatible(o, x)
  {
    LowerOfOne('a');
    LowerOfOne('p');
    assert Lower("") == "";
  }

  lemma CountForgotten(s: State, o: UserOp, x: UserOp, t: State)
    requires Inv(s) && s.pool == Couple(o, "h", x, "g") && s.counts == CountUp(CountUp(map[], o), x)
    requires o == Op("a", 0, None, None, o.maxFeePerGas) && x == Op("a", 1, Some("p"), None, o.maxFeePerGas)
    requires t == Step(CFG, s, BanSweep("p"))
    ensures Covered(s, "a") && !Covered(t, "a") && "h" in t.pool.vals && CountAt(t.counts, "a") == 0
  {
    LowerOfOne('a');
    hide Step, Inv, CountUp, Couple, Sweep;
    SweepStep(CFG, s, "p");
    SweptPair(s, o, x);
    SendersOfCouple(s.pool, o, x);
    assert SenderKeys(t.pool, "a") == {"h"};
    TwoCounted(o, x, "a");
  }

  /** A sweep that breaks the count law: `a` has two entries, the one with paymaster `p` is swept, and the count of `a`
      goes with it although an entry is left. */
  lemma SweepForgetsCount(fee: nat)
    ensures var s := Run(CFG, INITIAL,
                         [Add(Params(Op("a", 0, None, None, fee), "h")), Add(Params(Op("a", 1, Some("p"), None, fee), "g"))]);
            var t := Step(CFG, s, BanSweep("p"));
            && Covered(s, "a") && !Covered(t, "a") && "h" in t.pool.vals && CountAt(t.counts, "a") == 0
  {
    var o, x := Op("a", 0, None, None, fee), Op("a", 1, Some("p"), None, fee);
    PairIsCompatible(o, x);
    hide Step, Run, Inv, Covered, CountUp, Couple, Compatible;
    var s := TwoAdds(o, "h", x, "g");
    CountForgotten(s, o, x, Step(CFG, s, BanSweep("p")));
  }

  // ---------- replacements are not counted ----------

  /** A different account for every `i`. */
  function Sender(i: nat): string { if i == 0 then "s" else Sender(i - 1) + "s" }

  lemma {:induction false} SenderLength(i: nat)
    ensures |Sender(i)| == i + 1 && Sender(i)[0] == 's' && Lower(Sender(i)) == Sender(i)
  {
    if i > 0 { SenderLength(i - 1); }
    OnlyS(i);
  }

  lemma {:induction false} OnlyS(i: nat)
    ensures forall j :: 0 <= j < |Sender(i)| ==> Sender(i)[j] == 's'
  {
    if i > 0 { OnlyS(i - 1); }
  }

  lemma SendersDistinctly(i: nat, j: nat)
    ensures Lower(Sender(i)) == Lower(Sender(j)) ==> i == j
    ensures Lower(Sender(i)) != "p" && Lower(Sender(i)) != "f" && Lower(Sender(i)) != ""
  {
    SenderLength(i);
    SenderLength(j);
  }

  function Bare(i: nat, fee: nat): UserOp { Op(Sender(i), 0, None, None, fee) }

  function Paid(i: nat, fee: nat): UserOp { Op(Sender(i), 0, Some("p"), None, fee) }

  /** An add that validation describes with an unstaked paymaster. */
  function UnstakedParams(i: nat, fee: nat): AddParams {
    Params(Paid(i, fee), Sender(i)).(paymaster := Some(StakeInfo("p", 0, 0)))
  }

  /** n accounts in turn add an op without a paymaster, and replace it by one that names "p". */
  function SlippingRun(n: nat, fee: nat, more: nat): seq<Action> {
    if n == 0 then []
    else SlippingRun(n - 1, fee, more)
         + [Add(Params(Bare(n - 1, fee), "h" + Sender(n - 1)))] + [Add(UnstakedParams(n - 1, more))]
  }

  ghost predicate Unjudged(b: Book) { b.whiteList == [] && b.blackList == [] && b.entries.Keys <= {"p"} }

  /** The state after n of them. */
  ghost predicate Slipped(s: State, n: nat, more: nat) {
    && Inv(s) && Unjudged(s.book) && CountAt(s.counts, "p") == 0 && |s.pool.vals.Keys| == n
    && (forall k :: k in s.pool.vals ==> exists i: nat :: i < n && k == Sender(i) && s.pool.vals[k].op == Paid(i, more))
    && (forall i: nat :: i >= n ==> CountAt(s.counts, Sender(i)) == 0)
  }

  lemma BareIsWelcome(s: State, n: nat, fee: nat, more: nat)
    requires Slipped(s, n, more)
    ensures Welcome(s, Bare(n, fee)) && "h" + Sender(n) !in s.pool.vals && Sender(n) !in s.pool.vals
  {
    SendersDistinctly(n, n);
    SenderLength(n);
    LowerOfOne('p');
    forall k | k in s.pool.vals
      ensures !SameSlot(s.pool.vals[k].op, Bare(n, fee)) && Lower(Sender(n)) !in Entities(s.pool.vals[k].op)
      ensures Lower(s.pool.vals[k].op.sender) != "" && k != "h" + Sender(n) && k != Sender(n)
    {
      var i: nat :| i < n && k == Sender(i) && s.pool.vals[k].op == Paid(i, more);
      SendersDistinctly(i, n);
      SenderLength(i);
    }
  }

  lemma BareAdded(s: State, n: nat, fee: nat, more: nat, t: State)
    requires Slipped(s, n, more) && t == Step(CFG, s, Add(Params(Bare(n, fee), "h" + Sender(n))))
    ensures Inv(t) && t.pool.vals == s.pool.vals["h" + Sender(n) := Entry(Bare(n, fee), "h" + Sender(n), Pending, None)]
    ensures t.counts == CountUp(s.counts, Bare(n, fee)) && t.book == s.book
  {
    var a := Add(Params(Bare(n, fee), "h" + Sender(n)));
    BareIsWelcome(s, n, fee, more);
    hide Step, CheckAdd, CountUp, Welcome;
    WelcomeAdd(s, Bare(n, fee), "h" + Sender(n));
    InvStep(CFG, s, a);
    assert SeenOf(None, true) + SeenOf(None, true) == [];
  }

  lemma PaidReplaces(t: State, was: Entry, n: nat, fee: nat, more: nat, u: State)
    requires Inv(t) && was == Entry(Bare(n, fee), "h" + Sender(n), Pending, None) && 10 * more >= 11 * fee
    requires was.hash in t.pool.vals && t.pool.vals[was.hash] == was
    requires u == Step(CFG, t, Add(UnstakedParams(n, more)))
    ensures Inv(u) && u.counts == t.counts
    ensures u.pool.vals == (t.pool.vals - {was.hash})[Sender(n) := Entry(Paid(n, more), Sender(n), Pending, None)]
    ensures u.book == ApplyAll(t.book, [Seen(Some("p"), true)])
  {
    FindIs(Paid(n, more), t.pool, was);
    InvStep(CFG, t, Add(UnstakedParams(n, more)));
    UnstakedEvents(t.book, Bare(n, fee), false);
    UnstakedEvents(t.book, Paid(n, more), true);
    assert SeenOf(None, false) + SeenOf(None, false) == [];
    assert [] + (SeenOf(Some("p"), true) + SeenOf(None, true)) == [Seen(Some("p"), true)];
  }

  lemma OneSeen(b: Book)
    requires Unjudged(b)
    ensures Unjudged(ApplyAll(b, [Seen(Some("p"), true)]))
  {
    LowerOfOne('p');
    assert [Seen(Some("p"), true)][1..] == [];
  }

  lemma BareCounts(counts: Counts, n: nat, fee: nat)
    requires CountAt(counts, "p") == 0 && forall i: nat :: i >= n ==> CountAt(counts, Sender(i)) == 0
    ensures CountAt(CountUp(counts, Bare(n, fee)), "p") == 0
    ensures forall i: nat :: i > n ==> CountAt(CountUp(counts, Bare(n, fee)), Sender(i)) == 0
  {
    SendersDistinctly(n, n);
    SenderLength(n);
    forall i: nat | i > n ensures Lower(Sender(n)) != Sender(i) {
      SendersDistinctly(i, n);
      SenderLength(i);
    }
  }

  lemma SlippedPool(s: State, n: nat, more: nat, u: State)
    requires Slipped(s, n, more) && Sender(n) !in s.pool.vals
    requires u.pool.vals == s.pool.vals[Sender(n) := Entry(Paid(n, more), Sender(n), Pending, None)]
    ensures |u.pool.vals.Keys| == n + 1
    ensures forall k :: k in u.pool.vals ==> exists i: nat :: i < n + 1 && k == Sender(i) && u.pool.vals[k].op == Paid(i, more)
  {
    hide Inv, Unjudged, Sender;
    assert u.pool.vals.Keys == s.pool.vals.Keys + {Sender(n)};
    forall k | k in u.pool.vals ensures exists i: nat :: i < n + 1 && k == Sender(i) && u.pool.vals[k].op == Paid(i, more) {
      if k == Sender(n) { assert u.pool.vals[k].op == Paid(n, more); } else { assert k in s.pool.vals; }
    }
  }

  lemma SlippedNext(s: State, n: nat, fee: nat, more: nat) returns (u: State)
    requires Slipped(s, n, more) && 10 * more >= 11 * fee
    ensures u == Step(CFG, Step(CFG, s, Add(Params(Bare(n, fee), "h" + Sender(n)))), Add(UnstakedParams(n, more)))
    ensures Slipped(u, n + 1, more)
  {
    hide Step, CountUp, Inv, Unjudged, ApplyAll, Sender, Params, UnstakedParams, WellFormed;
    BareIsWelcome(s, n, fee, more);
    hide Welcome;
    var h := "h" + Sender(n);
    var was := Entry(Bare(n, fee), h, Pending, None);
    var t := Step(CFG, s, Add(Params(Bare(n, fee), h)));
    u := Step(CFG, t, Add(UnstakedParams(n, more)));
    BareAdded(s, n, fee, more, t);
    PaidReplaces(t, was, n, fee, more, u);
    BareCounts(s.counts, n, fee);
    OneSeen(s.book);
    SlippedPool(s, n, more, u);
  }

  lemma TwoMore(actions: seq<Action>, a: Action, b: Action)
    ensures Run(CFG, INITIAL, actions + [a] + [b]) == Step(CFG, Step(CFG, Run(CFG, INITIAL, actions), a), b)
  {
    hide Step;
    RunSnoc(CFG, INITIAL, actions, a);
    RunSnoc(CFG, INITIAL, actions + [a], b);
  }

  lemma NothingSlipped(s: State, more: nat)
    requires s == INITIAL
    ensures Slipped(s, 0, more)
  {
  }

  lemma NextRun(n: nat, fee: nat, more: nat)
    ensures Run(CFG, INITIAL, SlippingRun(n + 1, fee, more))
         == Step(CFG, Step(CFG, Run(CFG, INITIAL, SlippingRun(n, fee, more)), Add(Params(Bare(n, fee), "h" + Sender(n)))),
                 Add(UnstakedParams(n, more)))
  {
    hide Step, Run, Sender;
    TwoMore(SlippingRun(n, fee, more), Add(Params(Bare(n, fee), "h" + Sender(n))), Add(UnstakedParams(n, more)));
  }

  lemma {:induction false} SlippingReached(n: nat, fee: nat, more: nat) returns (s: State)
    requires 10 * more >= 11 * fee
    ensures s == Run(CFG, INITIAL, SlippingRun(n, fee, more)) && Slipped(s, n, more)
    decreases n
  {
    if n == 0 {
      s := INITIAL;
      NothingSlipped(s, more);
    } else {
      hide Step, Inv, Unjudged, Sender, Run, SlippingRun;
      s := SlippingReached(n - 1, fee, more);
      NextRun(n - 1, fee, more);
      s := SlippedNext(s, n - 1, fee, more);
    }
  }

  /** Replacements are not counted: n entries name an unstaked paymaster whose count is zero, for every n. */
  lemma ReplacementsUncounted(n: nat, fee: nat, more: nat)
    requires 10 * more >= 11 * fee
    ensures var s := Run(CFG, INITIAL, SlippingRun(n, fee, more));
            && |s.pool.vals.Keys| == n && (forall k :: k in s.pool.vals ==> s.pool.vals[k].op.paymaster == Some("p"))
            && CountAt(s.counts, "p") == 0
  {
    hide Run, Inv, Unjudged, SlippingRun;
    var s := SlippingReached(n, fee, more);
    forall k | k in s.pool.vals ensures s.pool.vals[k].op.paymaster == Some("p") {
      var i: nat :| i < n && k == Sender(i) && s.pool.vals[k].op == Paid(i, more);
    }
  }
}
