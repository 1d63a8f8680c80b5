/** Bundles that the builder makes of entries handed out by a mempool filled from empty, in which a limit fails. */
module BundleWitnesses {
  import opened Common
  import opened Addresses
  import opened UserOps
  import opened OrderedRecord
  import opened Reputation
  import opened Mempool
  import opened MempoolInvariants
  import opened MempoolRuns
  import opened MempoolWitnesses
  import opened BundleBuilder
  import opened BundleTheorems
  import opened BundleLimits
  import opened BundleRuns

  // ---------- hand-outs ----------

  lemma {:induction false} AllPendingGiven(es: seq<Entry>)
    requires forall i :: 0 <= i < |es| ==> es[i].status == Pending
    ensures FirstPending(es, |es|) == es
  {
    if es != [] { AllPendingGiven(es[1..]); }
  }

  lemma GivenInOrder(s: State, es: seq<Entry>)
    requires |s.pool.keys| == |es|
    requires forall i :: 0 <= i < |es| ==>
               s.pool.keys[i] in s.pool.vals && s.pool.vals[s.pool.keys[i]] == es[i] && es[i].status == Pending
    ensures HandedOut(CFG, s, true) == es
  {
    assert Values(s.pool) == es;
    AllPendingGiven(es);
  }

  lemma CoupleGiven(s: State, o: UserOp, h: string, op: UserOp, g: string)
    requires h != g && s.pool == Couple(o, h, op, g)
    ensures HandedOut(CFG, s, true) == [Entry(o, h, Pending, None), Entry(op, g, Pending, None)]
  {
    CoupleMeans(o, h, op, g);
    hide Couple, HandedOut;
    GivenInOrder(s, [Entry(o, h, Pending, None), Entry(op, g, Pending, None)]);
  }

  lemma BuildHandsOut(s: State, maxBundleGas: nat, signer: Authorization -> string, obs: nat -> Observed)
    ensures BuildAfter(CFG, s, true, maxBundleGas, signer, obs).entries == HandedOut(CFG, s, true)
    ensures BuildAfter(CFG, s, true, maxBundleGas, signer, obs).r.signer == signer
    ensures BuildAfter(CFG, s, true, maxBundleGas, signer, obs).obs == obs
  {
  }

  lemma BothGiven(o: UserOp, h: string, op: UserOp, g: string, maxBundleGas: nat, signer: Authorization -> string,
                  obs: nat -> Observed) returns (s: State, b: Build)
    requires h != g && Compatible(o, op)
    ensures s == Run(CFG, INITIAL, [Add(Params(o, h)), Add(Params(op, g))]) && Inv(s)
    ensures b == BuildAfter(CFG, s, true, maxBundleGas, signer, obs) && b.r.signer == signer && b.obs == obs
    ensures b.entries == [Entry(o, h, Pending, None), Entry(op, g, Pending, None)] == HandedOut(CFG, s, true)
  {
    hide Run, Inv, Couple, HandedOut, BuildAfter, Compatible, CountUp;
    s := TwoAdds(o, h, op, g);
    CoupleGiven(s, o, h, op, g);
    BuildHandsOut(s, maxBundleGas, signer, obs);
    b := BuildAfter(CFG, s, true, maxBundleGas, signer, obs);
  }

  // ---------- ops without gas ----------

  /** Every op passes validation again, and costs all that its paymaster has. */
  function Costly(balance: nat): nat -> Observed { (i: nat) => Observed(balance, OK, OK, Some(Costing(balance))) }

  lemma CostlyFate(r: Rules, t: Tally, x: Entry, balance: nat)
    requires Open(t, 0, balance) && x.op.callGasLimit == 0 && x.op.sender !in t.senders
    ensures var o := Observed(balance, OK, OK, Some(Costing(balance)));
            && FateOf(r, t, x, o) == (if MergeAuth(r, t.tuples, x.op).Some? then InBundle else AuthConflict)
            && Open(Consider(r, t, x, o), 0, balance)
  {
    hide FateOf, Consider, Open, MergeAuth;
    var o := Observed(balance, OK, OK, Some(Costing(balance)));
    PickedIsCharged(r, t, x, o, 0, balance);
    OpenStep(r, t, x, o, 0, balance);
  }

  /** The first op is bundled. */
  lemma FirstCostly(b: Build, balance: nat)
    requires |b.entries| >= 1 && b.obs == Costly(balance) && b.entries[0].op.callGasLimit == 0
    ensures b.Fate(0) == InBundle && Open(b.At(1), 0, balance) && b.At(1).senders == {b.entries[0].op.sender}
    ensures b.At(1).tuples == if b.entries[0].op.auth.Some? then [b.entries[0].op.auth.value] else []
  {
    assert Open(START, 0, balance) && b.At(0) == START;
    hide FateOf, Consider, Open;
    CostlyFate(b.r, START, b.entries[0], balance);
    SendersStep(b.r, START, b.entries[0], b.obs(0));
    TuplesStep(b.r, START, b.entries[0], b.obs(0));
  }

  /** So is the second one, when its sender is spelled differently and it has no authorization. */
  lemma SecondCostly(b: Build, o: UserOp, x: UserOp, balance: nat)
    requires b.entries == [Entry(o, "h", Pending, None), Entry(x, "g", Pending, None)] && b.obs == Costly(balance)
    requires o.callGasLimit == 0 && x.callGasLimit == 0 && x.auth.None? && o.sender != x.sender
    ensures b.Fate(0) == InBundle && b.Fate(1) == InBundle
  {
    hide FateOf, Consider, Open;
    FirstCostly(b, balance);
    CostlyFate(b.r, b.At(1), b.entries[1], balance);
  }

  // ---------- one balance, spent twice ----------

  /** Two ops of different senders that name account "p" as paymaster spend its balance twice. */
  lemma SpentTwice(b: Build, o: UserOp, x: UserOp, balance: nat)
    requires b.entries == [Entry(o, "h", Pending, None), Entry(x, "g", Pending, None)] && b.obs == Costly(balance)
    requires o.callGasLimit == 0 && x.callGasLimit == 0 && x.auth.None? && o.sender != x.sender && PaidBy("p")(o) && PaidBy("p")(x)
    ensures SteadyAccount(b, 2, "p", balance) && BundledForAccount(b, 2, "p") == 2 * balance
  {
    hide FateOf, Consider;
    SecondCostly(b, o, x, balance);
    assert BundledForAccount(b, 1, "p") == BundledForAccount(b, 0, "p") + balance;
  }

  lemma TwoPaid(fee: nat, balance: nat, second: string, signer: Authorization -> string)
    requires Lower(second) == "p"
    ensures var s := Run(CFG, INITIAL,
                         [Add(Params(Op("a", 0, Some("p"), None, fee), "h")), Add(Params(Op("b", 0, Some(second), None, fee), "g"))]);
            var b := BuildAfter(CFG, s, true, 0, signer, Costly(balance));
            |b.entries| == 2 && SteadyAccount(b, 2, "p", balance) && BundledForAccount(b, 2, "p") == 2 * balance
  {
    LowerOfOne('a');
    LowerOfOne('b');
    LowerOfOne('p');
    assert Lower("") == "";
    var o, x := Op("a", 0, Some("p"), None, fee), Op("b", 0, Some(second), None, fee);
    hide Run, Step, Inv, FateOf, Consider, BuildAfter;
    var s, b := BothGiven(o, "h", x, "g", 0, signer, Costly(balance));
    SpentTwice(b, o, x, balance);
  }

  /** The reload of a deposit that has run out to exactly zero: two ops of one paymaster, each charging its whole
      balance, are both bundled, so the bundle costs it twice the balance. */
  lemma ReloadOvercharges(fee: nat, balance: nat, signer: Authorization -> string)
    ensures var s := Run(CFG, INITIAL,
                         [Add(Params(Op("a", 0, Some("p"), None, fee), "h")), Add(Params(Op("b", 0, Some("p"), None, fee), "g"))]);
            var b := BuildAfter(CFG, s, true, 0, signer, Costly(balance));
            |b.entries| == 2 && SteadyAccount(b, 2, "p", balance) && BundledForAccount(b, 2, "p") == 2 * balance
  {
    LowerOfOne('p');
    TwoPaid(fee, balance, "p", signer);
  }

  /** The same without a reload: the second op spells the paymaster "P", and its balance is loaded for either spelling. */
  lemma SpellingOvercharges(fee: nat, balance: nat, signer: Authorization -> string)
    ensures var s := Run(CFG, INITIAL,
                         [Add(Params(Op("a", 0, Some("p"), None, fee), "h")), Add(Params(Op("b", 0, Some("P"), None, fee), "g"))]);
            var b := BuildAfter(CFG, s, true, 0, signer, Costly(balance));
            |b.entries| == 2 && SteadyAccount(b, 2, "p", balance) && BundledForAccount(b, 2, "p") == 2 * balance
  {
    LowerOfOne('P');
    TwoPaid(fee, balance, "P", signer);
  }

  // ---------- two spellings of a sender, two authorizations ----------

  /** One account, bundled twice: once spelled "a" and once spelled "A". */
  lemma AccountTwice(fee: nat, signer: Authorization -> string)
    ensures var s := Run(CFG, INITIAL,
                         [Add(Params(Op("a", 0, None, None, fee), "h")), Add(Params(Op("A", 1, None, None, fee), "g"))]);
            var b := BuildAfter(CFG, s, true, 0, signer, Costly(0));
            |b.entries| == 2 && Lower(b.entries[0].op.sender) == Lower(b.entries[1].op.sender)
            && b.Fate(0) == InBundle && b.Fate(1) == InBundle
  {
    LowerOfOne('a');
    LowerOfOne('A');
    assert Lower("") == "";
    var o, x := Op("a", 0, None, None, fee), Op("A", 1, None, None, fee);
    hide Run, Step, Inv, FateOf, Consider, BuildAfter;
    var s, b := BothGiven(o, "h", x, "g", 0, signer, Costly(0));
    SecondCostly(b, o, x, 0);
  }

  function Delegating(sender: string, to: string, fee: nat): UserOp {
    Op(sender, 0, None, None, fee).(auth := Some(Authorization(1, to, 0)))
  }

  /** Two ops whose authorizations have one signer and two targets. */
  lemma SecondConflicts(b: Build, o: UserOp, x: UserOp)
    requires b.entries == [Entry(o, "h", Pending, None), Entry(x, "g", Pending, None)] && b.obs == Costly(0)
    requires o == Delegating("a", "c", o.maxFeePerGas) && x == Delegating("b", "d", x.maxFeePerGas)
    requires b.r.signer(o.auth.value) == b.r.signer(x.auth.value)
    ensures b.Fate(0) == InBundle && b.Fate(1) == AuthConflict
  {
    LowerOfOne('c');
    LowerOfOne('d');
    hide FateOf, Consider, Open;
    FirstCostly(b, 0);
    CostlyFate(b.r, b.At(1), b.entries[1], 0);
    assert b.At(1).tuples == [o.auth.value];
  }

  /** An entry that is skipped for an authorization conflict is left `bundling` in the pool after `createBundle`. */
  lemma ConflictLeftBundling(fee: nat, signer: Authorization -> string)
    requires signer(Authorization(1, "c", 0)) == signer(Authorization(1, "d", 0))
    ensures var s := Run(CFG, INITIAL,
                         [Add(Params(Delegating("a", "c", fee), "h")), Add(Params(Delegating("b", "d", fee), "g"))]);
            var b := BuildAfter(CFG, s, true, 0, signer, Costly(0));
            && |b.entries| == 2 && b.Fate(1) == AuthConflict
            && var t := Run(CFG, Step(CFG, s, HandOut(true)), BackByHash(b.At(2).notIncluded));
               "g" in t.pool.vals && t.pool.vals["g"].status == Bundling
  {
    LowerOfOne('a');
    LowerOfOne('b');
    assert Lower("") == "";
    var o, x := Delegating("a", "c", fee), Delegating("b", "d", fee);
    hide Run, Step, Inv, FateOf, Consider, BuildAfter, HandedOut;
    var s, b := BothGiven(o, "h", x, "g", 0, signer, Costly(0));
    SecondConflicts(b, o, x);
    LeftBundling(s, b, o, x);
  }

  lemma LeftBundling(s: State, b: Build, o: UserOp, x: UserOp)
    requires Inv(s) && b.entries == [Entry(o, "h", Pending, None), Entry(x, "g", Pending, None)] == HandedOut(CFG, s, true)
    requires b.Fate(1) == AuthConflict
    ensures var t := Run(CFG, Step(CFG, s, HandOut(true)), BackByHash(b.At(2).notIncluded));
            "g" in t.pool.vals && t.pool.vals["g"].status == Bundling
  {
    hide Run, Step, FateOf, Consider, HandedOut;
    var handed, hashes := Step(CFG, s, HandOut(true)), b.At(2).notIncluded;
    GivenAreOut(CFG, s, true, b.entries[1]);
    SetBack(CFG, handed, hashes, Run(CFG, handed, BackByHash(hashes)));
    PendingAgain(CFG, s, true, b, 1);
  }

  // ---------- the throttled paymaster ----------

  /** Two families of ops that name account "p" as paymaster: with factory "f", or without a factory and with "P" as the
      spelling from the fifth op on. */
  datatype Family = WithFactory | TwoSpellings

  function PaymasterOf(f: Family, i: nat): string { if f.TwoSpellings? && i >= 4 then "P" else "p" }

  function FactoryOf(f: Family): Option<string> { if f.WithFactory? then Some("f") else None }

  function FamilyOp(f: Family, i: nat, fee: nat): UserOp { Op(Sender(i), 0, Some(PaymasterOf(f, i)), FactoryOf(f), fee) }

  function FamilyEntry(f: Family, i: nat, fee: nat): Entry { Entry(FamilyOp(f, i, fee), Sender(i), Pending, None) }

  function FamilyAdd(f: Family, i: nat, fee: nat): Action { Add(Params(FamilyOp(f, i, fee), Sender(i))) }

  /** The inclusion of the factory, if there is one. */
  function FactoryIncluded(f: Family): seq<Action> { if f.WithFactory? then [Rep(Included("f"))] else [] }

  /** n accounts in turn add one op each, and every op is included on chain. */
  function FamilyAdds(f: Family, n: nat, fee: nat): seq<Action> {
    if n == 0 then []
    else FamilyAdds(f, n - 1, fee) + [FamilyAdd(f, n - 1, fee)] + [Rep(Included("p"))] + FactoryIncluded(f)
  }

  function FamilyBook(f: Family, n: nat): Book {
    Book(if n == 0 then map[]
         else if f.WithFactory? then map["p" := RepEntry(n, n), "f" := RepEntry(n, n)]
         else map["p" := RepEntry(n, n)], [], [])
  }

  ghost predicate Listed(keys: seq<string>, vals: map<string, Entry>, f: Family, n: nat, fee: nat) {
    && |keys| == n
    && forall i :: 0 <= i < n ==> keys[i] == Sender(i) && Sender(i) in vals && vals[Sender(i)] == FamilyEntry(f, i, fee)
  }

  /** The state after the first n adds. */
  ghost predicate FamilyState(s: State, f: Family, n: nat, fee: nat) {
    && Inv(s) && s.book == FamilyBook(f, n) && Listed(s.pool.keys, s.pool.vals, f, n, fee)
    && (forall i: nat :: i >= n ==> CountAt(s.counts, Sender(i)) == 0)
  }

  lemma LowerPaymaster(f: Family, i: nat)
    ensures Lower(PaymasterOf(f, i)) == "p" && Lower(FactoryOf(f).GetOr("")) == FactoryOf(f).GetOr("")
  {
    LowerOfOne('p');
    LowerOfOne('P');
    LowerOfOne('f');
  }

  lemma KeysAreSenders(s: State, f: Family, n: nat, fee: nat, k: string) returns (i: nat)
    requires FamilyState(s, f, n, fee) && k in s.pool.vals
    ensures i < n && k == Sender(i) && s.pool.vals[k] == FamilyEntry(f, i, fee)
  {
    assert k in Members(s.pool.keys);
    i :| 0 <= i < |s.pool.keys| && s.pool.keys[i] == k;
  }

  lemma FamilyStatus(f: Family, n: nat, i: nat)
    ensures StatusOK(FamilyBook(f, n), Some(PaymasterOf(f, i))) && StatusOK(FamilyBook(f, n), FactoryOf(f))
    ensures StatusOK(FamilyBook(f, n), Some(Sender(i)))
  {
    LowerPaymaster(f, i);
    SendersDistinctly(i, i);
  }

  lemma FamilyWelcome(s: State, f: Family, n: nat, fee: nat)
    requires FamilyState(s, f, n, fee)
    ensures Welcome(s, FamilyOp(f, n, fee))
  {
    LowerPaymaster(f, n);
    FamilyStatus(f, n, n);
    SenderLength(n);
    forall k | k in s.pool.vals
      ensures !SameSlot(s.pool.vals[k].op, FamilyOp(f, n, fee)) && Lower(Sender(n)) !in Entities(s.pool.vals[k].op)
      ensures Lower(s.pool.vals[k].op.sender) != "p" && Lower(s.pool.vals[k].op.sender) != FactoryOf(f).GetOr("")
    {
      var i := KeysAreSenders(s, f, n, fee, k);
      LowerPaymaster(f, i);
      SendersDistinctly(i, n);
      SendersDistinctly(n, n);
    }
  }

  lemma FamilySenderIsNew(s: State, f: Family, n: nat, fee: nat)
    requires FamilyState(s, f, n, fee)
    ensures Sender(n) !in s.pool.vals
    ensures forall i :: 0 <= i < n ==> Sender(i) != Sender(n)
  {
    if Sender(n) in s.pool.vals {
      var i := KeysAreSenders(s, f, n, fee, Sender(n));
      SendersDistinctly(i, n);
    }
    forall i | 0 <= i < n ensures Sender(i) != Sender(n) { SendersDistinctly(i, n); }
  }

  lemma OneMoreListed(keys: seq<string>, vals: map<string, Entry>, f: Family, n: nat, fee: nat)
    requires Listed(keys, vals, f, n, fee) && forall i :: 0 <= i < n ==> Sender(i) != Sender(n)
    ensures Listed(keys + [Sender(n)], vals[Sender(n) := FamilyEntry(f, n, fee)], f, n + 1, fee)
  {
  }

  lemma FamilyPool(s: State, f: Family, n: nat, fee: nat, t: State)
    requires FamilyState(s, f, n, fee) && t.pool == Put(s.pool, Sender(n), FamilyEntry(f, n, fee))
    ensures Listed(t.pool.keys, t.pool.vals, f, n + 1, fee)
  {
    FamilySenderIsNew(s, f, n, fee);
    OneMoreListed(s.pool.keys, s.pool.vals, f, n, fee);
    hide Sender, FamilyEntry, Inv, Listed;
    assert t.pool.keys == s.pool.keys + [Sender(n)];
    assert t.pool.vals == s.pool.vals[Sender(n) := FamilyEntry(f, n, fee)];
  }

  lemma FamilyCounts(s: State, f: Family, n: nat, fee: nat)
    requires FamilyState(s, f, n, fee)
    ensures forall i: nat :: i >= n + 1 ==> CountAt(CountUp(s.counts, FamilyOp(f, n, fee)), Sender(i)) == 0
  {
    LowerPaymaster(f, n);
    SenderLength(n);
    hide CountUp;
    forall i: nat | i >= n + 1 ensures CountAt(CountUp(s.counts, FamilyOp(f, n, fee)), Sender(i)) == 0 {
      SenderLength(i);
      SendersDistinctly(i, n);
      Uncounted(s.counts, FamilyOp(f, n, fee), Sender(i));
    }
  }

  lemma Uncounted(counts: Counts, op: UserOp, x: string)
    requires x != Lower(op.sender) && !Names(op.paymaster, x) && !Names(op.factory, x)
    ensures CountAt(CountUp(counts, op), x) == CountAt(counts, x)
  {
  }

  /** The reputation after one more op with a factory has been seen and included. */
  lemma FamilyReputation(n: nat, seen: Book)
    requires seen == ApplyAll(FamilyBook(WithFactory, n), SeenOf(Some("p"), true) + SeenOf(Some("f"), true))
    ensures Apply(Apply(seen, Included("p")), Included("f")) == FamilyBook(WithFactory, n + 1)
  {
    LowerOfOne('p');
    LowerOfOne('f');
    var both := [Seen(Some("p"), true), Seen(Some("f"), true)];
    assert SeenOf(Some("p"), true) + SeenOf(Some("f"), true) == both;
    assert both[1..] == [both[1]] && [both[1]][1..] == [];
    assert ApplyAll(FamilyBook(WithFactory, n), both) == Apply(Apply(FamilyBook(WithFactory, n), both[0]), both[1]);
  }

  /** And without one. */
  lemma PaymasterReputation(n: nat, seen: Book)
    requires seen == ApplyAll(FamilyBook(TwoSpellings, n), SeenOf(Some(PaymasterOf(TwoSpellings, n)), true) + SeenOf(None, true))
    ensures Apply(seen, Included("p")) == FamilyBook(TwoSpellings, n + 1)
  {
    LowerPaymaster(TwoSpellings, n);
    LowerOfOne('p');
    var one := [Seen(Some(PaymasterOf(TwoSpellings, n)), true)];
    assert SeenOf(Some(PaymasterOf(TwoSpellings, n)), true) + SeenOf(None, true) == one;
    assert one[1..] == [];
  }

  lemma FamilyAdded(s: State, f: Family, n: nat, fee: nat, t: State)
    requires FamilyState(s, f, n, fee) && t == Step(CFG, s, FamilyAdd(f, n, fee))
    ensures Inv(t) && t.pool == Put(s.pool, Sender(n), FamilyEntry(f, n, fee)) && t.counts == CountUp(s.counts, FamilyOp(f, n, fee))
    ensures t.book == ApplyAll(FamilyBook(f, n), SeenOf(Some(PaymasterOf(f, n)), true) + SeenOf(FactoryOf(f), true))
  {
    FamilyWelcome(s, f, n, fee);
    hide Step, Welcome, CheckAdd, ApplyAll, CountUp, FamilyBook, Replaced;
    WelcomeAdd(s, FamilyOp(f, n, fee), Sender(n));
    InvStep(CFG, s, FamilyAdd(f, n, fee));
  }

  /** An inclusion changes nothing but the book. */
  lemma OneIncluded(t: State, a: string)
    requires Inv(t)
    ensures Step(CFG, t, Rep(Included(a))) == t.(book := Apply(t.book, Included(a))) && Inv(Step(CFG, t, Rep(Included(a))))
  {
    hide Step, Apply;
    RepStep(CFG, t, Included(a));
  }

  lemma FamilyIncluded(t: State, f: Family, n: nat) returns (v: State)
    requires Inv(t)
    requires t.book == ApplyAll(FamilyBook(f, n), SeenOf(Some(PaymasterOf(f, n)), true) + SeenOf(FactoryOf(f), true))
    ensures v == if f.WithFactory? then Step(CFG, Step(CFG, t, Rep(Included("p"))), Rep(Included("f"))) else Step(CFG, t, Rep(Included("p")))
    ensures v == t.(book := FamilyBook(f, n + 1)) && Inv(v)
  {
    hide Step, Apply, ApplyAll, FamilyBook, SeenOf;
    OneIncluded(t, "p");
    v := Step(CFG, t, Rep(Included("p")));
    if f.WithFactory? {
      OneIncluded(v, "f");
      v := Step(CFG, v, Rep(Included("f")));
      FamilyReputation(n, t.book);
    } else {
      PaymasterReputation(n, t.book);
    }
  }

  lemma FamilyNext(s: State, f: Family, n: nat, fee: nat) returns (v: State)
    requires FamilyState(s, f, n, fee)
    ensures var u := Step(CFG, Step(CFG, s, FamilyAdd(f, n, fee)), Rep(Included("p")));
            v == if f.WithFactory? then Step(CFG, u, Rep(Included("f"))) else u
    ensures FamilyState(v, f, n + 1, fee)
  {
    hide Step, Apply, ApplyAll, CountUp, FamilyBook, Inv, Listed;
    var t := Step(CFG, s, FamilyAdd(f, n, fee));
    FamilyAdded(s, f, n, fee, t);
    v := FamilyIncluded(t, f, n);
    FamilyPool(s, f, n, fee, v);
    FamilyCounts(s, f, n, fee);
  }

  lemma MoreActions(actions: seq<Action>, a: Action, b: Action, f: Family)
    ensures var u := Step(CFG, Step(CFG, Run(CFG, INITIAL, actions), a), b);
            Run(CFG, INITIAL, actions + [a] + [b] + FactoryIncluded(f)) == if f.WithFactory? then Step(CFG, u, Rep(Included("f"))) else u
  {
    hide Step;
    RunSnoc(CFG, INITIAL, actions, a);
    RunSnoc(CFG, INITIAL, actions + [a], b);
    if f.WithFactory? {
      RunSnoc(CFG, INITIAL, actions + [a] + [b], Rep(Included("f")));
    } else {
      assert actions + [a] + [b] + [] == actions + [a] + [b];
    }
  }

  lemma {:induction false} FamilyReached(f: Family, n: nat, fee: nat)
    ensures FamilyState(Run(CFG, INITIAL, FamilyAdds(f, n, fee)), f, n, fee)
  {
    if n > 0 {
      hide Run, FamilyBook, Listed, Inv, FamilyAdds;
      FamilyReached(f, n - 1, fee);
      FamilyStep(f, n - 1, fee);
    }
  }

  lemma FamilyStep(f: Family, n: nat, fee: nat)
    requires FamilyState(Run(CFG, INITIAL, FamilyAdds(f, n, fee)), f, n, fee)
    ensures FamilyState(Run(CFG, INITIAL, FamilyAdds(f, n + 1, fee)), f, n + 1, fee)
  {
    var v := FamilyNext(Run(CFG, INITIAL, FamilyAdds(f, n, fee)), f, n, fee);
    hide Step, Run, Inv, FamilyBook, Listed;
    MoreActions(FamilyAdds(f, n, fee), FamilyAdd(f, n, fee), Rep(Included("p")), f);
  }

  /** The family, and then a reputation for "p" that throttles it. */
  function FamilyRun(f: Family, n: nat, fee: nat): seq<Action> {
    FamilyAdds(f, n, fee) + [Rep(SetReputation([("p", RepEntry(200, 0))]))]
  }

  ghost predicate PaymasterThrottled(b: Book, f: Family) {
    GetStatus(b, FactoryOf(f)) == OK && forall i: nat :: GetStatus(b, Some(PaymasterOf(f, i))) == THROTTLED
  }

  lemma ThrottledBook(b: Book, f: Family, n: nat)
    requires b == FamilyBook(f, n)
    ensures PaymasterThrottled(Apply(b, SetReputation([("p", RepEntry(200, 0))])), f)
  {
    LowerOfOne('p');
    var items := [("p", RepEntry(200, 0))];
    assert items[..0] == [];
    assert Overwrite(b.entries, items) == Overwrite(b.entries, [])["p" := RepEntry(200, 0)];
    var c := Apply(b, SetReputation(items));
    LowerPaymaster(f, 0);
    forall i: nat ensures GetStatus(c, Some(PaymasterOf(f, i))) == THROTTLED { LowerPaymaster(f, i); }
  }

  /** What the builder then observes: the statuses in the reputation book, and a free validation. */
  function FamilyObserved(f: Family, book: Book): nat -> Observed {
    (i: nat) => Observed(0, GetStatus(book, Some(PaymasterOf(f, i))), GetStatus(book, FactoryOf(f)), Some(Costing(0)))
  }

  /** The counters of the paymaster after k ops of the family. */
  ghost predicate FamilyTally(t: Tally, f: Family, k: nat) {
    && Open(t, 0, 0) && |t.bundle| == k
    && match f
       case WithFactory => CountOf(t.entityCount, "p") == 0
       case TwoSpellings =>
           CountOf(t.entityCount, "p") == (if k < 4 then k else 4) && CountOf(t.entityCount, "P") == if k < 4 then 0 else k - 4
  }

  /** One more op of the family. */
  lemma FamilyBundled(r: Rules, t: Tally, x: Entry, f: Family, k: nat, fee: nat)
    requires FamilyTally(t, f, k) && (f.TwoSpellings? ==> k < 8) && x == FamilyEntry(f, k, fee) && Sender(k) !in t.senders
    ensures var o := Observed(0, THROTTLED, OK, Some(Costing(0)));
            && FateOf(r, t, x, o) == InBundle
            && FamilyTally(Consider(r, t, x, o), f, k + 1) && Consider(r, t, x, o).senders == t.senders + {Sender(k)}
  {
    hide Open, FateOf, Consider, CountOf;
    var o := Observed(0, THROTTLED, OK, Some(Costing(0)));
    PickedIsCharged(r, t, x, o, 0, 0);
    OpenStep(r, t, x, o, 0, 0);
    SendersStep(r, t, x, o);
    ListsStep(r, t, x, o);
    CountStep(r, t, x, o, "p");
    CountStep(r, t, x, o, "P");
  }

  /** Every sender in the tally is one of the first k. */
  ghost predicate FirstSenders(t: Tally, k: nat) { forall x :: x in t.senders ==> |x| <= k }

  lemma {:induction false} FamilyFates(b: Build, f: Family, n: nat, fee: nat, k: nat)
    requires |b.entries| == n && k <= n && (f.TwoSpellings? ==> n <= 8)
    requires forall i :: 0 <= i < n ==> b.entries[i] == FamilyEntry(f, i, fee)
    requires forall i: nat :: b.obs(i) == Observed(0, THROTTLED, OK, Some(Costing(0)))
    ensures FamilyTally(b.At(k), f, k) && FirstSenders(b.At(k), k)
    ensures k > 0 ==> b.Fate(k - 1) == InBundle
  {
    if k > 0 {
      hide FateOf, Consider, FamilyTally;
      FamilyFates(b, f, n, fee, k - 1);
      SenderLength(k - 1);
      FamilyBundled(b.r, b.At(k - 1), b.entries[k - 1], f, k - 1, fee);
    } else {
      assert Open(START, 0, 0);
    }
  }

  lemma FamilyGiven(f: Family, n: nat, fee: nat) returns (s: State)
    ensures s == Run(CFG, INITIAL, FamilyRun(f, n, fee)) && PaymasterThrottled(s.book, f)
    ensures var given := HandedOut(CFG, s, true); |given| == n && forall i :: 0 <= i < n ==> given[i] == FamilyEntry(f, i, fee)
  {
    hide Step, GetStatus, Apply, FamilyBook;
    var before := Run(CFG, INITIAL, FamilyAdds(f, n, fee));
    FamilyReached(f, n, fee);
    RunSnoc(CFG, INITIAL, FamilyAdds(f, n, fee), Rep(SetReputation([("p", RepEntry(200, 0))])));
    RepStep(CFG, before, SetReputation([("p", RepEntry(200, 0))]));
    s := Step(CFG, before, Rep(SetReputation([("p", RepEntry(200, 0))])));
    ThrottledBook(before.book, f, n);
    GivenInOrder(s, seq(n, i requires 0 <= i < n => FamilyEntry(f, i, fee)));
  }

  /** All n pending ops of the family name the throttled account "p" as paymaster, and all are bundled. */
  ghost predicate AllBundled(b: Build, n: nat) {
    && |b.entries| == n && ThrottledAccount(b, n, "p") && |b.At(n).bundle| == n
    && forall i :: 0 <= i < n ==> Naming("p")(b.entries[i].op) && b.Fate(i) == InBundle
  }

  lemma FamilyEntryAt(b: Build, book: Book, f: Family, i: nat, fee: nat)
    requires i < |b.entries| && b.entries[i] == FamilyEntry(f, i, fee) && b.obs == FamilyObserved(f, book)
    requires PaymasterThrottled(book, f)
    ensures b.obs(i) == Observed(0, THROTTLED, OK, Some(Costing(0)))
    ensures Naming("p")(b.entries[i].op) && !Names(b.entries[i].op.factory, "p")
  {
    hide GetStatus;
    LowerPaymaster(f, i);
    LowerOfOne('f');
  }

  lemma FamilyBuilt(b: Build, book: Book, f: Family, n: nat, fee: nat)
    requires |b.entries| == n && (forall i :: 0 <= i < n ==> b.entries[i] == FamilyEntry(f, i, fee)) && b.obs == FamilyObserved(f, book)
    requires PaymasterThrottled(book, f) && (f.TwoSpellings? ==> n <= 8)
    ensures AllBundled(b, n)
  {
    hide GetStatus, FateOf, Consider;
    FamilyFates(b, f, n, fee, n);
    forall i: nat | i < n ensures b.Fate(i) == InBundle { FamilyFates(b, f, n, fee, i + 1); }
    FamilyThrottled(b, book, f, n, fee);
  }

  lemma FamilyThrottled(b: Build, book: Book, f: Family, n: nat, fee: nat)
    requires |b.entries| == n && (forall i :: 0 <= i < n ==> b.entries[i] == FamilyEntry(f, i, fee)) && b.obs == FamilyObserved(f, book)
    requires PaymasterThrottled(book, f)
    ensures ThrottledAccount(b, n, "p") && forall i :: 0 <= i < n ==> Naming("p")(b.entries[i].op)
  {
    hide GetStatus, FamilyEntry, FamilyObserved, PaymasterThrottled;
    forall i: nat | i < n
      ensures b.obs(i).paymasterStatus == THROTTLED && Naming("p")(b.entries[i].op) && !Names(b.entries[i].op.factory, "p")
    {
      FamilyEntryAt(b, book, f, i, fee);
    }
  }

  lemma FamilyAllBundled(f: Family, n: nat, fee: nat, signer: Authorization -> string)
    requires f.TwoSpellings? ==> n <= 8
    ensures var s := Run(CFG, INITIAL, FamilyRun(f, n, fee));
            && PaymasterThrottled(s.book, f)
            && AllBundled(BuildAfter(CFG, s, true, 0, signer, FamilyObserved(f, s.book)), n)
  {
    var s := FamilyGiven(f, n, fee);
    hide AllBundled, PaymasterThrottled;
    FamilyBuilt(BuildAfter(CFG, s, true, 0, signer, FamilyObserved(f, s.book)), s.book, f, n, fee);
  }

  /** GREP-020 does not bind a paymaster whose ops carry factories: for any n there is a run of the mempool after which
      paymaster "p" is throttled, all n pending ops name it, and the bundle takes them all, because its counter stays
      at zero. The statuses that the builder observes are those of the reputation book. */
  lemma ThrottledPaymasterUnbounded(n: nat, fee: nat, signer: Authorization -> string)
    ensures var s := Run(CFG, INITIAL, FamilyRun(WithFactory, n, fee));
            && PaymasterThrottled(s.book, WithFactory)
            && AllBundled(BuildAfter(CFG, s, true, 0, signer, FamilyObserved(WithFactory, s.book)), n)
  {
    FamilyAllBundled(WithFactory, n, fee, signer);
  }

  /** Without factories, two spellings of the throttled paymaster are counted apart: after a run of the mempool four ops
      name "p" and up to four more "P", and the bundle takes them all. */
  lemma ThrottledInTwoSpellings(n: nat, fee: nat, signer: Authorization -> string)
    requires n <= 8
    ensures var s := Run(CFG, INITIAL, FamilyRun(TwoSpellings, n, fee));
            && PaymasterThrottled(s.book, TwoSpellings)
            && AllBundled(BuildAfter(CFG, s, true, 0, signer, FamilyObserved(TwoSpellings, s.book)), n)
  {
    FamilyAllBundled(TwoSpellings, n, fee, signer);
  }
}
