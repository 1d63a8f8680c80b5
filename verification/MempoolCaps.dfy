/** How many entries of the pool may name an address, in every role, and what decides an add. */
module MempoolCaps {
  import opened Common
  import opened Addresses
  import opened UserOps
  import opened OrderedRecord
  import opened Reputation
  import opened Mempool
  import opened MempoolInvariants
  import opened MempoolRuns

  // ---------- counts cover all roles ----------

  function MentionKeys(pool: Pool, x: string): set<string> { set k | k in pool.vals && Mentions(pool.vals[k].op, x) }

  /** What counts are kept for: lower case, and neither empty nor "0x". */
  predicate Countable(x: string) { Folded(x) && x != "" && x != "0x" }

  /** An accepted replacement that names `x` where the entry that it replaces does not. */
  predicate Brings(cfg: Config, s: State, a: Action, x: string) {
    Accepted(cfg, s, a) && Replaced(s, a.p).Some? && Mentions(a.p.op, x) && !Mentions(Replaced(s, a.p).value.op, x)
  }

  function Brought(cfg: Config, s: State, actions: seq<Action>, x: string): nat {
    if actions == [] then 0
    else
      var n := |actions| - 1;
      Brought(cfg, s, actions[..n], x) + if Brings(cfg, Run(cfg, s, actions[..n]), actions[n], x) then 1 else 0
  }

  /** The count of `x` and `extra` together are at least the number of entries that name it. */
  ghost predicate Covers(s: State, x: string, extra: nat) { |MentionKeys(s.pool, x)| <= CountAt(s.counts, x) + extra }

  /** A new entry raises the count of every address that it names by exactly one, and no other count. */
  lemma CountedOnce(was: Counts, op: UserOp, x: string)
    requires Countable(x)
    ensures CountAt(CountUp(was, op), x) == CountAt(was, x) + if Mentions(op, x) then 1 else 0
  {
  }

  lemma NarrowMentions(before: Pool, after: Pool, x: string)
    requires Narrows(before, after)
    ensures MentionKeys(after, x) <= MentionKeys(before, x)
  {
  }

  lemma InsertedMentions(before: Pool, after: Pool, e: Entry, was: Option<Entry>, x: string)
    requires Keyed(before) && Inserted(before, after, e, was)
    ensures |MentionKeys(after, x)| <= |MentionKeys(before, x)|
                                     + if Mentions(e.op, x) && !(was.Some? && Mentions(was.value.op, x)) then 1 else 0
  {
    var had, now := MentionKeys(before, x), MentionKeys(after, x);
    hide Mentions;
    if !Mentions(e.op, x) {
      SubsetSize(now, had);
    } else if was.Some? && Mentions(was.value.op, x) {
      ExchangedAtMost(had, now, was.value.hash, e.hash);
    } else {
      OneMoreAtMost(had, now, e.hash);
    }
  }

  lemma AddMentions(cfg: Config, s: State, a: Action, x: string)
    requires Inv(s) && Accepted(cfg, s, a)
    ensures |MentionKeys(Step(cfg, s, a).pool, x)|
         <= |MentionKeys(s.pool, x)|
            + if Mentions(a.p.op, x) && (Replaced(s, a.p).None? || Brings(cfg, s, a, x)) then 1 else 0
  {
    AddMeans(cfg, s, a);
    InsertedMentions(s.pool, Step(cfg, s, a).pool, EntryFor(a.p), Replaced(s, a.p), x);
  }

  lemma AddCovers(cfg: Config, s: State, a: Action, x: string, extra: nat)
    requires Inv(s) && Countable(x) && Covers(s, x, extra) && Accepted(cfg, s, a)
    ensures Covers(Step(cfg, s, a), x, extra + if Brings(cfg, s, a, x) then 1 else 0)
  {
    hide CheckAdd, AddEvents, CountUp, MentionKeys;
    AddMentions(cfg, s, a, x);
    CountedOnce(s.counts, a.p.op, x);
  }

  lemma DroppedMentions(before: Pool, after: Pool, k: string, x: string)
    requires k in before.vals && after.vals == before.vals - {k}
    ensures |MentionKeys(after, x)| == |MentionKeys(before, x)| - if Mentions(before.vals[k].op, x) then 1 else 0
  {
    var had, now := MentionKeys(before, x), MentionKeys(after, x);
    assert now == had - {k};
    assert k in had <==> Mentions(before.vals[k].op, x);
    OneLess(had, k);
  }

  lemma SendersAreMentioned(op: UserOp, x: string)
    requires op.sender == x && Folded(x)
    ensures Mentions(op, x)
  {
  }

  lemma RemoveCovers(s: State, ref: Ref, x: string, extra: nat)
    requires Inv(s) && Countable(x) && Covers(s, x, extra)
    ensures Covers(State(RemoveEntry(s, ref).0, RemoveEntry(s, ref).1, s.book), x, extra)
  {
    if Resolve(ref, s.pool).Some? {
      ResolveMeans(ref, s.pool);
      var e := Resolve(ref, s.pool).value;
      hide CountDown, Resolve, Mentions;
      DroppedMentions(s.pool, Delete(s.pool, e.hash), e.hash, x);
      CountedDownOnce(s.counts, e.op.sender, x);
      if e.op.sender == x { SendersAreMentioned(e.op, x); }
    }
  }

  lemma OthersCover(cfg: Config, s: State, a: Action, x: string, extra: nat)
    requires Inv(s) && Covers(s, x, extra) && !a.Add? && !a.Remove? && !a.BanSweep?
    ensures Covers(Step(cfg, s, a), x, extra)
  {
    OthersNarrow(cfg, s, a);
    NarrowMentions(s.pool, Step(cfg, s, a).pool, x);
    SubsetSize(MentionKeys(Step(cfg, s, a).pool, x), MentionKeys(s.pool, x));
  }

  lemma CoversStep(cfg: Config, s: State, a: Action, x: string, extra: nat)
    requires Inv(s) && Countable(x) && Covers(s, x, extra) && !a.BanSweep?
    ensures Covers(Step(cfg, s, a), x, extra + if Brings(cfg, s, a, x) then 1 else 0)
  {
    if Accepted(cfg, s, a) {
      AddCovers(cfg, s, a, x, extra);
    } else if a.Add? {
      RejectedChangesNothing(cfg, s, a);
    } else if a.Remove? {
      RemoveCovers(s, a.ref, x, extra);
    } else {
      OthersCover(cfg, s, a, x, extra);
    }
  }

  /** In every run without a ban sweep the count of an address is at least the number of entries that name it as sender,
      paymaster or factory, less those that replacements have brought in. */
  lemma {:induction false} RunCovers(cfg: Config, s: State, actions: seq<Action>, x: string)
    requires Inv(s) && Countable(x) && Covers(s, x, 0)
    requires forall a :: a in actions ==> !a.BanSweep?
    ensures Covers(Run(cfg, s, actions), x, Brought(cfg, s, actions, x))
  {
    hide Step, Covers, Brings;
    if actions != [] {
      var n := |actions| - 1;
      RunCovers(cfg, s, actions[..n], x);
      RunInv(cfg, s, actions[..n]);
      CoversStep(cfg, Run(cfg, s, actions[..n]), actions[n], x, Brought(cfg, s, actions[..n], x));
    }
  }

  // ---------- caps ----------

  /** The action is no accepted add of a new slot that names `x` at a count of `max` or more. */
  predicate FindsBelow(cfg: Config, s: State, a: Action, x: string, max: int) {
    Accepted(cfg, s, a) && Replaced(s, a.p).None? && Mentions(a.p.op, x) ==> CountAt(s.counts, x) < max
  }

  predicate AlwaysFindsBelow(cfg: Config, s: State, actions: seq<Action>, x: string, max: int) {
    actions != [] ==>
      var n := |actions| - 1;
      AlwaysFindsBelow(cfg, s, actions[..n], x, max) && FindsBelow(cfg, Run(cfg, s, actions[..n]), actions[n], x, max)
  }

  lemma MentionStep(cfg: Config, s: State, a: Action, x: string, max: nat, extra: nat)
    requires Inv(s) && Covers(s, x, extra) && |MentionKeys(s.pool, x)| <= max + extra && FindsBelow(cfg, s, a, x, max)
    ensures |MentionKeys(Step(cfg, s, a).pool, x)| <= max + extra + if Brings(cfg, s, a, x) then 1 else 0
  {
    if Accepted(cfg, s, a) {
      AddMentions(cfg, s, a, x);
    } else if a.Add? {
      RejectedChangesNothing(cfg, s, a);
    } else {
      OthersNarrow(cfg, s, a);
      NarrowMentions(s.pool, Step(cfg, s, a).pool, x);
      SubsetSize(MentionKeys(Step(cfg, s, a).pool, x), MentionKeys(s.pool, x));
    }
  }

  lemma {:induction false} MentionCap(cfg: Config, s: State, actions: seq<Action>, x: string, max: nat)
    requires Inv(s) && Countable(x) && Covers(s, x, 0) && |MentionKeys(s.pool, x)| <= max
    requires forall a :: a in actions ==> !a.BanSweep?
    requires AlwaysFindsBelow(cfg, s, actions, x, max)
    ensures |MentionKeys(Run(cfg, s, actions).pool, x)| <= max + Brought(cfg, s, actions, x)
  {
    hide Step, Covers, Brings, FindsBelow, MentionKeys;
    if actions != [] {
      var n := |actions| - 1;
      MentionCap(cfg, s, actions[..n], x, max);
      RunInv(cfg, s, actions[..n]);
      RunCovers(cfg, s, actions[..n], x);
      MentionStep(cfg, Run(cfg, s, actions[..n]), actions[n], x, max, Brought(cfg, s, actions[..n], x));
    }
  }

  /** Validation describes `x` under its own address, and its stake or its unstake delay is too low. */
  predicate Unstaked(cfg: Config, info: Option<StakeInfo>, x: string) {
    && info.Some? && Lower(info.value.addr) == x
    && (info.value.stake < cfg.limits.minStake || info.value.unstakeDelaySec < cfg.limits.minUnstakeDelay)
  }

  /** So it is in every role in which the op names `x`. */
  predicate UnstakedIn(cfg: Config, p: AddParams, x: string) {
    && (Lower(p.op.sender) == x ==> Unstaked(cfg, Some(p.sender), x))
    && (Names(p.op.paymaster, x) ==> Unstaked(cfg, p.paymaster, x))
    && (Names(p.op.factory, x) ==> Unstaked(cfg, p.factory, x))
  }

  lemma AllowanceFolds(b: Book, x: string, y: string)
    requires Lower(y) == x
    ensures MaxAllowedMempoolOpsUnstaked(b, y) == MaxAllowedMempoolOpsUnstaked(b, x)
  {
    LowerIsFolded(y);
  }

  lemma UnstakedFindsBelow(cfg: Config, s: State, p: AddParams, x: string, max: int)
    requires CheckAdd(cfg, s, p).None? && Replaced(s, p).None? && Mentions(p.op, x) && UnstakedIn(cfg, p, x)
    requires MaxAllowedMempoolOpsUnstaked(s.book, x) <= max && MAX_MEMPOOL_USEROPS_PER_SENDER <= max
    ensures CountAt(s.counts, x) < max
  {
    hide GetStatus, MaxAllowedMempoolOpsUnstaked;
    assert CheckReputation(s.book, cfg.limits, s.counts, p).None?;
    if Lower(p.op.sender) == x {
      assert CountAt(s.counts, x) < MAX_MEMPOOL_USEROPS_PER_SENDER;
    } else if Names(p.op.paymaster, x) {
      AllowanceFolds(s.book, x, p.paymaster.value.addr);
    } else {
      AllowanceFolds(s.book, x, p.factory.value.addr);
    }
  }

  /** The allowance of `x` for unstaked entities stays within `max` before every step. */
  predicate AllowanceWithin(cfg: Config, s: State, actions: seq<Action>, x: string, max: int) {
    actions != [] ==>
      var n := |actions| - 1;
      && AllowanceWithin(cfg, s, actions[..n], x, max)
      && MaxAllowedMempoolOpsUnstaked(Run(cfg, s, actions[..n]).book, x) <= max
  }

  lemma {:induction false} UnstakedAlwaysBelow(cfg: Config, s: State, actions: seq<Action>, x: string, max: int)
    requires forall a :: a in actions && a.Add? ==> UnstakedIn(cfg, a.p, x)
    requires AllowanceWithin(cfg, s, actions, x, max) && MAX_MEMPOOL_USEROPS_PER_SENDER <= max
    ensures AlwaysFindsBelow(cfg, s, actions, x, max)
  {
    hide Step, UnstakedIn, MaxAllowedMempoolOpsUnstaked, CheckAdd;
    if actions != [] {
      var n := |actions| - 1;
      var before, a := Run(cfg, s, actions[..n]), actions[n];
      UnstakedAlwaysBelow(cfg, s, actions[..n], x, max);
      if Accepted(cfg, before, a) && Replaced(before, a.p).None? && Mentions(a.p.op, x) {
        UnstakedFindsBelow(cfg, before, a.p, x, max);
      }
    }
  }

  lemma NobodyMentioned(x: string)
    ensures MentionKeys(INITIAL.pool, x) == {} && Covers(INITIAL, x, 0) && Inv(INITIAL)
  {
    assert MentionKeys(INITIAL.pool, x) == {};
  }

  /** UREP-010 and UREP-020: an address that is never staked, in whatever role an add names it, is named by no more entries
      than its allowance and the replacements that brought it in, in every run without a ban sweep. */
  lemma EntityCap(cfg: Config, actions: seq<Action>, x: string, max: nat)
    requires Countable(x) && forall a :: a in actions ==> !a.BanSweep?
    requires forall a :: a in actions && a.Add? ==> UnstakedIn(cfg, a.p, x)
    requires AllowanceWithin(cfg, INITIAL, actions, x, max) && MAX_MEMPOOL_USEROPS_PER_SENDER <= max
    ensures |MentionKeys(Run(cfg, INITIAL, actions).pool, x)| <= max + Brought(cfg, INITIAL, actions, x)
  {
    NobodyMentioned(x);
    UnstakedAlwaysBelow(cfg, INITIAL, actions, x, max);
    MentionCap(cfg, INITIAL, actions, x, max);
  }

  /** The action includes no op of `x` on chain and overwrites no reputation. */
  predicate IncludesNo(a: Action, x: string) {
    a.Rep? ==> !a.event.SetReputation? && !(a.event.Included? && Lower(a.event.addr) == x)
  }

  lemma NoneIncludedStep(b: Book, e: Event, x: string)
    requires EntryOf(b, x).opsIncluded == 0 && !e.SetReputation? && !(e.Included? && Lower(e.addr) == x)
    ensures EntryOf(Apply(b, e), x).opsIncluded == 0
  {
  }

  lemma {:induction false} NoneIncluded(b: Book, es: seq<Event>, x: string)
    requires EntryOf(b, x).opsIncluded == 0 && forall e :: e in es ==> !e.SetReputation? && !(e.Included? && Lower(e.addr) == x)
    ensures EntryOf(ApplyAll(b, es), x).opsIncluded == 0
    decreases es
  {
    if es != [] {
      assert es[0] in es && forall e :: e in es[1..] ==> e in es;
      NoneIncludedStep(b, es[0], x);
      NoneIncluded(Apply(b, es[0]), es[1..], x);
    }
  }

  lemma SeenEventsAreSeen(b: Book, lim: Limits, aggregator: Option<string>, op: UserOp, sender: StakeInfo, up: bool)
    ensures forall e :: e in SeenEvents(b, lim, aggregator, op, sender, up) ==> e.Seen?
  {
  }

  lemma NoInclusionInStep(cfg: Config, s: State, a: Action, x: string)
    requires IncludesNo(a, x)
    ensures forall e :: e in Events(cfg, s, a) ==> !e.SetReputation? && !(e.Included? && Lower(e.addr) == x)
  {
    hide CheckAdd, SeenEvents;
    if a.Add? && CheckAdd(cfg, s, a.p).None? {
      var was := FindBySenderNonce(a.p.op, s.pool);
      SeenEventsAreSeen(s.book, cfg.limits, EntryFor(a.p).aggregator, a.p.op, a.p.sender, true);
      if was.Some? {
        SeenEventsAreSeen(s.book, cfg.limits, was.value.aggregator, was.value.op, a.p.sender, false);
        var first := SeenEvents(s.book, cfg.limits, was.value.aggregator, was.value.op, a.p.sender, false);
        SeenEventsAreSeen(ApplyAll(s.book, first), cfg.limits, EntryFor(a.p).aggregator, a.p.op, a.p.sender, true);
      }
    }
  }

  lemma AllowanceIsTen(b: Book, x: string)
    requires Folded(x) && EntryOf(b, x).opsIncluded == 0
    ensures MaxAllowedMempoolOpsUnstaked(b, x) == 10
  {
  }

  lemma {:induction false} AllowanceStaysTen(cfg: Config, actions: seq<Action>, x: string)
    requires Folded(x) && forall a :: a in actions ==> IncludesNo(a, x)
    ensures EntryOf(Run(cfg, INITIAL, actions).book, x).opsIncluded == 0
    ensures AllowanceWithin(cfg, INITIAL, actions, x, 10)
  {
    hide Events, PoolStep, MaxAllowedMempoolOpsUnstaked, IncludesNo;
    if actions != [] {
      var n := |actions| - 1;
      var before := Run(cfg, INITIAL, actions[..n]);
      AllowanceStaysTen(cfg, actions[..n], x);
      AllowanceIsTen(before.book, x);
      NoInclusionInStep(cfg, before, actions[n], x);
      NoneIncluded(before.book, Events(cfg, before, actions[n]), x);
    }
  }

  /** An address that is never staked and never included on chain is named by at most ten entries, as long as no
      replacement brings it in. */
  lemma EntityCapTen(cfg: Config, actions: seq<Action>, x: string)
    requires Countable(x) && forall a :: a in actions ==> !a.BanSweep? && IncludesNo(a, x)
    requires forall a :: a in actions && a.Add? ==> UnstakedIn(cfg, a.p, x)
    requires Brought(cfg, INITIAL, actions, x) == 0
    ensures |MentionKeys(Run(cfg, INITIAL, actions).pool, x)| <= 10
  {
    AllowanceStaysTen(cfg, actions, x);
    EntityCap(cfg, actions, x, 10);
  }

  /** What the allowance adds for inclusions: the inclusion rate in tenths, and one per inclusion up to ten thousand. */
  lemma AllowanceGrows(b: Book, x: string)
    requires Folded(x) && EntryOf(b, x).opsSeen >= 0 && EntryOf(b, x).opsIncluded >= 0
    ensures var seen, included, rate :=
              EntryOf(b, x).opsSeen, EntryOf(b, x).opsIncluded,
              MaxAllowedMempoolOpsUnstaked(b, x) - 10 - if EntryOf(b, x).opsIncluded < 10000 then EntryOf(b, x).opsIncluded else 10000;
            if seen == 0 then rate == 0 else rate * seen <= 10 * included < rate * seen + seen
  {
  }

  // ---------- throttling ----------

  /** An add of a new slot that names a throttled address finds at most four entries counted. */
  lemma ThrottledFindsBelow(cfg: Config, s: State, p: AddParams, x: string)
    requires CheckAdd(cfg, s, p).None? && Replaced(s, p).None? && Mentions(p.op, x) && Described(p)
    requires Folded(x) && x != "0x7702" && GetStatus(s.book, Some(x)) == THROTTLED
    ensures CountAt(s.counts, x) < 5
  {
    assert CheckReputation(s.book, cfg.limits, s.counts, p).None?;
    if Lower(p.op.sender) == x {
      StatusFolds(s.book, p.sender.addr, x);
    } else if Names(p.op.paymaster, x) {
      StatusFolds(s.book, p.paymaster.value.addr, x);
    } else {
      assert Lower("0x7702") == "0x7702";
      StatusFolds(s.book, p.factory.value.addr, x);
    }
  }

  /** `x` is throttled before every step. */
  predicate ThrottledThroughoutRun(cfg: Config, s: State, actions: seq<Action>, x: string) {
    actions != [] ==>
      var n := |actions| - 1;
      ThrottledThroughoutRun(cfg, s, actions[..n], x) && GetStatus(Run(cfg, s, actions[..n]).book, Some(x)) == THROTTLED
  }

  lemma {:induction false} ThrottledAlwaysBelow(cfg: Config, s: State, actions: seq<Action>, x: string)
    requires Folded(x) && x != "0x7702" && AllDescribed(actions) && ThrottledThroughoutRun(cfg, s, actions, x)
    ensures AlwaysFindsBelow(cfg, s, actions, x, 5)
  {
    hide Step, Described, GetStatus, CheckAdd;
    if actions != [] {
      var n := |actions| - 1;
      var before, a := Run(cfg, s, actions[..n]), actions[n];
      assert forall b :: b in actions[..n] ==> b in actions;
      ThrottledAlwaysBelow(cfg, s, actions[..n], x);
      if Accepted(cfg, before, a) && Replaced(before, a.p).None? && Mentions(a.p.op, x) { ThrottledFindsBelow(cfg, before, a.p, x); }
    }
  }

  lemma {:induction false} BelowMore(cfg: Config, s: State, actions: seq<Action>, x: string, max: int, more: int)
    requires AlwaysFindsBelow(cfg, s, actions, x, max) && max <= more
    ensures AlwaysFindsBelow(cfg, s, actions, x, more)
  {
    hide Step, CheckAdd;
    if actions != [] { BelowMore(cfg, s, actions[..|actions| - 1], x, max, more); }
  }

  /** SREP-030: while an address is throttled, adds bring the entries that name it to five at most, unless there were more
      already or a replacement brings it in. */
  lemma ThrottledCap(cfg: Config, s: State, actions: seq<Action>, x: string, had: nat)
    requires Inv(s) && Countable(x) && x != "0x7702" && Covers(s, x, 0) && |MentionKeys(s.pool, x)| == had
    requires AllDescribed(actions) && ThrottledThroughoutRun(cfg, s, actions, x)
    requires forall a :: a in actions ==> !a.BanSweep?
    ensures |MentionKeys(Run(cfg, s, actions).pool, x)| <= (if had <= 5 then 5 else had) + Brought(cfg, s, actions, x)
  {
    var max := if had <= 5 then 5 else had;
    ThrottledAlwaysBelow(cfg, s, actions, x);
    BelowMore(cfg, s, actions, x, 5, max);
    MentionCap(cfg, s, actions, x, max);
  }

  // ---------- when the count of a sender is exact ----------

  /** `x` is only ever a sender, and always spelled in lower case. */
  predicate SenderOnly(op: UserOp, x: string) {
    && (Lower(op.sender) == x ==> op.sender == x)
    && !Names(op.paymaster, x) && !Names(op.factory, x)
  }

  ghost predicate SenderOnlyIn(pool: Pool, x: string) { forall k :: k in pool.vals ==> SenderOnly(pool.vals[k].op, x) }

  /** The action takes over no key of an entry in another slot, as hashes of different ops never do. */
  predicate FreshHash(cfg: Config, s: State, a: Action) {
    Accepted(cfg, s, a) && a.p.hash in s.pool.vals ==> Replaced(s, a.p) == Some(s.pool.vals[a.p.hash])
  }

  ghost predicate ExactCount(s: State, x: string) { CountAt(s.counts, x) == |SenderKeys(s.pool, x)| && SenderOnlyIn(s.pool, x) }

  lemma DroppedSenders(before: Pool, after: Pool, k: string, x: string)
    requires k in before.vals && after.vals == before.vals - {k}
    ensures |SenderKeys(after, x)| == |SenderKeys(before, x)| - if Lower(before.vals[k].op.sender) == x then 1 else 0
  {
    var had, now := SenderKeys(before, x), SenderKeys(after, x);
    assert now == had - {k};
    assert k in had <==> Lower(before.vals[k].op.sender) == x;
    OneLess(had, k);
  }

  lemma OneMoreSender(before: Pool, after: Pool, e: Entry, x: string)
    requires e.hash !in before.vals && after.vals == before.vals[e.hash := e]
    ensures |SenderKeys(after, x)| == |SenderKeys(before, x)| + if Lower(e.op.sender) == x then 1 else 0
  {
    assert before.vals == after.vals - {e.hash};
    DroppedSenders(after, before, e.hash, x);
  }

  lemma InsertedExactly(before: Pool, after: Pool, e: Entry, was: Option<Entry>, x: string)
    requires Keyed(before) && Inserted(before, after, e, was) && (e.hash in before.vals ==> was == Some(before.vals[e.hash]))
    ensures |SenderKeys(after, x)| == |SenderKeys(before, x)| + if was.None? && Lower(e.op.sender) == x then 1 else 0
  {
    hide SenderKeys, WellFormed;
    if was.None? {
      OneMoreSender(before, after, e, x);
    } else {
      var mid := Delete(before, was.value.hash);
      DroppedSenders(before, mid, was.value.hash, x);
      OneMoreSender(mid, after, e, x);
    }
  }

  lemma InsertedSenderOnly(before: Pool, after: Pool, e: Entry, was: Option<Entry>, x: string)
    requires Inserted(before, after, e, was) && SenderOnlyIn(before, x) && SenderOnly(e.op, x)
    ensures SenderOnlyIn(after, x)
  {
  }

  lemma AddExact(cfg: Config, s: State, a: Action, x: string)
    requires Inv(s) && Countable(x) && ExactCount(s, x) && Accepted(cfg, s, a) && FreshHash(cfg, s, a) && SenderOnly(a.p.op, x)
    ensures ExactCount(Step(cfg, s, a), x)
  {
    var t := Step(cfg, s, a);
    AddMeans(cfg, s, a);
    AddCounts(cfg, s, a);
    hide Step, CheckAdd, SenderOnlyIn, SenderOnly, SenderKeys, CountUp, WellFormed;
    InsertedExactly(s.pool, t.pool, EntryFor(a.p), Replaced(s, a.p), x);
    InsertedSenderOnly(s.pool, t.pool, EntryFor(a.p), Replaced(s, a.p), x);
    CountedOnce(s.counts, a.p.op, x);
    OnlyAsSender(a.p.op, x);
  }

  lemma AddCounts(cfg: Config, s: State, a: Action)
    requires Accepted(cfg, s, a)
    ensures Step(cfg, s, a).counts == if Replaced(s, a.p).None? then CountUp(s.counts, a.p.op) else s.counts
  {
    hide CheckAdd, CountUp, AddEvents;
  }

  lemma OnlyAsSender(op: UserOp, x: string)
    requires SenderOnly(op, x)
    ensures Mentions(op, x) <==> Lower(op.sender) == x
  {
  }

  lemma CountedDownOnce(counts: Counts, key: string, x: string)
    ensures CountAt(CountDown(counts, key), x)
         == if key != x then CountAt(counts, x) else if CountAt(counts, x) > 1 then CountAt(counts, x) - 1 else 0
  {
  }

  lemma RemoveExact(s: State, ref: Ref, x: string)
    requires Inv(s) && Countable(x) && ExactCount(s, x)
    ensures ExactCount(State(RemoveEntry(s, ref).0, RemoveEntry(s, ref).1, s.book), x)
  {
    if Resolve(ref, s.pool).Some? {
      ResolveMeans(ref, s.pool);
      var e := Resolve(ref, s.pool).value;
      var after := Delete(s.pool, e.hash);
      hide SenderKeys, CountDown, WellFormed, Resolve;
      DroppedSenders(s.pool, after, e.hash, x);
      CountedDownOnce(s.counts, e.op.sender, x);
      assert SenderOnly(s.pool.vals[e.hash].op, x);
    }
  }

  lemma OthersExact(cfg: Config, s: State, a: Action, x: string)
    requires Inv(s) && ExactCount(s, x) && (a.SetStatus? || a.HandOut? || a.Rep? || a.Clear?)
    ensures ExactCount(Step(cfg, s, a), x)
  {
    var after := Step(cfg, s, a).pool;
    OthersNarrow(cfg, s, a);
    if a.Clear? {
      assert SenderKeys(after, x) == {};
    } else {
      if a.HandOut? { MarkMeans(s.pool, HandedOut(cfg, s, a.all)); }
      if a.SetStatus? && Resolve(a.target, s.pool).Some? { ResolveMeans(a.target, s.pool); }
      assert SenderKeys(after, x) == SenderKeys(s.pool, x);
    }
  }

  ghost predicate RunFreshHashes(cfg: Config, s: State, actions: seq<Action>) {
    actions != [] ==>
      var n := |actions| - 1;
      RunFreshHashes(cfg, s, actions[..n]) && FreshHash(cfg, Run(cfg, s, actions[..n]), actions[n])
  }

  lemma ExactStep(cfg: Config, s: State, a: Action, x: string)
    requires Inv(s) && Countable(x) && ExactCount(s, x) && !a.BanSweep? && FreshHash(cfg, s, a)
    requires a.Add? ==> SenderOnly(a.p.op, x)
    ensures ExactCount(Step(cfg, s, a), x)
  {
    if Accepted(cfg, s, a) {
      AddExact(cfg, s, a, x);
    } else if a.Add? {
      RejectedChangesNothing(cfg, s, a);
    } else if a.Remove? {
      RemoveExact(s, a.ref, x);
    } else {
      OthersExact(cfg, s, a, x);
    }
  }

  /** For an address that is only a sender and spelled in lower case the count is exact in every run without a ban sweep. */
  lemma {:induction false} SenderCountExact(cfg: Config, s: State, actions: seq<Action>, x: string)
    requires Inv(s) && Countable(x) && ExactCount(s, x) && RunFreshHashes(cfg, s, actions)
    requires forall a :: a in actions ==> !a.BanSweep? && (a.Add? ==> SenderOnly(a.p.op, x))
    ensures CountAt(Run(cfg, s, actions).counts, x) == |SenderKeys(Run(cfg, s, actions).pool, x)|
    ensures ExactCount(Run(cfg, s, actions), x)
  {
    hide Step, FreshHash, SenderKeys, SenderOnly;
    if actions != [] {
      var n := |actions| - 1;
      SenderCountExact(cfg, s, actions[..n], x);
      RunInv(cfg, s, actions[..n]);
      ExactStep(cfg, Run(cfg, s, actions[..n]), actions[n], x);
    }
  }

  lemma BroughtIn(before: Pool, after: Pool, e: Entry, was: Entry, x: string)
    requires Inserted(before, after, e, Some(was)) && (e.hash in before.vals ==> was == before.vals[e.hash])
    requires Keyed(before) && Mentions(e.op, x) && !Mentions(was.op, x)
    ensures |MentionKeys(after, x)| == |MentionKeys(before, x)| + 1
  {
    hide Mentions, SameSlot;
    assert MentionKeys(after, x) == MentionKeys(before, x) + {e.hash};
  }

  /** Where the count is tight, a replacement keeps the law exactly when it does not bring the address in. */
  lemma ReplacementCoversIff(cfg: Config, s: State, a: Action, x: string)
    requires Inv(s) && Accepted(cfg, s, a) && Replaced(s, a.p).Some? && FreshHash(cfg, s, a)
    requires |MentionKeys(s.pool, x)| == CountAt(s.counts, x)
    ensures Covers(Step(cfg, s, a), x, 0) <==> !Brings(cfg, s, a, x)
  {
    AddMeans(cfg, s, a);
    AddCounts(cfg, s, a);
    AddMentions(cfg, s, a, x);
    hide Step, CheckAdd, Mentions, MentionKeys, CountAt, WellFormed, SameSlot;
    if Brings(cfg, s, a, x) { BroughtIn(s.pool, Step(cfg, s, a).pool, EntryFor(a.p), Replaced(s, a.p).value, x); }
  }

  // ---------- no count is kept at zero ----------

  ghost predicate Positive(counts: Counts) { forall x :: x in counts ==> counts[x] >= 1 }

  lemma {:induction false} SweptPositive(pool: Pool, counts: Counts, doomed: seq<Entry>)
    requires Positive(counts)
    ensures Positive(SweepAll(pool, counts, doomed).1)
    decreases doomed
  {
    if doomed != [] { SweptPositive(Delete(pool, doomed[0].hash), counts - SweepKeys(doomed[0].op), doomed[1..]); }
  }

  lemma CountedUpPositive(was: Counts, op: UserOp)
    requires Positive(was)
    ensures Positive(CountUp(was, op))
  {
  }

  lemma CountedDownPositive(counts: Counts, key: string)
    requires Positive(counts)
    ensures Positive(CountDown(counts, key))
  {
  }

  lemma PositiveStep(cfg: Config, s: State, a: Action)
    requires Positive(s.counts)
    ensures Positive(Step(cfg, s, a).counts)
  {
    assert Positive(map[]);
    hide Positive, CountUp, CountDown, CheckAdd, Resolve, SweepAll, Spelling, WithStatus, MarkBundling, ApplyAll, WellFormed;
    if Accepted(cfg, s, a) {
      AddCounts(cfg, s, a);
      CountedUpPositive(s.counts, a.p.op);
    } else if a.Add? {
      RejectedChangesNothing(cfg, s, a);
    } else if a.Remove? {
      if Resolve(a.ref, s.pool).Some? { CountedDownPositive(s.counts, Resolve(a.ref, s.pool).value.op.sender); }
    } else if a.BanSweep? {
      SweptPositive(s.pool, s.counts, Spelling(Values(s.pool), a.addr));
    }
  }

  /** In every run a count that reaches zero is forgotten. */
  lemma {:induction false} CountsPositive(cfg: Config, actions: seq<Action>)
    ensures Positive(Run(cfg, INITIAL, actions).counts)
  {
    if actions != [] {
      var n := |actions| - 1;
      CountsPositive(cfg, actions[..n]);
      PositiveStep(cfg, Run(cfg, INITIAL, actions[..n]), actions[n]);
    }
  }

  // ---------- what decides an add ----------

  /** The reputation rules for one role, without their order: not banned, not throttled with more than four entries counted,
      and staked once `max` entries are counted. */
  predicate RoleAllowed(cfg: Config, b: Book, counts: Counts, info: StakeInfo, max: int) {
    && GetStatus(b, Some(info.addr)) != BANNED
    && (GetStatus(b, Some(info.addr)) == THROTTLED ==> CountAt(counts, Lower(info.addr)) <= 4)
    && (CountAt(counts, Lower(info.addr)) >= max ==>
          info.stake >= cfg.limits.minStake && info.unstakeDelaySec >= cfg.limits.minUnstakeDelay)
  }

  predicate EntityAllowed(cfg: Config, b: Book, counts: Counts, info: Option<StakeInfo>) {
    info.Some? ==> RoleAllowed(cfg, b, counts, info.value, MaxAllowedMempoolOpsUnstaked(b, info.value.addr))
  }

  lemma RoleAllowedIff(cfg: Config, b: Book, counts: Counts, role: Role, info: StakeInfo, max: int)
    ensures CheckReputationStatus(b, cfg.limits, counts, role, info, max).None? <==> RoleAllowed(cfg, b, counts, info, max)
  {
  }

  lemma EntityAllowedIff(cfg: Config, b: Book, counts: Counts, role: Role, info: Option<StakeInfo>)
    ensures CheckOptional(b, cfg.limits, counts, role, info).None? <==> EntityAllowed(cfg, b, counts, info)
  {
    if info.Some? { RoleAllowedIff(cfg, b, counts, role, info.value, MaxAllowedMempoolOpsUnstaked(b, info.value.addr)); }
  }

  /** An add of a new slot is accepted exactly when the deposit suffices, every role is allowed by its reputation and stake,
      and the roles are apart from those of the entries in the pool. */
  lemma NewAddIff(cfg: Config, s: State, p: AddParams)
    requires Replaced(s, p).None?
    ensures CheckAdd(cfg, s, p).None? <==>
            && p.depositOk
            && RoleAllowed(cfg, s.book, s.counts, p.sender, 4)
            && EntityAllowed(cfg, s.book, s.counts, p.paymaster)
            && EntityAllowed(cfg, s.book, s.counts, p.factory)
            && EntityAllowed(cfg, s.book, s.counts, p.aggregator)
            && RolesApart(s.pool, p.op)
  {
    hide CheckReputationStatus, RoleAllowed, CheckMultipleRoles, EntityAllowed, CheckOptional;
    RoleAllowedIff(cfg, s.book, s.counts, Account, p.sender, 4);
    EntityAllowedIff(cfg, s.book, s.counts, PaymasterRole, p.paymaster);
    EntityAllowedIff(cfg, s.book, s.counts, Deployer, p.factory);
    EntityAllowedIff(cfg, s.book, s.counts, Aggregator, p.aggregator);
    RolesApartIff(s.pool, p.op);
  }

  /** The described role of an error. */
  function InfoOf(p: AddParams, role: Role): Option<StakeInfo> {
    match role
    case Account => Some(p.sender)
    case PaymasterRole => p.paymaster
    case Deployer => p.factory
    case Aggregator => p.aggregator
  }

  predicate About(p: AddParams, role: Role, addr: string) { InfoOf(p, role).Some? && InfoOf(p, role).value.addr == addr }

  /** What a rejection says is true of the state and the op. */
  predicate Truthful(cfg: Config, s: State, p: AddParams, r: Reject) {
    match r
    case PaymasterDepositTooLow => !p.depositOk
    case IsBanned(role, addr) => About(p, role, addr) && GetStatus(s.book, Some(addr)) == BANNED
    case IsThrottled(role, addr) =>
      About(p, role, addr) && GetStatus(s.book, Some(addr)) == THROTTLED && CountAt(s.counts, Lower(addr)) > 4
    case StakeTooLow(role, addr) => About(p, role, addr) && InfoOf(p, role).value.stake < cfg.limits.minStake
    case UnstakeDelayTooLow(role, addr) =>
      About(p, role, addr) && InfoOf(p, role).value.unstakeDelaySec < cfg.limits.minUnstakeDelay
    case PriorityFeeTooLow =>
      Replaced(s, p).Some? && 10 * p.op.maxPriorityFeePerGas < 11 * Replaced(s, p).value.op.maxPriorityFeePerGas
    case MaxFeeTooLow => Replaced(s, p).Some? && 10 * p.op.maxFeePerGas < 11 * Replaced(s, p).value.op.maxFeePerGas
    case SenderIsEntity(sender) => sender == p.op.sender && Lower(sender) in KnownEntities(s.pool)
    case PaymasterIsSender(paymaster) => paymaster == p.op.paymaster && Lower(paymaster.GetOr("")) in KnownSenders(s.pool)
    case FactoryIsSender(factory) => factory == p.op.factory && Lower(factory.GetOr("")) in KnownSenders(s.pool)
  }

  lemma StatusTruthful(cfg: Config, s: State, p: AddParams, role: Role, info: StakeInfo, max: int)
    requires InfoOf(p, role) == Some(info) && CheckReputationStatus(s.book, cfg.limits, s.counts, role, info, max).Some?
    ensures Truthful(cfg, s, p, CheckReputationStatus(s.book, cfg.limits, s.counts, role, info, max).value)
  {
    hide GetStatus;
  }

  lemma OptionalTruthful(cfg: Config, s: State, p: AddParams, role: Role, info: Option<StakeInfo>)
    requires InfoOf(p, role) == info && CheckOptional(s.book, cfg.limits, s.counts, role, info).Some?
    ensures Truthful(cfg, s, p, CheckOptional(s.book, cfg.limits, s.counts, role, info).value)
  {
    hide Truthful, CheckReputationStatus, MaxAllowedMempoolOpsUnstaked;
    StatusTruthful(cfg, s, p, role, info.value, MaxAllowedMempoolOpsUnstaked(s.book, info.value.addr));
  }

  lemma ReputationTruthful(cfg: Config, s: State, p: AddParams)
    requires CheckReputation(s.book, cfg.limits, s.counts, p).Some?
    ensures Truthful(cfg, s, p, CheckReputation(s.book, cfg.limits, s.counts, p).value)
  {
    hide Truthful, CheckReputationStatus, CheckOptional;
    if CheckReputationStatus(s.book, cfg.limits, s.counts, Account, p.sender, MAX_MEMPOOL_USEROPS_PER_SENDER).Some? {
      StatusTruthful(cfg, s, p, Account, p.sender, MAX_MEMPOOL_USEROPS_PER_SENDER);
    } else if CheckOptional(s.book, cfg.limits, s.counts, PaymasterRole, p.paymaster).Some? {
      OptionalTruthful(cfg, s, p, PaymasterRole, p.paymaster);
    } else if CheckOptional(s.book, cfg.limits, s.counts, Deployer, p.factory).Some? {
      OptionalTruthful(cfg, s, p, Deployer, p.factory);
    } else {
      OptionalTruthful(cfg, s, p, Aggregator, p.aggregator);
    }
  }

  /** The reason of a rejection is never wrong. */
  lemma RejectedTruthfully(cfg: Config, s: State, p: AddParams)
    requires CheckAdd(cfg, s, p).Some?
    ensures Truthful(cfg, s, p, CheckAdd(cfg, s, p).value)
  {
    hide GetStatus, KnownEntities, KnownSenders, CheckReputation;
    if p.depositOk && Replaced(s, p).None? && CheckReputation(s.book, cfg.limits, s.counts, p).Some? { ReputationTruthful(cfg, s, p); }
  }
}
