/** The runner as the source has it: mutable states on an explicit stack, with shared accumulators. */
module Erc7562Runner {
  import opened Common
  import opened Addresses
  import opened UserOps
  import opened Erc7562Rules
  import opened Erc7562Trace

  /** The two objects that every shallow copy of a runner state shares by reference. */
  class Accumulators {
    var contractAddresses: seq<string>
    var storageMap: SlotRecord

    constructor ()
      ensures contractAddresses == [] && storageMap == map[]
    {
      contractAddresses, storageMap := [], map[];
    }
  }

  class RunnerState {
    const frame: Frame
    const shared: Accumulators
    ghost const path: seq<nat>
    var currentEntity: Entity
    var currentEntityAddress: string

    constructor (frame: Frame, shared: Accumulators, ghost path: seq<nat>, entity: Entity, address: string)
      ensures this.frame == frame && this.shared == shared && this.path == path
      ensures Current() == Who(entity, address)
    {
      this.frame, this.shared, this.path := frame, shared, path;
      currentEntity, currentEntityAddress := entity, address;
    }

    function Current(): Who
      reads this
    {
      Who(currentEntity, currentEntityAddress)
    }

    ghost function Visited(): Visit
      reads this
    {
      Visit(path, frame, Current())
    }

    /** Assigns the entity fields of this state only. */
    method DetectEntityChange(c: Validation) returns (r: Option<Violation>)
      modifies this
      ensures Current() == c.Enter(frame, old(Current()))
      ensures r == c.CheckEntity(frame)
    {
      var from, to := Lower(frame.from), Lower(frame.to);
      if from != ZERO_ADDRESS && from != c.EP() && from !in CREATORS { return None; }
      if Lower(c.op.sender) == to {
        currentEntity, currentEntityAddress := Account, c.op.sender;
      } else if from in CREATORS && Names(c.op.factory, to) {
        currentEntity, currentEntityAddress := Factory, c.op.factory.value;
      } else if Names(c.op.paymaster, to) {
        currentEntity, currentEntityAddress := Paymaster, c.op.paymaster.value;
      } else if c.EP() == to {
        currentEntity, currentEntityAddress := EntryPoint, c.EP();
      } else if to in CREATORS {
        currentEntity, currentEntityAddress := SenderCreator, to;
      } else {
        return Some(UnknownEntity(frame.to));
      }
      return None;
    }

    /** Records every slot that it reaches before it judges it. */
    method CheckStorage(c: Validation) returns (r: Option<Violation>)
      modifies shared
      ensures r == c.CheckStorage(frame, Current())
      ensures shared.contractAddresses == old(shared.contractAddresses)
      ensures r.None? ==> shared.storageMap == AddSlots(old(shared.storageMap), frame.to, Touched(c, frame))
    {
      if c.ToEntryPoint(frame) { return None; }
      var slots := ParseEntitySlots(c);
      if slots.None? { return Some(MalformedAddress); }
      r := CheckSlots(c, slots.value);
    }

    method CheckSlots(c: Validation, entitySlots: map<string, set<string>>) returns (r: Option<Violation>)
      requires !c.ToEntryPoint(frame) && c.PadsKnown()
      requires SlotsParsed(c, c.EntityAddresses(), entitySlots, |c.keccak|)
      modifies shared
      ensures r == c.CheckStorage(frame, Current())
      ensures shared.contractAddresses == old(shared.contractAddresses)
      ensures r.None? ==> shared.storageMap == AddSlots(old(shared.storageMap), frame.to, frame.accessed.All())
    {
      var all := frame.accessed.All();
      var who := Current();
      for i := 0 to |all|
        invariant shared.contractAddresses == old(shared.contractAddresses)
        invariant shared.storageMap == AddSlots(old(shared.storageMap), frame.to, all[..i])
        invariant c.FirstSlotBreach(frame, who, all[i..]) == c.FirstSlotBreach(frame, who, all)
      {
        AddSlotsStep(old(shared.storageMap), frame.to, all, i);
        ghost var before := shared.storageMap;
        if frame.to !in shared.storageMap {
          shared.storageMap := shared.storageMap[frame.to := map[]];
        }
        shared.storageMap := shared.storageMap[frame.to := shared.storageMap[frame.to][all[i] := ""]];
        assert shared.storageMap == AddSlot(before, frame.to, all[i]);
        r := JudgeSlot(c, frame, who, all[i], entitySlots);
        SlotJudged(c, frame, who, all[i], entitySlots);
        assert all[i..][0] == all[i] && all[i..][1..] == all[i + 1..];
        if r.Some? { return; }
      }
      assert all[..|all|] == all;
      return None;
    }

    /** One iteration of the worklist: records the callee and runs the chain of rule checks on the popped state. */
    method Process(c: Validation) returns (r: Option<Violation>)
      modifies this, shared
      ensures Current() == c.Enter(frame, old(Current()))
      ensures r == VerdictOf(c)(Visited())
      ensures shared.contractAddresses == old(shared.contractAddresses) + [Lower(frame.to)]
      ensures r.None? ==> shared.storageMap == AddSlots(old(shared.storageMap), frame.to, Touched(c, frame))
    {
      shared.contractAddresses := shared.contractAddresses + [Lower(frame.to)];
      r := DetectEntityChange(c);
      if r.Some? { return; }
      r := c.OpcodeBreach(frame, Current());
      if r.Some? { return; }
      r := CheckStorage(c);
    }
  }

  // ---------- associated slots ----------

  /** The slots that the first `n` keccak inputs place under `addr`. */
  ghost function HashesUpTo(c: Validation, addr: string, n: nat): set<string>
    requires n <= |c.keccak|
  {
    if n == 0 then {}
    else if c.env.pad32(addr).Some? && c.env.pad32(addr).value <= c.keccak[n - 1]
    then HashesUpTo(c, addr, n - 1) + {c.env.keccak256(c.keccak[n - 1])}
    else HashesUpTo(c, addr, n - 1)
  }

  lemma {:induction false} HashOrigin(c: Validation, addr: string, n: nat, h: string)
    requires n <= |c.keccak|
    ensures h in HashesUpTo(c, addr, n) <==>
            exists i :: 0 <= i < n && c.env.pad32(addr).Some? && c.env.pad32(addr).value <= c.keccak[i] && c.env.keccak256(c.keccak[i]) == h
  {
    if n > 0 { HashOrigin(c, addr, n - 1, h); }
  }

  /** `slots` holds, for every entity address with a match among the first `n` keccak inputs, the slots they place. */
  ghost predicate SlotsParsed(c: Validation, entities: seq<Option<string>>, slots: map<string, set<string>>, n: nat)
    requires n <= |c.keccak|
  {
    && (forall a :: a in slots <==> Some(a) in entities && HashesUpTo(c, a, n) != {})
    && (forall a :: a in slots ==> slots[a] == HashesUpTo(c, a, n))
  }

  ghost predicate PadsKnownIn(c: Validation, entities: seq<Option<string>>) {
    forall a :: a in entities && a.Some? ==> c.env.pad32(a.value).Some?
  }

  method ParseEntitySlots(c: Validation) returns (r: Option<map<string, set<string>>>)
    ensures r.Some? <==> c.PadsKnown()
    ensures r.Some? ==> SlotsParsed(c, c.EntityAddresses(), r.value, |c.keccak|)
  {
    var entities := c.EntityAddresses();
    var slots: map<string, set<string>> := map[];
    for i := 0 to |c.keccak|
      invariant i > 0 ==> PadsKnownIn(c, entities)
      invariant SlotsParsed(c, entities, slots, i)
    {
      r := ScanInput(c, entities, i, slots);
      if r.None? { return; }
      slots := r.value;
    }
    return Some(slots);
  }

  /** What every entity address holds once the entities in `done` have been matched against input `i`. */
  ghost function Stage(c: Validation, done: seq<Option<string>>, i: nat): string -> set<string>
    requires i < |c.keccak|
  {
    (a: string) => if Some(a) in done then HashesUpTo(c, a, i + 1) else HashesUpTo(c, a, i)
  }

  /** The entities among `entities` that have reached something hold just that. */
  ghost predicate Holds(entities: seq<Option<string>>, slots: map<string, set<string>>, stage: string -> set<string>) {
    && (forall a :: a in slots <==> Some(a) in entities && stage(a) != {})
    && (forall a :: a in slots ==> slots[a] == stage(a))
  }

  function AddHash(slots: map<string, set<string>>, a: string, h: string): map<string, set<string>> {
    slots[a := (if a in slots then slots[a] else {}) + {h}]
  }

  lemma HashAdded(entities: seq<Option<string>>, slots: map<string, set<string>>, a: string, h: string,
                  stage: string -> set<string>, next: string -> set<string>)
    requires Holds(entities, slots, stage) && Some(a) in entities && next(a) == stage(a) + {h}
    requires forall b :: b != a ==> next(b) == stage(b)
    ensures Holds(entities, AddHash(slots, a, h), next)
  {
  }

  method ScanInput(c: Validation, entities: seq<Option<string>>, i: nat, before: map<string, set<string>>)
    returns (r: Option<map<string, set<string>>>)
    requires i < |c.keccak| && SlotsParsed(c, entities, before, i)
    ensures r.Some? <==> PadsKnownIn(c, entities)
    ensures r.Some? ==> SlotsParsed(c, entities, r.value, i + 1)
  {
    hide Holds, Stage, HashesUpTo;
    var slots := before;
    ScanStarts(c, entities, before, i);
    for j := 0 to |entities|
      invariant PadsKnownIn(c, entities[..j])
      invariant Holds(entities, slots, Stage(c, entities[..j], i))
    {
      PrefixStep(entities, j);
      ghost var was := slots;
      if entities[j].Some? {
        var a := entities[j].value;
        var padded := c.env.pad32(a);
        if padded.None? {
          assert entities[j] in entities;
          return None;
        }
        if padded.value <= c.keccak[i] {
          if a !in slots { slots := slots[a := {}]; }
          slots := slots[a := slots[a] + {c.env.keccak256(c.keccak[i])}];
          HashRecorded(was, a, c.env.keccak256(c.keccak[i]));
        }
      }
      ScanStep(c, entities, j, i, was, slots);
    }
    assert entities[..|entities|] == entities;
    ScanEnds(c, entities, slots, i);
    return Some(slots);
  }

  lemma HashRecorded(slots: map<string, set<string>>, a: string, h: string)
    ensures a in slots ==> slots[a := slots[a] + {h}] == AddHash(slots, a, h)
    ensures a !in slots ==> slots[a := {}][a := slots[a := {}][a] + {h}] == AddHash(slots, a, h)
  {
  }

  lemma ScanStarts(c: Validation, entities: seq<Option<string>>, slots: map<string, set<string>>, i: nat)
    requires i < |c.keccak| && SlotsParsed(c, entities, slots, i)
    ensures Holds(entities, slots, Stage(c, entities[..0], i))
  {
  }

  lemma ScanEnds(c: Validation, entities: seq<Option<string>>, slots: map<string, set<string>>, i: nat)
    requires i < |c.keccak| && Holds(entities, slots, Stage(c, entities, i))
    ensures SlotsParsed(c, entities, slots, i + 1)
  {
  }

  /** Matching input `i` against one more entity moves that address, and no other, to the next stage. */
  lemma ScanStep(c: Validation, entities: seq<Option<string>>, j: nat, i: nat,
                 slots: map<string, set<string>>, after: map<string, set<string>>)
    requires i < |c.keccak| && j < |entities| && Holds(entities, slots, Stage(c, entities[..j], i))
    requires entities[j].Some? ==> c.env.pad32(entities[j].value).Some?
    requires after == if entities[j].Some? && c.env.pad32(entities[j].value).value <= c.keccak[i]
                      then AddHash(slots, entities[j].value, c.env.keccak256(c.keccak[i]))
                      else slots
    ensures Holds(entities, after, Stage(c, entities[..j + 1], i))
  {
    var stage, next := Stage(c, entities[..j], i), Stage(c, entities[..j + 1], i);
    StageMoves(c, entities, j, i);
    hide Stage;
    if entities[j].Some? && c.env.pad32(entities[j].value).value <= c.keccak[i] {
      assert entities[j] in entities;
      HashAdded(entities, slots, entities[j].value, c.env.keccak256(c.keccak[i]), stage, next);
    } else {
      SameStage(entities, slots, stage, next);
    }
  }

  lemma SameStage(entities: seq<Option<string>>, slots: map<string, set<string>>,
                  stage: string -> set<string>, next: string -> set<string>)
    requires Holds(entities, slots, stage) && forall b :: next(b) == stage(b)
    ensures Holds(entities, slots, next)
  {
  }

  lemma StageMoves(c: Validation, entities: seq<Option<string>>, j: nat, i: nat)
    requires i < |c.keccak| && j < |entities|
    requires entities[j].Some? ==> c.env.pad32(entities[j].value).Some?
    ensures var stage, next := Stage(c, entities[..j], i), Stage(c, entities[..j + 1], i);
            forall b :: next(b) == if entities[j] == Some(b) && c.env.pad32(b).value <= c.keccak[i]
                                   then stage(b) + {c.env.keccak256(c.keccak[i])} else stage(b)
  {
    PrefixStep(entities, j);
    var stage, next := Stage(c, entities[..j], i), Stage(c, entities[..j + 1], i);
    forall b
      ensures next(b) == if entities[j] == Some(b) && c.env.pad32(b).value <= c.keccak[i]
                         then stage(b) + {c.env.keccak256(c.keccak[i])} else stage(b)
    {
      if entities[j] == Some(b) {
        assert Some(b) in entities[..j + 1];
        assert HashesUpTo(c, b, i + 1) == if c.env.pad32(b).value <= c.keccak[i]
                                          then HashesUpTo(c, b, i) + {c.env.keccak256(c.keccak[i])} else HashesUpTo(c, b, i);
      } else {
        assert Some(b) in entities[..j + 1] <==> Some(b) in entities[..j];
      }
    }
  }

  predicate AssociatedWith(c: Validation, slot: string, addr: string, slots: map<string, set<string>>) {
    if c.env.pad32(addr) == Some(slot) then true
    else if addr !in slots then false
    else exists h :: h in slots[addr] && Covers(c, h, slot)
  }

  /** `slot` lies in a structure of at most 128 slots that starts at `start`. */
  predicate Covers(c: Validation, start: string, slot: string) {
    c.env.slotNumber(start) <= c.env.slotNumber(slot) < c.env.slotNumber(start) + 128
  }

  lemma AssociatedWithIsAssociated(c: Validation, slot: string, addr: string, slots: map<string, set<string>>)
    requires SlotsParsed(c, c.EntityAddresses(), slots, |c.keccak|)
    ensures AssociatedWith(c, slot, addr, slots) <==> c.Associated(slot, addr)
  {
    if c.env.pad32(addr) != Some(slot) {
      if c.Associated(slot, addr) {
        var i :| 0 <= i < |c.keccak| && c.AssociatedBy(c.keccak[i], addr, slot);
        HashOrigin(c, addr, |c.keccak|, c.env.keccak256(c.keccak[i]));
      } else if AssociatedWith(c, slot, addr, slots) {
        var h :| h in slots[addr] && Covers(c, h, slot);
        HashOrigin(c, addr, |c.keccak|, h);
        var i :| 0 <= i < |c.keccak| && c.env.pad32(addr).value <= c.keccak[i] && c.env.keccak256(c.keccak[i]) == h;
        assert c.AssociatedBy(c.keccak[i], addr, slot);
      }
    }
  }

  /** One iteration of the storage loop, computed from the parsed entity slots. */
  function JudgeSlot(c: Validation, f: Frame, who: Who, slot: string, slots: map<string, set<string>>): Option<Violation> {
    if c.PadsThrow(who) then Some(MalformedAddress)
    else
      var senderAssociated := AssociatedWith(c, slot, Lower(c.op.sender), slots);
      var entityAssociated := AssociatedWith(c, slot, Lower(who.address), slots);
      var readOnly := slot !in f.accessed.writeSlots && slot !in f.accessed.transientWrites;
      var ifEntityStaked := Lower(f.to) == Lower(who.address) || entityAssociated || readOnly;
      var ifFactoryStaked := senderAssociated && c.op.factory.Some?;
      var allowed := Lower(f.to) == Lower(c.op.sender)
                  || (senderAssociated && c.op.factory.None?)
                  || (ifFactoryStaked && c.Staked(Factory))
                  || (ifEntityStaked && c.Staked(who.entity));
      if allowed then None
      else if (ifEntityStaked && !c.Staked(who.entity)) || (ifFactoryStaked && !c.Staked(Factory))
      then Some(UnstakedStorage(who.entity, c.NameOf(f.to), slot))
      else
        Some(ForbiddenStorage(who.entity,
          slot in f.accessed.writeSlots || slot in f.accessed.transientWrites,
          slot in f.accessed.transientReads || slot in f.accessed.transientWrites,
          c.NameOf(f.to), slot))
  }

  lemma SlotJudged(c: Validation, f: Frame, who: Who, slot: string, slots: map<string, set<string>>)
    requires SlotsParsed(c, c.EntityAddresses(), slots, |c.keccak|)
    ensures JudgeSlot(c, f, who, slot, slots) == c.SlotBreach(f, who, slot)
  {
    AssociatedWithIsAssociated(c, slot, Lower(c.op.sender), slots);
    AssociatedWithIsAssociated(c, slot, Lower(who.address), slots);
  }

  // ---------- the worklist ----------

  /** A frame that waits on the stack, with the entity inherited from its caller. */
  datatype Pending = Pending(frame: Frame, path: seq<nat>, caller: Who)

  /** The visits that a stack still stands for; its top is the last element. */
  ghost function Remaining(c: Validation, stack: seq<Pending>): seq<Visit> {
    if stack == [] then []
    else
      var top := stack[|stack| - 1];
      Trace(c, top.frame, top.path, top.caller) + Remaining(c, stack[..|stack| - 1])
  }

  ghost function Pushed(calls: seq<Frame>, path: seq<nat>, who: Who): seq<Pending> {
    seq(|calls|, i requires 0 <= i < |calls| => Pending(calls[i], path + [i], who))
  }

  lemma {:induction false} PushingChildren(c: Validation, stack: seq<Pending>, calls: seq<Frame>, path: seq<nat>, who: Who)
    ensures Remaining(c, stack + Pushed(calls, path, who)) == TraceCalls(c, calls, path, who) + Remaining(c, stack)
  {
    if calls == [] {
      assert stack + Pushed(calls, path, who) == stack;
    } else {
      var k := |calls| - 1;
      var below := stack + Pushed(calls[..k], path, who);
      PushedOnTop(stack, calls, path, who);
      hide Remaining, Pushed, Trace;
      PushingChildren(c, stack, calls[..k], path, who);
      PopOne(c, below, Pending(calls[k], path + [k], who));
      Regroup(Trace(c, calls[k], path + [k], who), TraceCalls(c, calls[..k], path, who), Remaining(c, stack));
    }
  }

  lemma Regroup<T>(a: seq<T>, b: seq<T>, c: seq<T>)
    ensures a + (b + c) == (a + b) + c
  {
  }

  lemma PushedOnTop(stack: seq<Pending>, calls: seq<Frame>, path: seq<nat>, who: Who)
    requires calls != []
    ensures var k := |calls| - 1;
            stack + Pushed(calls, path, who) == (stack + Pushed(calls[..k], path, who)) + [Pending(calls[k], path + [k], who)]
  {
    PushedSnoc(calls, path, who);
  }

  lemma PushedSnoc(calls: seq<Frame>, path: seq<nat>, who: Who)
    requires calls != []
    ensures var k := |calls| - 1;
            Pushed(calls, path, who) == Pushed(calls[..k], path, who) + [Pending(calls[k], path + [k], who)]
  {
  }

  lemma PopOne(c: Validation, stack: seq<Pending>, top: Pending)
    ensures Remaining(c, stack + [top]) == Trace(c, top.frame, top.path, top.caller) + Remaining(c, stack)
  {
    assert (stack + [top])[..|stack|] == stack;
  }

  ghost predicate Mirrors(stack: seq<RunnerState>, pend: seq<Pending>, shared: Accumulators)
    reads stack
  {
    && |stack| == |pend|
    && (forall i :: 0 <= i < |stack| ==> stack[i].shared == shared)
    && (forall i :: 0 <= i < |stack| ==> pend[i] == Pending(stack[i].frame, stack[i].path, stack[i].Current()))
    && (forall i, j :: 0 <= i < j < |stack| ==> stack[i] != stack[j])
  }

  /** What has been visited, and what the states on the stack stand for. */
  datatype Walk = Walk(done: seq<Visit>, pend: seq<Pending>)

  lemma Popped(stack: seq<RunnerState>, pend: seq<Pending>, shared: Accumulators)
    requires stack != [] && Mirrors(stack, pend, shared)
    ensures |pend| == |stack|
    ensures var n := |stack| - 1;
            && stack[n] !in stack[..n] && stack[n].shared == shared
            && pend[n] == Pending(stack[n].frame, stack[n].path, stack[n].Current())
            && Mirrors(stack[..n], pend[..n], shared)
  {
  }

  /** The invariant of the walk, with what the accumulators hold. */
  ghost predicate Progressing(c: Validation, root: Frame, done: seq<Visit>, pend: seq<Pending>,
                              addresses: seq<string>, storage: SlotRecord)
  {
    Walked(c, VerdictOf(c), root, done, pend) && addresses == Addressed(done) && storage == StorageOf(c, done)
  }

  lemma ProgressStarts(c: Validation, root: Frame)
    ensures Progressing(c, root, [], [Pending(root, [], NOBODY)], [], map[])
  {
    WalkStarts(c, VerdictOf(c), root);
  }

  lemma ProgressPrunes(c: Validation, root: Frame, done: seq<Visit>, pend: seq<Pending>, addresses: seq<string>, storage: SlotRecord)
    requires pend != [] && Progressing(c, root, done, pend, addresses, storage) && c.Pruned(pend[|pend| - 1].frame)
    ensures Progressing(c, root, done, pend[..|pend| - 1], addresses, storage)
    ensures Remaining(c, pend[..|pend| - 1]) == Remaining(c, pend)
  {
    WalkPrunes(c, VerdictOf(c), root, done, pend);
  }

  lemma ProgressVisits(c: Validation, root: Frame, done: seq<Visit>, pend: seq<Pending>,
                       addresses: seq<string>, storage: SlotRecord, v: Visit)
    requires pend != [] && Progressing(c, root, done, pend, addresses, storage) && Tops(c, pend, v)
    ensures VerdictOf(c)(v).Some? ==> Judge(c, root) == Left(VerdictOf(c)(v).value)
    ensures VerdictOf(c)(v).None? ==>
            Progressing(c, root, done + [v], Replaced(pend, v), addresses + [Lower(v.frame.to)],
                        AddSlots(storage, v.frame.to, Touched(c, v.frame)))
    ensures |Remaining(c, Replaced(pend, v))| < |Remaining(c, pend)|
  {
    WalkVisits(c, VerdictOf(c), root, done, pend, v);
    Recorded(c, done, v);
  }

  lemma ProgressEnds(c: Validation, root: Frame, done: seq<Visit>, addresses: seq<string>, storage: SlotRecord)
    requires Progressing(c, root, done, [], addresses, storage)
    ensures Judge(c, root) == Right(addresses, storage)
  {
    assert done + [] == done;
  }

  /** `done` has been visited without a breach, and the stack stands for exactly the visits that are left. */
  ghost predicate Walked(c: Validation, verdict: Verdict, root: Frame, done: seq<Visit>, pend: seq<Pending>) {
    && Visits(c, root) == done + Remaining(c, pend)
    && FirstBreach(verdict, Visits(c, root)) == FirstBreach(verdict, Remaining(c, pend))
  }

  lemma WalkStarts(c: Validation, verdict: Verdict, root: Frame)
    ensures Walked(c, verdict, root, [], [Pending(root, [], NOBODY)])
  {
    var pend := [Pending(root, [], NOBODY)];
    assert Remaining(c, pend) == Visits(c, root) + Remaining(c, pend[..0]) == Visits(c, root);
  }

  lemma WalkPrunes(c: Validation, verdict: Verdict, root: Frame, done: seq<Visit>, pend: seq<Pending>)
    requires pend != [] && Walked(c, verdict, root, done, pend) && c.Pruned(pend[|pend| - 1].frame)
    ensures Walked(c, verdict, root, done, pend[..|pend| - 1])
    ensures Remaining(c, pend[..|pend| - 1]) == Remaining(c, pend)
  {
    assert Remaining(c, pend) == [] + Remaining(c, pend[..|pend| - 1]) == Remaining(c, pend[..|pend| - 1]);
  }

  lemma WalkVisits(c: Validation, verdict: Verdict, root: Frame, done: seq<Visit>, pend: seq<Pending>, v: Visit)
    requires pend != [] && Walked(c, verdict, root, done, pend) && Tops(c, pend, v)
    ensures verdict(v).Some? ==> FirstBreach(verdict, Visits(c, root)) == verdict(v)
    ensures verdict(v).None? ==> Walked(c, verdict, root, done + [v], Replaced(pend, v))
    ensures |Remaining(c, Replaced(pend, v))| < |Remaining(c, pend)|
  {
    hide Tops;
    var after := Remaining(c, Replaced(pend, v));
    Expands(c, pend, v);
    BreachOfCons(verdict, v, after);
    assert done + ([v] + after) == (done + [v]) + after;
  }

  /** `v` is the visit of the frame on top of the stack. */
  ghost predicate Tops(c: Validation, pend: seq<Pending>, v: Visit)
    requires pend != []
  {
    var top := pend[|pend| - 1];
    !c.Pruned(top.frame) && v == Visit(top.path, top.frame, c.Enter(top.frame, top.caller))
  }

  ghost function Replaced(pend: seq<Pending>, v: Visit): seq<Pending>
    requires pend != []
  {
    pend[..|pend| - 1] + Pushed(v.frame.calls, v.path, v.who)
  }

  lemma Expands(c: Validation, pend: seq<Pending>, v: Visit)
    requires pend != [] && Tops(c, pend, v)
    ensures Remaining(c, pend) == [v] + Remaining(c, Replaced(pend, v))
  {
    var rest := pend[..|pend| - 1];
    PushingChildren(c, rest, v.frame.calls, v.path, v.who);
  }

  lemma BreachOfCons(verdict: Verdict, v: Visit, vs: seq<Visit>)
    ensures FirstBreach(verdict, [v] + vs) == if verdict(v).Some? then verdict(v) else FirstBreach(verdict, vs)
  {
    assert ([v] + vs)[1..] == vs;
  }

  lemma Recorded(c: Validation, done: seq<Visit>, v: Visit)
    ensures Addressed(done + [v]) == Addressed(done) + [Lower(v.frame.to)]
    ensures StorageOf(c, done + [v]) == AddSlots(StorageOf(c, done), v.frame.to, Touched(c, v.frame))
  {
    assert (done + [v])[..|done|] == done;
  }

  /** Returns what the recursive judgement says, although every state on the stack is mutated when it is popped. */
  method Runner(c: Validation, root: Frame) returns (r: Outcome)
    ensures r == Judge(c, root)
  {
    var shared := new Accumulators();
    var first := new RunnerState(root, shared, [], NoEntity, "");
    var stack := [first];
    ghost var walk := Walk([], [Pending(root, [], NOBODY)]);
    ProgressStarts(c, root);
    while stack != []
      invariant fresh(shared) && forall s :: s in stack ==> fresh(s)
      invariant Mirrors(stack, walk.pend, shared)
      invariant Progressing(c, root, walk.done, walk.pend, shared.contractAddresses, shared.storageMap)
      decreases |Remaining(c, walk.pend)|, |stack|
    {
      var violation;
      violation, stack, walk := Turn(c, root, stack, shared, walk);
      if violation.Some? { return Left(violation.value); }
    }
    ProgressEnds(c, root, walk.done, shared.contractAddresses, shared.storageMap);
    return Right(shared.contractAddresses, shared.storageMap);
  }

  /** One turn of the loop: pops a state, and prunes its frame or visits it. */
  method Turn(c: Validation, root: Frame, stack: seq<RunnerState>, shared: Accumulators, ghost walk: Walk)
    returns (violation: Option<Violation>, rest: seq<RunnerState>, ghost after: Walk)
    requires stack != [] && Mirrors(stack, walk.pend, shared)
    requires Progressing(c, root, walk.done, walk.pend, shared.contractAddresses, shared.storageMap)
    modifies stack[|stack| - 1], shared
    ensures violation.Some? ==> Judge(c, root) == Left(violation.value)
    ensures violation.None? ==>
            && Mirrors(rest, after.pend, shared)
            && Progressing(c, root, after.done, after.pend, shared.contractAddresses, shared.storageMap)
    ensures violation.None? ==>
            || |Remaining(c, after.pend)| < |Remaining(c, walk.pend)|
            || (Remaining(c, after.pend) == Remaining(c, walk.pend) && |rest| < |stack|)
    ensures forall s :: s in rest ==> s in stack || fresh(s)
  {
    hide Mirrors, Progressing, Remaining;
    Popped(stack, walk.pend, shared);
    var state := stack[|stack| - 1];
    rest, after := stack[..|stack| - 1], walk.(pend := walk.pend[..|stack| - 1]);
    if Lower(state.frame.to) == c.EP() && state.frame.from == c.EP() {
      ProgressPrunes(c, root, walk.done, walk.pend, shared.contractAddresses, shared.storageMap);
      return None, rest, after;
    }

    ghost var v := Visit(state.path, state.frame, c.Enter(state.frame, state.Current()));
    ProgressVisits(c, root, walk.done, walk.pend, shared.contractAddresses, shared.storageMap, v);
    ghost var pend;
    violation, rest, pend := VisitFrame(c, state, v, rest, after.pend);
    after := Walk(walk.done + [v], pend);
  }

  /** Processes a popped state and, unless it breaks a rule, pushes its children. */
  method VisitFrame(c: Validation, state: RunnerState, ghost v: Visit, below: seq<RunnerState>, ghost pending: seq<Pending>)
    returns (violation: Option<Violation>, stack: seq<RunnerState>, ghost pend: seq<Pending>)
    requires state !in below && Mirrors(below, pending, state.shared)
    requires v == Visit(state.path, state.frame, c.Enter(state.frame, state.Current()))
    modifies state, state.shared
    ensures violation == VerdictOf(c)(v)
    ensures state.shared.contractAddresses == old(state.shared.contractAddresses) + [Lower(v.frame.to)]
    ensures violation.None? ==> state.shared.storageMap == AddSlots(old(state.shared.storageMap), v.frame.to, Touched(c, v.frame))
    ensures violation.None? ==> pend == pending + Pushed(v.frame.calls, v.path, v.who) && Mirrors(stack, pend, state.shared)
    ensures forall s :: s in stack ==> s in below || fresh(s)
  {
    violation := state.Process(c);
    stack, pend := below, pending;
    if violation.None? {
      stack, pend := PushCalls(state, below, pending);
    }
  }

  /** Pushes a shallow copy of `state` for every child frame. */
  method PushCalls(state: RunnerState, before: seq<RunnerState>, ghost pending: seq<Pending>)
    returns (stack: seq<RunnerState>, ghost pend: seq<Pending>)
    requires Mirrors(before, pending, state.shared)
    ensures Mirrors(stack, pend, state.shared)
    ensures pend == pending + Pushed(state.frame.calls, state.path, state.Current())
    ensures forall s :: s in stack ==> s in before || fresh(s)
  {
    var calls := state.frame.calls;
    stack, pend := before, pending;
    for i := 0 to |calls|
      invariant Mirrors(stack, pend, state.shared)
      invariant pend == pending + Pushed(calls[..i], state.path, state.Current())
      invariant |before| <= |stack| && stack[..|before|] == before
      invariant forall i :: |before| <= i < |stack| ==> fresh(stack[i])
    {
      var child := new RunnerState(calls[i], state.shared, state.path + [i], state.currentEntity, state.currentEntityAddress);
      stack := stack + [child];
      pend := pend + [Pending(calls[i], state.path + [i], state.Current())];
      PushedSnoc(calls[..i + 1], state.path, state.Current());
      assert calls[..i + 1][..i] == calls[..i];
    }
    assert calls[..|calls|] == calls;
  }

  /** `parseTracerResult`: a root frame without calls is rejected before the walk. */
  method ParseTracerResult(env: Env, op: UserOp, root: Frame, result: ValidationResult) returns (r: Outcome)
    ensures root.calls == [] ==> r == Left(NoCalls)
    ensures root.calls != [] ==> r == Judge(Validation(env, op, result, root.keccak), root)
  {
    if |root.calls| < 1 { return Left(NoCalls); }
    r := Runner(Validation(env, op, result, root.keccak), root);
  }
}
