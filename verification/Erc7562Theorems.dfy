/** What the verdict of the runner means, stated without the walk that computes it. */
module Erc7562Theorems {
  import opened Common
  import opened Addresses
  import opened UserOps
  import opened Erc7562Rules
  import opened Erc7562Trace

  // ---------- which frames are visited, and in which order ----------

  /** A call of the EntryPoint to itself; the caller is compared as it is spelled. */
  predicate SelfCall(c: Validation, f: Frame) { Lower(f.to) == c.EP() && f.from == c.EP() }

  /** `p` leads from `f` to a frame that no EntryPoint self-call hides. */
  predicate Reaches(c: Validation, f: Frame, p: seq<nat>)
    decreases |p|
  {
    !SelfCall(c, f) && (p == [] || (p[0] < |f.calls| && Reaches(c, f.calls[p[0]], p[1..])))
  }

  predicate Leads(f: Frame, p: seq<nat>)
    decreases |p|
  {
    p == [] || (p[0] < |f.calls| && Leads(f.calls[p[0]], p[1..]))
  }

  function FrameAt(f: Frame, p: seq<nat>): Frame
    requires Leads(f, p)
    decreases |p|
  {
    if p == [] then f else FrameAt(f.calls[p[0]], p[1..])
  }

  /** The entity at the end of path `p` when the frame at its start was entered from `caller`. */
  function WhoAt(c: Validation, f: Frame, p: seq<nat>, caller: Who): Who
    requires Leads(f, p)
    decreases |p|
  {
    var who := c.Enter(f, caller);
    if p == [] then who else WhoAt(c, f.calls[p[0]], p[1..], who)
  }

  ghost predicate VisitOf(c: Validation, f: Frame, base: seq<nat>, caller: Who, v: Visit, p: seq<nat>) {
    Reaches(c, f, p) && Leads(f, p) && v == Visit(base + p, FrameAt(f, p), WhoAt(c, f, p, caller))
  }

  lemma {:induction false} TraceSound(c: Validation, f: Frame, base: seq<nat>, caller: Who, v: Visit) returns (p: seq<nat>)
    requires v in Trace(c, f, base, caller)
    ensures VisitOf(c, f, base, caller, v, p)
    decreases f, 1
  {
    var who := c.Enter(f, caller);
    if v == Visit(base, f, who) {
      p := [];
      assert base + p == base;
    } else {
      var k, q := CallsSound(c, f.calls, base, who, v);
      p := [k] + q;
      assert p[1..] == q && base + [k] + q == base + p;
    }
  }

  lemma {:induction false} CallsSound(c: Validation, calls: seq<Frame>, base: seq<nat>, who: Who, v: Visit)
    returns (k: nat, q: seq<nat>)
    requires v in TraceCalls(c, calls, base, who)
    ensures k < |calls| && VisitOf(c, calls[k], base + [k], who, v, q)
    decreases calls, 0
  {
    k := |calls| - 1;
    if v in Trace(c, calls[k], base + [k], who) {
      q := TraceSound(c, calls[k], base + [k], who, v);
    } else {
      k, q := CallsSound(c, calls[..k], base, who, v);
    }
  }

  lemma {:induction false} TraceComplete(c: Validation, f: Frame, base: seq<nat>, caller: Who, p: seq<nat>)
    requires Reaches(c, f, p) && Leads(f, p)
    ensures Visit(base + p, FrameAt(f, p), WhoAt(c, f, p, caller)) in Trace(c, f, base, caller)
    decreases f, 1
  {
    if p == [] {
      assert base + p == base;
    } else {
      CallsComplete(c, f.calls, base, c.Enter(f, caller), p[0], p[1..]);
      assert base + [p[0]] + p[1..] == base + p;
    }
  }

  lemma {:induction false} CallsComplete(c: Validation, calls: seq<Frame>, base: seq<nat>, who: Who, k: nat, q: seq<nat>)
    requires k < |calls| && Reaches(c, calls[k], q) && Leads(calls[k], q)
    ensures Visit(base + [k] + q, FrameAt(calls[k], q), WhoAt(c, calls[k], q, who)) in TraceCalls(c, calls, base, who)
    decreases calls, 0
  {
    if k == |calls| - 1 {
      TraceComplete(c, calls[k], base + [k], who, q);
    } else {
      CallsComplete(c, calls[..|calls| - 1], base, who, k, q);
    }
  }

  /** The frame at the end of the visit's path is open to the walk, and the visit is the one that the path determines. */
  predicate ByPath(c: Validation, root: Frame, v: Visit) {
    && Reaches(c, root, v.path) && Leads(root, v.path)
    && v.frame == FrameAt(root, v.path) && v.who == WhoAt(c, root, v.path, NOBODY)
  }

  lemma VisitedSound(c: Validation, root: Frame, v: Visit)
    requires v in Visits(c, root)
    ensures ByPath(c, root, v)
  {
    var p := TraceSound(c, root, [], NOBODY, v);
    assert [] + p == p;
  }

  lemma VisitedComplete(c: Validation, root: Frame, v: Visit)
    requires ByPath(c, root, v)
    ensures v in Visits(c, root)
  {
    TraceComplete(c, root, [], NOBODY, v.path);
    assert [] + v.path == v.path;
  }

  /** Exactly the frames that no EntryPoint self-call hides are visited, each under the entity of its path. */
  lemma VisitedExactly(c: Validation, root: Frame, v: Visit)
    ensures v in Visits(c, root) <==> ByPath(c, root, v)
  {
    hide ByPath;
    if v in Visits(c, root) { VisitedSound(c, root, v); }
    if ByPath(c, root, v) { VisitedComplete(c, root, v); }
  }

  /** Parents before children, and of two siblings the later one first. */
  ghost predicate Before(p: seq<nat>, q: seq<nat>) {
    p < q || exists n :: ForksAt(p, q, n)
  }

  ghost predicate ForksAt(p: seq<nat>, q: seq<nat>, n: nat) {
    n < |p| && n < |q| && p[..n] == q[..n] && p[n] > q[n]
  }

  ghost predicate InOrder(vs: seq<Visit>) {
    forall i, j :: 0 <= i < j < |vs| ==> Before(vs[i].path, vs[j].path)
  }

  /** The walk is preorder with children from last to first, so no frame is visited twice. */
  lemma VisitOrder(c: Validation, root: Frame)
    ensures InOrder(Visits(c, root))
    ensures forall i, j :: 0 <= i < j < |Visits(c, root)| ==> Visits(c, root)[i].path != Visits(c, root)[j].path
  {
    TraceInOrder(c, root, [], NOBODY);
    forall i, j | 0 <= i < j < |Visits(c, root)| ensures Visits(c, root)[i].path != Visits(c, root)[j].path {
      assert Before(Visits(c, root)[i].path, Visits(c, root)[j].path);
    }
  }

  lemma {:induction false} TraceInOrder(c: Validation, f: Frame, base: seq<nat>, caller: Who)
    ensures InOrder(Trace(c, f, base, caller))
    decreases f, 1
  {
    if !c.Pruned(f) {
      var who := c.Enter(f, caller);
      var below := TraceCalls(c, f.calls, base, who);
      CallsInOrder(c, f.calls, base, who);
      forall v | v in below ensures base < v.path {
        var k, q := CallsSound(c, f.calls, base, who, v);
      }
      Chain([Visit(base, f, who)], below);
    }
  }

  lemma {:induction false} CallsInOrder(c: Validation, calls: seq<Frame>, base: seq<nat>, who: Who)
    ensures InOrder(TraceCalls(c, calls, base, who))
    decreases calls, 0
  {
    if calls != [] {
      var k := |calls| - 1;
      var first, rest := Trace(c, calls[k], base + [k], who), TraceCalls(c, calls[..k], base, who);
      TraceInOrder(c, calls[k], base + [k], who);
      CallsInOrder(c, calls[..k], base, who);
      forall v, w | v in first && w in rest ensures Before(v.path, w.path) {
        var p := TraceSound(c, calls[k], base + [k], who, v);
        var j, q := CallsSound(c, calls[..k], base, who, w);
        assert ForksAt(base + [k] + p, base + [j] + q, |base|);
      }
      Chain(first, rest);
    }
  }

  lemma Chain(vs: seq<Visit>, ws: seq<Visit>)
    requires InOrder(vs) && InOrder(ws)
    requires forall v, w :: v in vs && w in ws ==> Before(v.path, w.path)
    ensures InOrder(vs + ws)
  {
    forall i, j | 0 <= i < j < |vs + ws| ensures Before((vs + ws)[i].path, (vs + ws)[j].path) {
      if i < |vs| <= j {
        assert vs[i] in vs && ws[j - |vs|] in ws;
      } else if |vs| <= i {
        assert Before(ws[i - |vs|].path, ws[j - |vs|].path);
      }
    }
  }

  // ---------- what Left and Right mean ----------

  ghost predicate Clean(c: Validation, vs: seq<Visit>) {
    forall i :: 0 <= i < |vs| ==> VerdictOf(c)(vs[i]).None?
  }

  lemma {:induction false} FirstBreachMeaning(verdict: Verdict, vs: seq<Visit>)
    ensures FirstBreach(verdict, vs).None? ==> forall i :: 0 <= i < |vs| ==> verdict(vs[i]).None?
    ensures FirstBreach(verdict, vs).Some? ==>
            exists k :: 0 <= k < |vs| && verdict(vs[k]) == FirstBreach(verdict, vs) && forall i :: 0 <= i < k ==> verdict(vs[i]).None?
  {
    if vs != [] {
      FirstBreachMeaning(verdict, vs[1..]);
      assert vs == [vs[0]] + vs[1..];
      if verdict(vs[0]).Some? {
      } else if FirstBreach(verdict, vs).Some? {
        var k :| 0 <= k < |vs[1..]| && verdict(vs[1..][k]) == FirstBreach(verdict, vs) && forall i :: 0 <= i < k ==> verdict(vs[1..][i]).None?;
        assert vs[k + 1] == vs[1..][k];
        forall i | 0 <= i < k + 1 ensures verdict(vs[i]).None? {
          if i > 0 { assert vs[i] == vs[1..][i - 1]; }
        }
      }
    }
  }

  /** Left exactly when some visited frame breaks a rule, with the error of the first such frame in the visit order;
      Right with one lower-cased callee per visit, in that order. */
  lemma JudgeMeaning(c: Validation, root: Frame)
    ensures var vs, r := Visits(c, root), Judge(c, root);
            && (r.Right? <==> Clean(c, vs))
            && (r.Left? ==> exists k :: 0 <= k < |vs| && VerdictOf(c)(vs[k]) == Some(r.violation) && Clean(c, vs[..k]))
            && (r.Right? ==>
                 |r.contractAddresses| == |vs| && forall i :: 0 <= i < |vs| ==> r.contractAddresses[i] == Lower(vs[i].frame.to))
  {
    FirstBreachMeaning(VerdictOf(c), Visits(c, root));
    AddressedAt(Visits(c, root));
  }

  lemma {:induction false} AddressedAt(vs: seq<Visit>)
    ensures |Addressed(vs)| == |vs|
    ensures forall i :: 0 <= i < |vs| ==> Addressed(vs)[i] == Lower(vs[i].frame.to)
  {
    if vs != [] { AddressedAt(vs[..|vs| - 1]); }
  }

  // ---------- the rules without their order ----------

  predicate Enough(info: Option<StakeInfo>) { info.Some? && info.value.stake > 0 && info.value.unstakeDelaySec > 0 }

  /** The entity has a stake of its own; EntryPoint and SenderCreator never have one. */
  predicate Backed(c: Validation, e: Entity) {
    || (e == Account && Enough(Some(c.result.sender)))
    || (e == Factory && Enough(c.result.factory))
    || (e == Paymaster && Enough(c.result.paymaster))
  }

  /** OP-031, OP-032 and EREP-060: who may create a contract. */
  predicate MayCreate(c: Validation, f: Frame, who: Who) {
    || (who.entity == Factory && Lower(f.to) == Lower(c.op.sender))
    || (f.typ == Create && c.op.factory.Some? && (who.entity == Account || who.entity == Factory) && Lower(f.from) == Lower(c.op.sender))
    || (Backed(c, Factory) && (Lower(f.from) == Lower(c.op.sender) || Names(c.op.factory, Lower(f.from))))
  }

  /** OP-041 and OP-062: a contract that validation looks at is deployed, and no precompile above 9. */
  predicate MayUse(c: Validation, u: ContractUse) {
    match c.env.parseHex(u.address)
    case Some(n) => (1 <= n <= 9) || (!(1 <= n < 1000) && Existing(c, u))
    case None => Existing(c, u)
  }

  predicate Existing(c: Validation, u: ContractUse) {
    u.size > 2 || Lower(u.address) == Lower(c.op.sender) || Lower(u.address) == c.EP()
  }

  /** The EntryPoint is called by a contract other than itself; the zero address is the top-level call. */
  predicate EntersEntryPoint(c: Validation, f: Frame) {
    Lower(f.to) == c.EP() && Lower(f.from) != c.EP() && Lower(f.from) != ZERO_ADDRESS
  }

  /** What the input calls: the method of its first ten characters, or these characters when no method is known. */
  predicate CallsMethod(c: Validation, f: Frame, name: string) {
    match f.input
    case None => name == "<no-input>"
    case Some(input) =>
      var selector := input[..if |input| <= 10 then |input| else 10];
      if c.env.methodName(selector).Some? then c.env.methodName(selector) == Some(name) else name == selector
  }

  /** OP-052 to OP-054: the methods of the EntryPoint that validation may call. */
  predicate MayEnter(c: Validation, f: Frame) { exists name :: name in ALLOWED_METHODS && CallsMethod(c, f, name) }

  /** What ERC-7562 asks of the opcodes and calls of one frame that runs under `who`. */
  ghost predicate OpcodesAllowed(c: Validation, f: Frame, who: Who) {
    && (Lower(f.to) != c.EP() ==> forall opcode :: opcode in f.usedOpcodes ==> opcode !in BANNED_OPCODES)
    && (!Backed(c, who.entity) ==> forall opcode :: opcode in f.usedOpcodes ==> opcode !in STAKED_OPCODES)
    && !f.outOfGas
    && (f.typ == Create || f.typ == Create2 ==> MayCreate(c, f, who))
    && (forall u :: u in f.contractSize ==> MayUse(c, u))
    && (forall a :: a in f.extCodeAccess ==> Lower(a) != c.EP())
    && (EntersEntryPoint(c, f) ==> MayEnter(c, f))
    && (!EntersEntryPoint(c, f) ==> f.value.GetOr(0) == 0)
  }

  /** EREP-050 */
  predicate ContextAllowed(c: Validation, who: Who) {
    who.entity == Paymaster && c.result.paymaster.Some? && !Backed(c, Paymaster) ==> c.result.context.GetOr("0x") == "0x"
  }

  /** `slot` belongs to `addr`: it is the padded address, or one of the 128 slots from the hash of a keccak input that
      starts with the padded address of sender, paymaster or factory. */
  ghost predicate Belongs(c: Validation, slot: string, addr: string) {
    || c.env.pad32(addr) == Some(slot)
    || ((Lower(c.op.sender) == addr || Names(c.op.paymaster, addr) || Names(c.op.factory, addr))
        && exists input :: input in c.keccak && Starts(c, input, addr) && Within128(c, input, slot))
  }

  predicate Starts(c: Validation, input: string, addr: string) { c.env.pad32(addr).Some? && c.env.pad32(addr).value <= input }

  predicate Within128(c: Validation, input: string, slot: string) {
    0 <= c.env.slotNumber(slot) - c.env.slotNumber(c.env.keccak256(input)) <= 127
  }

  /** STO-031, STO-032 and STO-033: own, associated or read-only access of an entity. */
  ghost predicate OwnAccess(c: Validation, f: Frame, who: Who, slot: string) {
    || Lower(f.to) == Lower(who.address)
    || Belongs(c, slot, Lower(who.address))
    || (slot !in f.accessed.writeSlots && slot !in f.accessed.transientWrites)
  }

  /** STO-010, then STO-021 and STO-022, then the rules for entities with a stake. */
  ghost predicate MayAccess(c: Validation, f: Frame, who: Who, slot: string) {
    || Lower(f.to) == Lower(c.op.sender)
    || (Belongs(c, slot, Lower(c.op.sender)) && (c.op.factory.None? || Backed(c, Factory)))
    || (OwnAccess(c, f, who, slot) && Backed(c, who.entity))
  }

  predicate CanPad(c: Validation, a: Option<string>) { a.Some? ==> c.env.pad32(Lower(a.value)).Some? }

  /** Every address that the keccak inputs are searched for can be padded. */
  predicate CanSearch(c: Validation) {
    c.keccak != [] ==> CanPad(c, Some(c.op.sender)) && CanPad(c, c.op.paymaster) && CanPad(c, c.op.factory)
  }

  predicate CanJudge(c: Validation, who: Who) { CanPad(c, Some(c.op.sender)) && CanPad(c, Some(who.address)) }

  /** The frame reads or writes the slot, for good or for the transaction. */
  predicate Accesses(f: Frame, slot: string) {
    || slot in f.accessed.writeSlots || slot in f.accessed.readSlots
    || slot in f.accessed.transientWrites || slot in f.accessed.transientReads
  }

  lemma AccessedIff(f: Frame, slot: string)
    ensures slot in f.accessed.All() <==> Accesses(f, slot)
  {
  }

  /** Slots are judged in the order writes, reads, transient writes, transient reads. */
  lemma AccessedInOrder(f: Frame, i: nat)
    ensures var a := f.accessed;
            && (i < |a.writeSlots| ==> i < |a.All()| && a.All()[i] == a.writeSlots[i])
            && (i < |a.readSlots| ==> var j := |a.writeSlots| + i; j < |a.All()| && a.All()[j] == a.readSlots[i])
            && (i < |a.transientWrites| ==>
                  var j := |a.writeSlots| + |a.readSlots| + i; j < |a.All()| && a.All()[j] == a.transientWrites[i])
            && (i < |a.transientReads| ==>
                  var j := |a.writeSlots| + |a.readSlots| + |a.transientWrites| + i;
                  j < |a.All()| && a.All()[j] == a.transientReads[i])
  {
  }

  lemma PadsIff(c: Validation, who: Who)
    ensures c.PadsKnown() <==> CanSearch(c)
    ensures c.PadsThrow(who) <==> !CanJudge(c, who)
  {
    var all := c.EntityAddresses();
    assert all[0] == Some(Lower(c.op.sender)) && all[0] in all && all[1] in all && all[2] in all;
  }

  /** Storage rules of one frame; outside the EntryPoint the addresses must also be of a length that can be padded. */
  ghost predicate StorageAllowed(c: Validation, f: Frame, who: Who) {
    Lower(f.to) == c.EP() ||
    (CanSearch(c) && forall slot :: Accesses(f, slot) ==> CanJudge(c, who) && MayAccess(c, f, who, slot))
  }

  ghost predicate Obeys(c: Validation, f: Frame, who: Who) {
    && (FromOutside(c, f) ==> InSomeRole(c, f))
    && OpcodesAllowed(c, f, who) && ContextAllowed(c, who) && StorageAllowed(c, f, who)
  }

  lemma BackedIff(c: Validation, e: Entity)
    ensures c.Staked(e) <==> Backed(c, e)
  {
  }

  lemma MethodIff(c: Validation, f: Frame)
    ensures CallsMethod(c, f, c.KnownMethod(f))
    ensures c.KnownMethod(f) in ALLOWED_METHODS <==> MayEnter(c, f)
  {
    if f.input.Some? && |f.input.value| <= 10 { assert f.input.value[..|f.input.value|] == f.input.value; }
    assert forall name :: CallsMethod(c, f, name) ==> name == c.KnownMethod(f);
  }

  lemma BelongsIff(c: Validation, slot: string, addr: string)
    ensures c.Associated(slot, addr) <==> Belongs(c, slot, addr)
  {
    assert Some(addr) in c.EntityAddresses() <==> Lower(c.op.sender) == addr || Names(c.op.paymaster, addr) || Names(c.op.factory, addr) by {
      assert c.EntityAddresses()[0] == Some(Lower(c.op.sender));
      if Names(c.op.paymaster, addr) { assert c.EntityAddresses()[1] == Some(addr); }
      if Names(c.op.factory, addr) { assert c.EntityAddresses()[2] == Some(addr); }
    }
    if c.env.pad32(addr) != Some(slot) {
      if i :| 0 <= i < |c.keccak| && c.AssociatedBy(c.keccak[i], addr, slot) {
        assert c.keccak[i] in c.keccak && Starts(c, c.keccak[i], addr) && Within128(c, c.keccak[i], slot);
      }
      if Belongs(c, slot, addr) {
        var input :| input in c.keccak && Starts(c, input, addr) && Within128(c, input, slot);
        var i :| 0 <= i < |c.keccak| && c.keccak[i] == input;
        assert c.AssociatedBy(c.keccak[i], addr, slot);
      }
    }
  }

  lemma AccessIff(c: Validation, f: Frame, who: Who, slot: string)
    ensures c.SlotAllowed(f, who, slot) <==> MayAccess(c, f, who, slot)
    ensures c.EntityAccess(f, who, slot) <==> OwnAccess(c, f, who, slot)
  {
    hide Belongs;
    BelongsIff(c, slot, Lower(c.op.sender));
    BelongsIff(c, slot, Lower(who.address));
    BackedIff(c, Factory);
    BackedIff(c, who.entity);
  }

  lemma MayUseIff(c: Validation, u: ContractUse)
    ensures MayUse(c, u) <==> !c.Undeployed(u) && !c.ForbiddenPrecompiled(u.address)
  {
  }

  lemma ContractsIff(c: Validation, f: Frame, who: Who)
    ensures (forall u :: u in f.contractSize ==> MayUse(c, u))
       <==> c.CheckOp041(f, who).None? && c.CheckOp062(f).None?
  {
    forall u | u in f.contractSize ensures MayUse(c, u) <==> !c.Undeployed(u) && !c.ForbiddenPrecompiled(u.address) {
      MayUseIff(c, u);
    }
    var found041 := Find(f.contractSize, (u: ContractUse) => c.Undeployed(u));
    var found062 := Find(f.contractSize, (u: ContractUse) => c.ForbiddenPrecompiled(u.address));
    if c.CheckOp041(f, who).None? && c.CheckOp062(f).None? {
      forall u | u in f.contractSize ensures MayUse(c, u) {
        var i :| 0 <= i < |f.contractSize| && f.contractSize[i] == u;
        MayUseIff(c, f.contractSize[i]);
      }
    }
  }

  lemma OpcodesIff(c: Validation, f: Frame, who: Who)
    ensures c.OpcodeBreach(f, who).None? <==> OpcodesAllowed(c, f, who) && ContextAllowed(c, who)
  {
    ContractsIff(c, f, who);
    MethodIff(c, f);
    BackedIff(c, Factory);
    BackedIff(c, who.entity);
  }

  lemma SlotsIff(c: Validation, f: Frame, who: Who, slots: seq<string>)
    ensures c.FirstSlotBreach(f, who, slots).None? <==>
            forall slot :: slot in slots ==> !c.PadsThrow(who) && c.SlotAllowed(f, who, slot)
  {
    if c.FirstSlotBreach(f, who, slots).None? {
      forall slot | slot in slots ensures c.SlotBreach(f, who, slot).None? {
        var i :| 0 <= i < |slots| && slots[i] == slot;
      }
    } else if forall slot :: slot in slots ==> !c.PadsThrow(who) && c.SlotAllowed(f, who, slot) {
      assert forall i :: 0 <= i < |slots| ==> slots[i] in slots;
    }
  }

  lemma StorageIff(c: Validation, f: Frame, who: Who)
    ensures c.CheckStorage(f, who).None? <==> StorageAllowed(c, f, who)
  {
    SlotsIff(c, f, who, f.accessed.All());
    PadsIff(c, who);
    forall slot
      ensures c.SlotAllowed(f, who, slot) <==> MayAccess(c, f, who, slot)
      ensures slot in f.accessed.All() <==> Accesses(f, slot)
    {
      AccessIff(c, f, who, slot);
      AccessedIff(f, slot);
    }
    hide MayAccess, Accesses;
  }

  /** The chain of checks passes exactly the frames that obey every rule. */
  lemma ObeysIff(c: Validation, f: Frame, who: Who)
    ensures c.Breach(f, who).None? <==> Obeys(c, f, who)
  {
    OpcodesIff(c, f, who);
    StorageIff(c, f, who);
    AttributedIsCallee(c, f);
  }

  /** A trace is accepted exactly when every visited frame obeys every rule. */
  lemma AcceptedIff(c: Validation, root: Frame)
    ensures Judge(c, root).Right? <==> forall v :: v in Visits(c, root) ==> Obeys(c, v.frame, v.who)
  {
    JudgeMeaning(c, root);
    forall v | v in Visits(c, root) ensures VerdictOf(c)(v).None? <==> Obeys(c, v.frame, v.who) {
      ObeysIff(c, v.frame, v.who);
    }
  }

  /** What a violation says of the frame: the entity it ran under, and the first opcode, contract or slot of its kind, here
      the `i`-th. An access is called unstaked when a stake of the entity or of the factory would have allowed it. */
  ghost predicate ReportsFirst(c: Validation, f: Frame, who: Who, violation: Violation, i: nat) {
    match violation
    case NoCalls => false
    case UnknownEntity(to) => to == f.to && FromOutside(c, f) && !InSomeRole(c, f)
    case BannedOpcode(entity, opcode) =>
      FirstAt(f.usedOpcodes, i, o => o in BANNED_OPCODES) && f.usedOpcodes[i] == opcode && entity == who.entity
    case OutOfGas(entity) => f.outOfGas && entity == who.entity
    case IllegalCreate(entity) => (f.typ == Create || f.typ == Create2) && !MayCreate(c, f, who) && entity == who.entity
    case UndeployedAccess(entity, u) =>
      FirstAt(f.contractSize, i, (x: ContractUse) => c.Undeployed(x)) && f.contractSize[i] == u && entity == who.entity
    case IllegalEntryPointCall(name) => EntersEntryPoint(c, f) && CallsMethod(c, f, name) && name !in ALLOWED_METHODS
    case ExtCodeOnEntryPoint(entity) => (exists a :: a in f.extCodeAccess && Lower(a) == c.EP()) && entity == who.entity
    case CallWithValue => !EntersEntryPoint(c, f) && f.value.GetOr(0) != 0
    case ForbiddenPrecompile(address) =>
      FirstAt(f.contractSize, i, (x: ContractUse) => c.ForbiddenPrecompiled(x.address)) && f.contractSize[i].address == address
    case StakedOpcode(entity, opcode) =>
      FirstAt(f.usedOpcodes, i, o => o in STAKED_OPCODES) && f.usedOpcodes[i] == opcode && entity == who.entity && !Backed(c, entity)
    case ContextFromUnstaked => !ContextAllowed(c, who)
    case UnstakedStorage(entity, name, slot) =>
      && FirstSlotAt(c, f, who, i) && f.accessed.All()[i] == slot && entity == who.entity && CalledAs(c, f, name)
      && (OwnAccess(c, f, who, slot) || Belongs(c, slot, Lower(c.op.sender)))
    case ForbiddenStorage(entity, isWrite, isTransient, name, slot) =>
      && FirstSlotAt(c, f, who, i) && f.accessed.All()[i] == slot && entity == who.entity && CalledAs(c, f, name)
      && !OwnAccess(c, f, who, slot) && !Belongs(c, slot, Lower(c.op.sender))
      && (isWrite <==> slot in f.accessed.writeSlots + f.accessed.transientWrites)
      && (isTransient <==> slot in f.accessed.transientReads + f.accessed.transientWrites)
    case MalformedAddress => !CanSearch(c) || !CanJudge(c, who)
  }

  /** The name of the callee in a message: its first role, or the address as it is spelled. */
  predicate CalledAs(c: Validation, f: Frame, name: AddressName) {
    match name
    case Named(Account) => IsSender(c, f)
    case Named(Factory) => Names(c.op.factory, Lower(f.to)) && !IsSender(c, f)
    case Named(Paymaster) => IsPaymaster(c, f) && !Names(c.op.factory, Lower(f.to)) && !IsSender(c, f)
    case Named(EntryPoint) => IsEntryPoint(c, f) && !IsPaymaster(c, f) && !Names(c.op.factory, Lower(f.to)) && !IsSender(c, f)
    case Named(SenderCreator) =>
      IsCreator(f) && !IsEntryPoint(c, f) && !IsPaymaster(c, f) && !Names(c.op.factory, Lower(f.to)) && !IsSender(c, f)
    case Named(NoEntity) => false
    case Raw(address) =>
      address == f.to && !IsCreator(f) && !IsEntryPoint(c, f) && !IsPaymaster(c, f)
      && !Names(c.op.factory, Lower(f.to)) && !IsSender(c, f)
  }

  ghost predicate FirstSlotAt(c: Validation, f: Frame, who: Who, i: nat) {
    FirstAt(f.accessed.All(), i, slot => c.SlotBreach(f, who, slot).Some?)
  }

  lemma {:induction false} FirstSlotReported(c: Validation, f: Frame, who: Who, slots: seq<string>) returns (i: nat)
    requires c.FirstSlotBreach(f, who, slots).Some?
    ensures FirstAt(slots, i, slot => c.SlotBreach(f, who, slot).Some?)
    ensures c.FirstSlotBreach(f, who, slots) == c.SlotBreach(f, who, slots[i])
  {
    if c.SlotBreach(f, who, slots[0]).Some? {
      i := 0;
    } else {
      var k := FirstSlotReported(c, f, who, slots[1..]);
      i := k + 1;
      forall j | 0 <= j < i ensures c.SlotBreach(f, who, slots[j]).None? {
        if j > 0 { assert slots[j] == slots[1..][j - 1]; }
      }
    }
  }

  lemma SlotReports(c: Validation, f: Frame, who: Who, slot: string, i: nat)
    requires c.SlotBreach(f, who, slot).Some? && FirstSlotAt(c, f, who, i) && f.accessed.All()[i] == slot
    ensures ReportsFirst(c, f, who, c.SlotBreach(f, who, slot).value, i)
  {
    hide Belongs, FirstSlotAt;
    PadsIff(c, who);
    AccessIff(c, f, who, slot);
    BelongsIff(c, slot, Lower(c.op.sender));
    BackedIff(c, Factory);
  }

  lemma StorageReportsFirst(c: Validation, f: Frame, who: Who) returns (i: nat)
    requires c.CheckStorage(f, who).Some?
    ensures ReportsFirst(c, f, who, c.CheckStorage(f, who).value, i)
  {
    i := 0;
    PadsIff(c, who);
    if c.PadsKnown() {
      i := FirstSlotReported(c, f, who, f.accessed.All());
      SlotReports(c, f, who, f.accessed.All()[i], i);
    }
  }

  lemma OpcodeReports(c: Validation, f: Frame, who: Who, violation: Violation) returns (i: nat)
    requires c.CheckOp011(f, who) == Some(violation) || c.CheckOp080(f, who) == Some(violation)
    ensures ReportsFirst(c, f, who, violation, i)
  {
    BackedIff(c, who.entity);
    if violation.BannedOpcode? {
      i := FindIsFirst(f.usedOpcodes, opcode => opcode in BANNED_OPCODES);
    } else {
      i := FindIsFirst(f.usedOpcodes, opcode => opcode in STAKED_OPCODES && !c.Staked(who.entity));
    }
  }

  lemma ContractReports(c: Validation, f: Frame, who: Who, violation: Violation) returns (i: nat)
    requires c.CheckOp041(f, who) == Some(violation) || c.CheckOp062(f) == Some(violation)
    ensures ReportsFirst(c, f, who, violation, i)
  {
    if violation.UndeployedAccess? {
      i := FindIsFirst(f.contractSize, (u: ContractUse) => c.Undeployed(u));
    } else {
      i := FindIsFirst(f.contractSize, (u: ContractUse) => c.ForbiddenPrecompiled(u.address));
    }
  }

  lemma CallReports(c: Validation, f: Frame, who: Who, violation: Violation)
    requires || c.CheckOp020(f, who) == Some(violation) || c.CheckOp031(f, who) == Some(violation)
             || c.CheckOp054(f) == Some(violation) || c.CheckOp054ExtCode(f, who) == Some(violation)
             || c.CheckOp061(f) == Some(violation) || c.CheckErep050(who) == Some(violation)
    ensures ReportsFirst(c, f, who, violation, 0)
  {
    MethodIff(c, f);
    BackedIff(c, Factory);
    BackedIff(c, Paymaster);
  }

  lemma OpcodesReportFirst(c: Validation, f: Frame, who: Who) returns (i: nat)
    requires c.OpcodeBreach(f, who).Some?
    ensures ReportsFirst(c, f, who, c.OpcodeBreach(f, who).value, i)
  {
    var violation := c.OpcodeBreach(f, who).value;
    hide ReportsFirst;
    if c.CheckOp011(f, who) == Some(violation) || c.CheckOp080(f, who) == Some(violation) {
      i := OpcodeReports(c, f, who, violation);
    } else if c.CheckOp041(f, who) == Some(violation) || c.CheckOp062(f) == Some(violation) {
      i := ContractReports(c, f, who, violation);
    } else {
      i := 0;
      CallReports(c, f, who, violation);
    }
  }

  /** The error of a rejected frame is true of it, and names the first offending opcode, contract or slot. */
  lemma BreachReportsFirst(c: Validation, f: Frame, who: Who) returns (i: nat)
    requires c.Breach(f, who).Some?
    ensures ReportsFirst(c, f, who, c.Breach(f, who).value, i)
  {
    i := 0;
    AttributedIsCallee(c, f);
    if c.CheckEntity(f).None? {
      if c.OpcodeBreach(f, who).Some? { i := OpcodesReportFirst(c, f, who); } else { i := StorageReportsFirst(c, f, who); }
    }
  }

  /** The rules in the order in which a frame is held against them. */
  ghost predicate ObeysRule(c: Validation, f: Frame, who: Who, n: nat) {
    match n
    case 0 => FromOutside(c, f) ==> InSomeRole(c, f)
    case 1 => Lower(f.to) != c.EP() ==> forall opcode :: opcode in f.usedOpcodes ==> opcode !in BANNED_OPCODES
    case 2 => !f.outOfGas
    case 3 => f.typ == Create || f.typ == Create2 ==> MayCreate(c, f, who)
    case 4 => forall u :: u in f.contractSize ==> !c.Undeployed(u)
    case 5 => EntersEntryPoint(c, f) ==> MayEnter(c, f)
    case 6 => forall a :: a in f.extCodeAccess ==> Lower(a) != c.EP()
    case 7 => !EntersEntryPoint(c, f) ==> f.value.GetOr(0) == 0
    case 8 => forall u :: u in f.contractSize ==> !c.ForbiddenPrecompiled(u.address)
    case 9 => !Backed(c, who.entity) ==> forall opcode :: opcode in f.usedOpcodes ==> opcode !in STAKED_OPCODES
    case 10 => ContextAllowed(c, who)
    case _ => StorageAllowed(c, f, who)
  }

  /** The rule that an error stands for. */
  function RuleOf(violation: Violation): nat {
    match violation
    case UnknownEntity(_) => 0
    case BannedOpcode(_, _) => 1
    case OutOfGas(_) => 2
    case IllegalCreate(_) => 3
    case UndeployedAccess(_, _) => 4
    case IllegalEntryPointCall(_) => 5
    case ExtCodeOnEntryPoint(_) => 6
    case CallWithValue => 7
    case ForbiddenPrecompile(_) => 8
    case StakedOpcode(_, _) => 9
    case ContextFromUnstaked => 10
    case _ => 11
  }

  /** The check that stands for rule `n` in the chain. */
  function CheckOf(c: Validation, f: Frame, who: Who, n: nat): Option<Violation> {
    match n
    case 0 => c.CheckEntity(f)
    case 1 => c.CheckOp011(f, who)
    case 2 => c.CheckOp020(f, who)
    case 3 => c.CheckOp031(f, who)
    case 4 => c.CheckOp041(f, who)
    case 5 => c.CheckOp054(f)
    case 6 => c.CheckOp054ExtCode(f, who)
    case 7 => c.CheckOp061(f)
    case 8 => c.CheckOp062(f)
    case 9 => c.CheckOp080(f, who)
    case 10 => c.CheckErep050(who)
    case _ => c.CheckStorage(f, who)
  }

  lemma FindNone<T>(xs: seq<T>, p: T -> bool)
    ensures Find(xs, p).None? <==> forall x :: x in xs ==> !p(x)
  {
  }

  lemma SearchIff(c: Validation, f: Frame, who: Who, n: nat)
    requires n == 1 || n == 4 || n == 6 || n == 8 || n == 9
    ensures CheckOf(c, f, who, n).None? <==> ObeysRule(c, f, who, n)
    ensures CheckOf(c, f, who, n).Some? ==> RuleOf(CheckOf(c, f, who, n).value) == n
  {
    match n
    case 1 => FindNone(f.usedOpcodes, opcode => opcode in BANNED_OPCODES);
    case 4 => FindNone(f.contractSize, (u: ContractUse) => c.Undeployed(u));
    case 6 => FindNone(f.extCodeAccess, a => Lower(a) == c.EP());
    case 8 => FindNone(f.contractSize, (u: ContractUse) => c.ForbiddenPrecompiled(u.address));
    case 9 =>
      BackedIff(c, who.entity);
      FindNone(f.usedOpcodes, opcode => opcode in STAKED_OPCODES && !c.Staked(who.entity));
  }

  lemma CallIff(c: Validation, f: Frame, who: Who, n: nat)
    requires n == 2 || n == 3 || n == 5 || n == 7 || n == 10
    ensures CheckOf(c, f, who, n).None? <==> ObeysRule(c, f, who, n)
    ensures CheckOf(c, f, who, n).Some? ==> RuleOf(CheckOf(c, f, who, n).value) == n
  {
    match n
    case 3 => BackedIff(c, Factory);
    case 5 => MethodIff(c, f);
    case 10 => BackedIff(c, Paymaster);
    case _ =>
  }

  lemma CheckIff(c: Validation, f: Frame, who: Who, n: nat)
    requires n <= 11
    ensures CheckOf(c, f, who, n).None? <==> ObeysRule(c, f, who, n)
    ensures CheckOf(c, f, who, n).Some? && n < 11 ==> RuleOf(CheckOf(c, f, who, n).value) == n
  {
    if n == 1 || n == 4 || n == 6 || n == 8 || n == 9 {
      SearchIff(c, f, who, n);
    } else if n == 0 {
      AttributedIsCallee(c, f);
    } else if n == 11 {
      StorageIff(c, f, who);
    } else {
      CallIff(c, f, who, n);
    }
  }

  lemma {:induction false} StorageRule(c: Validation, f: Frame, who: Who, slots: seq<string>)
    ensures c.FirstSlotBreach(f, who, slots).Some? ==> RuleOf(c.FirstSlotBreach(f, who, slots).value) == 11
  {
    if slots != [] { StorageRule(c, f, who, slots[1..]); }
  }

  /** The chain reports the first check that fails. */
  lemma BreachIsFirstCheck(c: Validation, f: Frame, who: Who) returns (n: nat)
    requires c.Breach(f, who).Some?
    ensures n <= 11 && c.Breach(f, who) == CheckOf(c, f, who, n)
    ensures forall m: nat :: m < n ==> CheckOf(c, f, who, m).None?
  {
    n := if c.CheckEntity(f).Some? then 0
         else if c.CheckOp011(f, who).Some? then 1
         else if c.CheckOp020(f, who).Some? then 2
         else if c.CheckOp031(f, who).Some? then 3
         else if c.CheckOp041(f, who).Some? then 4
         else if c.CheckOp054(f).Some? then 5
         else if c.CheckOp054ExtCode(f, who).Some? then 6
         else if c.CheckOp061(f).Some? then 7
         else if c.CheckOp062(f).Some? then 8
         else if c.CheckOp080(f, who).Some? then 9
         else if c.CheckErep050(who).Some? then 10
         else 11;
  }

  /** The rules are enforced in one order: the error is that of the first rule that the frame breaks. */
  lemma FirstRuleReported(c: Validation, f: Frame, who: Who)
    requires c.Breach(f, who).Some?
    ensures var n := RuleOf(c.Breach(f, who).value);
            !ObeysRule(c, f, who, n) && forall m: nat :: m < n ==> ObeysRule(c, f, who, m)
  {
    var n := BreachIsFirstCheck(c, f, who);
    StorageRule(c, f, who, f.accessed.All());
    forall m: nat | m <= n ensures CheckOf(c, f, who, m).None? <==> ObeysRule(c, f, who, m) { CheckIff(c, f, who, m); }
    CheckIff(c, f, who, n);
    hide ObeysRule;
    assert RuleOf(c.Breach(f, who).value) == n;
  }

  // ---------- entity attribution ----------

  /** The frames that may start an entity context: calls from the zero address, the EntryPoint or a SenderCreator. */
  predicate FromOutside(c: Validation, f: Frame) {
    Lower(f.from) == ZERO_ADDRESS || Lower(f.from) == c.EP() || Lower(f.from) in CREATORS
  }

  // the roles that a callee can have

  predicate IsSender(c: Validation, f: Frame) { Lower(f.to) == Lower(c.op.sender) }

  predicate IsFactory(c: Validation, f: Frame) { Names(c.op.factory, Lower(f.to)) && Lower(f.from) in CREATORS }

  predicate IsPaymaster(c: Validation, f: Frame) { Names(c.op.paymaster, Lower(f.to)) }

  predicate IsEntryPoint(c: Validation, f: Frame) { Lower(f.to) == c.EP() }

  predicate IsCreator(f: Frame) { Lower(f.to) in CREATORS }

  predicate InSomeRole(c: Validation, f: Frame) {
    IsSender(c, f) || IsFactory(c, f) || IsPaymaster(c, f) || IsEntryPoint(c, f) || IsCreator(f)
  }

  /** The frame starts a new entity context. */
  predicate Sets(c: Validation, f: Frame) { FromOutside(c, f) && InSomeRole(c, f) }

  /** The frame that path `p` passes through after `n` steps. */
  function FrameOn(f: Frame, p: seq<nat>, n: nat): Frame
    requires Leads(f, p) && n <= |p|
    decreases n
  {
    if n == 0 then f else FrameOn(f.calls[p[0]], p[1..], n - 1)
  }

  lemma {:induction false} PathEnds(f: Frame, p: seq<nat>)
    requires Leads(f, p)
    ensures FrameOn(f, p, |p|) == FrameAt(f, p)
    decreases |p|
  {
    if p != [] { PathEnds(f.calls[p[0]], p[1..]); }
  }

  /** The frame `n` steps down path `p` makes `who` the current entity, and no frame after it on the path changes that. */
  ghost predicate NearestAt(c: Validation, f: Frame, p: seq<nat>, who: Who, n: nat)
    requires Leads(f, p)
  {
    && n <= |p|
    && Sets(c, FrameOn(f, p, n))
    && c.Attributed(FrameOn(f, p, n)) == Some(who)
    && Quiet(c, f, p, n + 1)
  }

  /** From `n` steps on, no frame on the path starts an entity context. */
  ghost predicate Quiet(c: Validation, f: Frame, p: seq<nat>, n: nat)
    requires Leads(f, p)
  {
    forall m :: n <= m <= |p| ==> !Sets(c, FrameOn(f, p, m))
  }

  lemma {:induction false} NearestBoundary(c: Validation, f: Frame, p: seq<nat>, caller: Who, who: Who)
    requires Leads(f, p) && who == WhoAt(c, f, p, caller)
    ensures (exists n: nat :: NearestAt(c, f, p, who, n)) || (Quiet(c, f, p, 0) && who == caller)
    decreases |p|
  {
    assert FrameOn(f, p, 0) == f;
    if p == [] {
      if Sets(c, f) {
        assert NearestAt(c, f, p, who, 0);
      } else {
        assert Quiet(c, f, p, 0) && who == caller;
      }
    } else {
      var g, q := f.calls[p[0]], p[1..];
      NearestBoundary(c, g, q, c.Enter(f, caller), who);
      assert forall m :: 1 <= m <= |p| ==> FrameOn(f, p, m) == FrameOn(g, q, m - 1);
      if n: nat :| NearestAt(c, g, q, who, n) {
        assert NearestAt(c, f, p, who, n + 1);
      } else if Sets(c, f) {
        assert NearestAt(c, f, p, who, 0);
      } else {
        assert Quiet(c, f, p, 0) && who == caller;
      }
    }
  }

  /** Every visited frame is checked under the entity of its nearest ancestor-or-self that starts an entity context. */
  lemma AttributionByPath(c: Validation, root: Frame, v: Visit)
    requires v in Visits(c, root)
    ensures Leads(root, v.path) && FrameOn(root, v.path, |v.path|) == v.frame
    ensures (exists n: nat :: NearestAt(c, root, v.path, v.who, n)) || (Quiet(c, root, v.path, 0) && v.who == NOBODY)
  {
    VisitedExactly(c, root, v);
    PathEnds(root, v.path);
    NearestBoundary(c, root, v.path, NOBODY, v.who);
  }

  /** Attribution fails exactly for a callee in no role; otherwise the entity is the first role of the callee in the order
      sender, factory, paymaster, EntryPoint, SenderCreator, under the address as the UserOperation spells it. */
  lemma AttributedIsCallee(c: Validation, f: Frame)
    ensures c.Attributed(f).Some? <==> InSomeRole(c, f)
    ensures c.Attributed(f) == Some(Who(Account, c.op.sender)) <==> IsSender(c, f)
    ensures c.op.factory.Some? ==>
            (c.Attributed(f) == Some(Who(Factory, c.op.factory.value)) <==> IsFactory(c, f) && !IsSender(c, f))
    ensures c.op.paymaster.Some? ==>
            (c.Attributed(f) == Some(Who(Paymaster, c.op.paymaster.value)) <==>
             IsPaymaster(c, f) && !IsSender(c, f) && !IsFactory(c, f))
    ensures c.Attributed(f) == Some(Who(EntryPoint, c.EP())) <==>
            IsEntryPoint(c, f) && !IsSender(c, f) && !IsFactory(c, f) && !IsPaymaster(c, f)
    ensures c.Attributed(f) == Some(Who(SenderCreator, Lower(f.to))) <==>
            IsCreator(f) && !IsSender(c, f) && !IsFactory(c, f) && !IsPaymaster(c, f) && !IsEntryPoint(c, f)
    ensures c.Attributed(f).Some? ==> Lower(c.Attributed(f).value.address) == Lower(f.to)
  {
    LowerIsFolded(c.env.entryPointAddress);
    LowerIsFolded(f.to);
  }

  lemma {:induction false} SamePath(f: Frame, p: seq<nat>, q: seq<nat>, n: nat)
    requires p <= q && n <= |p| && Leads(f, q)
    ensures Leads(f, p) && FrameOn(f, p, n) == FrameOn(f, q, n)
    decreases |p|
  {
    if p != [] {
      assert p[1..] <= q[1..];
      SamePath(f.calls[p[0]], p[1..], q[1..], if n == 0 then 0 else n - 1);
    }
  }

  /** An entity context lasts: a visited frame below another one runs under the same entity, as long as no frame on the
      way starts a context of its own. */
  lemma ContextLasts(c: Validation, root: Frame, v: Visit, w: Visit)
    requires v in Visits(c, root) && w in Visits(c, root) && v.path <= w.path
    requires Leads(root, w.path) && Quiet(c, root, w.path, |v.path| + 1)
    ensures w.who == v.who
  {
    AttributionByPath(c, root, v);
    AttributionByPath(c, root, w);
    forall n: nat | n <= |v.path| ensures FrameOn(root, v.path, n) == FrameOn(root, w.path, n) {
      SamePath(root, v.path, w.path, n);
    }
    if n: nat :| NearestAt(c, root, w.path, w.who, n) {
      assert n <= |v.path|;
      assert NearestAt(c, root, v.path, w.who, n);
      var m: nat :| NearestAt(c, root, v.path, v.who, m);
      assert n == m;
    } else {
      assert Quiet(c, root, v.path, 0);
    }
  }

  lemma StartsContext(c: Validation, root: Frame, v: Visit)
    requires v in Visits(c, root) && Sets(c, v.frame)
    ensures c.Attributed(v.frame) == Some(v.who)
  {
    AttributionByPath(c, root, v);
    assert FrameOn(root, v.path, |v.path|) == v.frame;
    var n: nat :| NearestAt(c, root, v.path, v.who, n);
    assert n == |v.path|;
  }

  /** Deployment: a frame called by a SenderCreator on the factory of the UserOperation runs under the factory, unless it is
      the sender itself, and so does every frame below it up to the next one that starts a context. */
  lemma DeploymentRunsAsFactory(c: Validation, root: Frame, v: Visit, w: Visit)
    requires v in Visits(c, root) && w in Visits(c, root) && v.path <= w.path
    requires Lower(v.frame.from) in CREATORS && Names(c.op.factory, Lower(v.frame.to)) && Lower(v.frame.to) != Lower(c.op.sender)
    requires Leads(root, w.path) && Quiet(c, root, w.path, |v.path| + 1)
    ensures w.who == Who(Factory, c.op.factory.value)
  {
    StartsContext(c, root, v);
    AttributedIsCallee(c, v.frame);
    ContextLasts(c, root, v, w);
  }

  // ---------- stakes ----------

  /** `b` is `a` with stake gained by any of sender, factory and paymaster. */
  ghost predicate GainsStake(a: Validation, b: Validation) {
    && b == a.(result := b.result)
    && b.result.context == a.result.context
    && (a.result.paymaster.None? <==> b.result.paymaster.None?)
    && forall e :: a.Staked(e) ==> b.Staked(e)
  }

  lemma SlotMonotone(a: Validation, b: Validation, f: Frame, who: Who, slot: string)
    requires GainsStake(a, b) && a.SlotBreach(f, who, slot).None?
    ensures b.SlotBreach(f, who, slot).None?
  {
    assert forall s, x :: a.Associated(s, x) == b.Associated(s, x);
  }

  lemma StorageMonotone(a: Validation, b: Validation, f: Frame, who: Who)
    requires GainsStake(a, b) && a.CheckStorage(f, who).None?
    ensures b.CheckStorage(f, who).None?
  {
    var all := f.accessed.All();
    if !a.ToEntryPoint(f) {
      forall i | 0 <= i < |all| ensures b.SlotBreach(f, who, all[i]).None? {
        SlotMonotone(a, b, f, who, all[i]);
      }
    }
  }

  lemma OpcodesMonotone(a: Validation, b: Validation, f: Frame, who: Who)
    requires GainsStake(a, b) && a.OpcodeBreach(f, who).None?
    ensures b.OpcodeBreach(f, who).None?
  {
    assert b.CheckOp031(f, who).None?;
    assert b.CheckOp041(f, who).None?;
    assert b.CheckOp062(f).None?;
    assert b.CheckOp080(f, who).None?;
    assert b.CheckErep050(who).None?;
  }

  lemma {:induction false} TraceIgnoresStake(a: Validation, b: Validation, f: Frame, base: seq<nat>, caller: Who)
    requires GainsStake(a, b)
    ensures Trace(a, f, base, caller) == Trace(b, f, base, caller)
    decreases f, 1
  {
    CallsIgnoreStake(a, b, f.calls, base, a.Enter(f, caller));
  }

  lemma {:induction false} CallsIgnoreStake(a: Validation, b: Validation, calls: seq<Frame>, base: seq<nat>, who: Who)
    requires GainsStake(a, b)
    ensures TraceCalls(a, calls, base, who) == TraceCalls(b, calls, base, who)
    decreases calls, 0
  {
    if calls != [] {
      var k := |calls| - 1;
      TraceIgnoresStake(a, b, calls[k], base + [k], who);
      CallsIgnoreStake(a, b, calls[..k], base, who);
    }
  }

  lemma {:induction false} StorageIgnoresStake(a: Validation, b: Validation, vs: seq<Visit>)
    requires GainsStake(a, b)
    ensures StorageOf(a, vs) == StorageOf(b, vs)
  {
    if vs != [] { StorageIgnoresStake(a, b, vs[..|vs| - 1]); }
  }

  lemma VerdictMonotone(a: Validation, b: Validation, v: Visit)
    requires GainsStake(a, b) && VerdictOf(a)(v).None?
    ensures VerdictOf(b)(v).None?
  {
    OpcodesMonotone(a, b, v.frame, v.who);
    StorageMonotone(a, b, v.frame, v.who);
  }

  lemma {:induction false} AcceptanceMonotone(a: Validation, b: Validation, vs: seq<Visit>)
    requires GainsStake(a, b) && FirstBreach(VerdictOf(a), vs).None?
    ensures FirstBreach(VerdictOf(b), vs).None?
  {
    if vs != [] {
      VerdictMonotone(a, b, vs[0]);
      AcceptanceMonotone(a, b, vs[1..]);
    }
  }

  /** Gaining stake never turns an accepted trace into a rejected one, and changes nothing of what it returns. */
  lemma StakeMonotone(a: Validation, b: Validation, root: Frame)
    requires GainsStake(a, b) && Judge(a, root).Right?
    ensures Judge(b, root) == Judge(a, root)
  {
    TraceIgnoresStake(a, b, root, [], NOBODY);
    StorageIgnoresStake(a, b, Visits(a, root));
    AcceptanceMonotone(a, b, Visits(a, root));
  }

  // ---------- storage ----------

  predicate Records(m: SlotRecord, address: string, slot: string) { address in m && slot in m[address] }

  /** No address is recorded without a slot, and every recorded value is the empty string. */
  ghost predicate Tidy(m: SlotRecord) {
    && (forall a :: a in m ==> exists s :: s in m[a])
    && (forall a, s :: a in m && s in m[a] ==> m[a][s] == "")
  }

  lemma {:induction false} SlotsAdded(m: SlotRecord, to: string, slots: seq<string>, address: string, slot: string)
    ensures Records(AddSlots(m, to, slots), address, slot) <==> Records(m, address, slot) || (address == to && slot in slots)
  {
    if slots != [] {
      var n := |slots| - 1;
      SlotsAdded(m, to, slots[..n], address, slot);
      assert slots == slots[..n] + [slots[n]];
    }
  }

  lemma {:induction false} SlotsTidy(m: SlotRecord, to: string, slots: seq<string>)
    requires Tidy(m)
    ensures Tidy(AddSlots(m, to, slots))
  {
    if slots != [] {
      var n := |slots| - 1;
      SlotsTidy(m, to, slots[..n]);
      var before, after := AddSlots(m, to, slots[..n]), AddSlots(m, to, slots);
      assert slots[n] in after[to];
      assert forall a :: a in after && a != to ==> a in before && after[a] == before[a];
    }
  }

  predicate Touches(c: Validation, v: Visit, address: string, slot: string) {
    v.frame.to == address && Lower(address) != c.EP() && Accesses(v.frame, slot)
  }

  predicate TouchedByAny(c: Validation, vs: seq<Visit>, address: string, slot: string) {
    exists v :: v in vs && Touches(c, v, address, slot)
  }

  lemma StorageOfSnoc(c: Validation, vs: seq<Visit>, v: Visit)
    ensures StorageOf(c, vs + [v]) == AddSlots(StorageOf(c, vs), v.frame.to, Touched(c, v.frame))
  {
    assert (vs + [v])[..|vs|] == vs;
  }

  lemma {:induction false} StorageRecords(c: Validation, vs: seq<Visit>, address: string, slot: string)
    ensures Records(StorageOf(c, vs), address, slot) <==> TouchedByAny(c, vs, address, slot)
  {
    if vs != [] {
      var rest, v := vs[..|vs| - 1], vs[|vs| - 1];
      assert vs == rest + [v];
      hide StorageOf, AddSlots, Touched, Records, TouchedByAny;
      StorageRecords(c, rest, address, slot);
      StorageOfSnoc(c, rest, v);
      SlotsAdded(StorageOf(c, rest), v.frame.to, Touched(c, v.frame), address, slot);
      TouchedBySnoc(c, rest, v, address, slot);
    }
  }

  lemma {:induction false} StorageTidy(c: Validation, vs: seq<Visit>)
    ensures Tidy(StorageOf(c, vs))
  {
    if vs != [] {
      StorageTidy(c, vs[..|vs| - 1]);
      SlotsTidy(StorageOf(c, vs[..|vs| - 1]), vs[|vs| - 1].frame.to, Touched(c, vs[|vs| - 1].frame));
    }
  }

  /** A pair is recorded exactly when some visit touched it, and always with the empty string. */
  lemma StorageExactly(c: Validation, vs: seq<Visit>, address: string, slot: string)
    ensures Records(StorageOf(c, vs), address, slot) <==> TouchedByAny(c, vs, address, slot)
    ensures Tidy(StorageOf(c, vs))
  {
    StorageRecords(c, vs, address, slot);
    StorageTidy(c, vs);
  }

  lemma TouchedBySnoc(c: Validation, vs: seq<Visit>, v: Visit, address: string, slot: string)
    ensures TouchedByAny(c, vs + [v], address, slot) <==> TouchedByAny(c, vs, address, slot) || Touches(c, v, address, slot)
  {
    if Touches(c, v, address, slot) { assert v in vs + [v]; }
    if TouchedByAny(c, vs, address, slot) {
      var w :| w in vs && Touches(c, w, address, slot);
      assert w in vs + [v];
    }
  }

  /** STO-010 to STO-033 over a whole accepted trace: every slot that a visited frame touches outside the EntryPoint is
      the sender's own, associated with the sender (deployed, or being deployed by a staked factory), or accessed by a
      staked entity as its own, as associated with it, or read-only; and the result holds exactly those slots. */
  lemma AcceptedStorage(c: Validation, root: Frame, address: string, slot: string)
    requires Judge(c, root).Right?
    ensures Records(Judge(c, root).storageMap, address, slot) <==>
            TouchedByAny(c, Visits(c, root), address, slot)
    ensures forall v :: v in Visits(c, root) && Touches(c, v, address, slot) ==> MayAccess(c, v.frame, v.who, slot)
    ensures Tidy(Judge(c, root).storageMap)
  {
    var vs := Visits(c, root);
    StorageExactly(c, vs, address, slot);
    JudgeMeaning(c, root);
    forall v | v in vs && Touches(c, v, address, slot) ensures MayAccess(c, v.frame, v.who, slot) {
      var i :| 0 <= i < |vs| && vs[i] == v;
      assert VerdictOf(c)(vs[i]).None?;
      AcceptedSlot(c, v, slot);
      AccessIff(c, v.frame, v.who, slot);
    }
  }

  lemma AcceptedSlot(c: Validation, v: Visit, slot: string)
    requires c.Breach(v.frame, v.who).None? && slot in Touched(c, v.frame)
    ensures c.SlotAllowed(v.frame, v.who, slot)
  {
    var all := v.frame.accessed.All();
    var i :| 0 <= i < |all| && all[i] == slot;
    assert c.FirstSlotBreach(v.frame, v.who, all).None?;
    assert c.SlotBreach(v.frame, v.who, all[i]).None?;
  }
}
