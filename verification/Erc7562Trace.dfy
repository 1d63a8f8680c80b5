/** The recursive judgement that the stack-based runner implements. */
module Erc7562Trace {
  import opened Common
  import opened Addresses
  import opened Erc7562Rules

  type SlotRecord = map<string, map<string, string>>

  datatype Outcome = Left(violation: Violation) | Right(contractAddresses: seq<string>, storageMap: SlotRecord)

  const NOBODY := Who(NoEntity, "")

  // ---------- the visits of a call tree, in the order of the walk ----------

  /** Preorder, children from last to first, EntryPoint self-calls pruned with everything below them. */
  function Trace(c: Validation, f: Frame, path: seq<nat>, caller: Who): seq<Visit>
    decreases f, 1
  {
    if c.Pruned(f) then []
    else
      var who := c.Enter(f, caller);
      [Visit(path, f, who)] + TraceCalls(c, f.calls, path, who)
  }

  function TraceCalls(c: Validation, calls: seq<Frame>, path: seq<nat>, who: Who): seq<Visit>
    decreases calls, 0
  {
    if calls == [] then []
    else
      var k := |calls| - 1;
      Trace(c, calls[k], path + [k], who) + TraceCalls(c, calls[..k], path, who)
  }

  function Visits(c: Validation, root: Frame): seq<Visit> { Trace(c, root, [], NOBODY) }

  // ---------- what the walk accumulates ----------

  function Addressed(vs: seq<Visit>): seq<string> {
    if vs == [] then [] else Addressed(vs[..|vs| - 1]) + [Lower(vs[|vs| - 1].frame.to)]
  }

  function AddSlot(m: SlotRecord, address: string, slot: string): SlotRecord {
    m[address := (if address in m then m[address] else map[])[slot := ""]]
  }

  function AddSlots(m: SlotRecord, address: string, slots: seq<string>): SlotRecord {
    if slots == [] then m
    else AddSlot(AddSlots(m, address, slots[..|slots| - 1]), address, slots[|slots| - 1])
  }

  lemma AddSlotsStep(m: SlotRecord, address: string, slots: seq<string>, i: nat)
    requires i < |slots|
    ensures AddSlots(m, address, slots[..i + 1]) == AddSlot(AddSlots(m, address, slots[..i]), address, slots[i])
  {
    assert slots[..i + 1][..i] == slots[..i];
  }

  function Touched(c: Validation, f: Frame): seq<string> {
    if c.ToEntryPoint(f) then [] else f.accessed.All()
  }

  function StorageOf(c: Validation, vs: seq<Visit>): SlotRecord {
    if vs == [] then map[]
    else
      var v := vs[|vs| - 1];
      AddSlots(StorageOf(c, vs[..|vs| - 1]), v.frame.to, Touched(c, v.frame))
  }

  // ---------- the judgement ----------

  type Verdict = Visit -> Option<Violation>

  function VerdictOf(c: Validation): Verdict { (v: Visit) => c.Breach(v.frame, v.who) }

  function FirstBreach(verdict: Verdict, vs: seq<Visit>): Option<Violation> {
    if vs == [] then None
    else if verdict(vs[0]).Some? then verdict(vs[0])
    else FirstBreach(verdict, vs[1..])
  }

  /** Left is the error of the first visit that breaks a rule; Right carries the whole visit order and its storage. */
  function Judge(c: Validation, root: Frame): Outcome {
    var vs := Visits(c, root);
    match FirstBreach(VerdictOf(c), vs)
    case Some(violation) => Left(violation)
    case None => Right(Addressed(vs), StorageOf(c, vs))
  }
}
