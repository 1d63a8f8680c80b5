/** The audit log queue: a bounded ring buffer, a counting semaphore, many producers and one drain worker,
    as a state machine over interleaved atomic steps. */
module AuditQueue {
  import opened Common

  /** Every `enqueue` call carries its own event, named by the number of the call. */
  type Event = nat

  // ---------- the shared objects ----------

  /** The ring buffer with its two indices, and the value of the semaphore of empty slots. */
  datatype Ring = Ring(slots: seq<Option<Event>>, head: nat, tail: nat, emptySlots: int)
  {
    predicate Shaped() { (|slots| > 0 ==> head < |slots| && tail < |slots|) && (|slots| == 0 ==> head == tail == 0) }
  }

  function NewRing(capacity: nat): Ring { Ring(seq(capacity, _ => None), 0, 0, capacity) }

  /** `(i + 1) % capacity` */
  function Advance(i: nat, capacity: nat): (r: nat)
    requires i < capacity
    ensures r < capacity && r == (i + 1) % capacity
  {
    if i + 1 == capacity then 0 else i + 1
  }

  /** The producer's critical section. */
  function Store(r: Ring, e: Event): Ring
    requires r.Shaped() && |r.slots| > 0
  {
    r.(slots := r.slots[r.tail := Some(e)], tail := Advance(r.tail, |r.slots|))
  }

  /** The worker's critical section. */
  function Take(r: Ring): Ring
    requires r.Shaped() && |r.slots| > 0
  {
    r.(slots := r.slots[r.head := None], head := Advance(r.head, |r.slots|))
  }

  // ---------- the machine ----------

  /** Where the worker is; `final` marks the drain that follows the loop. */
  datatype Worker =
    | LoopTest
    | Check(final: bool)
    | Pop(final: bool)
    | Hand(event: Option<Event>, final: bool)
    | Release(final: bool)
    | Sleep
    | Stopped

  /** `waiting` producers have not passed the semaphore, `admitted` ones have but have not stored their event.
      The last four fields record what has happened. */
  datatype State = State(
    ring: Ring, waiting: set<Event>, admitted: set<Event>, worker: Worker, running: bool, calls: nat,
    written: seq<Event>, handed: seq<Event>, lost: seq<Event>, emptyPops: nat)
  {
    function Capacity(): nat { |ring.slots| }
  }

  /** The worker's first test runs before the queue is handed to any caller; it finds nothing, and the worker sleeps. */
  function Start(capacity: nat): State {
    State(NewRing(capacity), {}, {}, Sleep, true, 0, [], [], [], 0)
  }

  lemma FirstTestFindsNothing(capacity: nat)
    ensures var created := Start(capacity).(worker := LoopTest);
            WorkerNext(WorkerNext(created)) == Start(capacity)
  {
  }

  datatype Action = Enqueue | Acquire(e: Event) | Write(e: Event) | WorkerStep | Shutdown

  predicate Enabled(s: State, a: Action) {
    match a
    case Enqueue => true
    case Acquire(e) => e in s.waiting && s.ring.emptySlots > 0
    case Write(e) => e in s.admitted && s.ring.Shaped() && s.Capacity() > 0
    case WorkerStep => s.worker != Stopped && (s.worker.Pop? ==> s.ring.Shaped() && s.Capacity() > 0)
    case Shutdown => true
  }

  function WorkerNext(s: State): State
    requires Enabled(s, WorkerStep)
  {
    match s.worker
    case LoopTest => s.(worker := Check(!s.running))
    case Check(final) =>
      if s.ring.emptySlots < s.Capacity() then s.(worker := Pop(final))
      else if final then s.(worker := Stopped)
      else if s.running then s.(worker := Sleep)
      else s.(worker := LoopTest)
    case Pop(final) =>
      var event := s.ring.slots[s.ring.head];
      s.(ring := Take(s.ring), worker := Hand(event, final), emptyPops := s.emptyPops + if event.None? then 1 else 0)
    case Hand(event, final) =>
      s.(worker := Release(final), handed := s.handed + if event.Some? then [event.value] else [])
    case Release(final) => s.(worker := Check(final), ring := s.ring.(emptySlots := s.ring.emptySlots + 1))
    case Sleep => s.(worker := LoopTest)
  }

  function Next(s: State, a: Action): State
    requires Enabled(s, a)
  {
    match a
    case Enqueue => s.(waiting := s.waiting + {s.calls}, calls := s.calls + 1)
    case Acquire(e) =>
      s.(waiting := s.waiting - {e}, admitted := s.admitted + {e}, ring := s.ring.(emptySlots := s.ring.emptySlots - 1))
    case Write(e) =>
      var overwritten := s.ring.slots[s.ring.tail];
      s.(admitted := s.admitted - {e}, ring := Store(s.ring, e), written := s.written + [e],
         lost := s.lost + if overwritten.Some? then [overwritten.value] else [])
    case WorkerStep => WorkerNext(s)
    case Shutdown => s.(running := false)
  }

  /** The state after an interleaving, None when some action in it is not enabled. */
  function Run(capacity: nat, actions: seq<Action>): Option<State> {
    if actions == [] then Some(Start(capacity))
    else
      match Run(capacity, actions[..|actions| - 1])
      case None => None
      case Some(s) => if Enabled(s, actions[|actions| - 1]) then Some(Next(s, actions[|actions| - 1])) else None
  }

  // ---------- what every interleaving keeps ----------

  /** How often `e` occurs in `xs`. */
  function Count(xs: seq<Event>, e: Event): nat {
    if xs == [] then 0 else Count(xs[..|xs| - 1], e) + if xs[|xs| - 1] == e then 1 else 0
  }

  /** How many slots satisfy `p`. */
  function SlotsWith(slots: seq<Option<Event>>, p: Option<Event> -> bool): nat {
    if slots == [] then 0 else SlotsWith(slots[..|slots| - 1], p) + if p(slots[|slots| - 1]) then 1 else 0
  }

  const IS_UNREAD: Option<Event> -> bool := (o: Option<Event>) => o.Some?

  function Unread(s: State): nat { SlotsWith(s.ring.slots, IS_UNREAD) }

  function IsEvent(e: Event): Option<Event> -> bool { (o: Option<Event>) => o == Some(e) }

  lemma {:induction false} SlotUpdated(slots: seq<Option<Event>>, i: nat, x: Option<Event>, p: Option<Event> -> bool)
    requires i < |slots|
    ensures SlotsWith(slots[i := x], p) + (if p(slots[i]) then 1 else 0) == SlotsWith(slots, p) + if p(x) then 1 else 0
  {
    var n := |slots| - 1;
    if i == n {
      assert slots[i := x][..n] == slots[..n];
    } else {
      SlotUpdated(slots[..n], i, x, p);
      assert slots[i := x][..n] == slots[..n][i := x];
    }
  }

  lemma {:induction false} NoneWith(slots: seq<Option<Event>>, p: Option<Event> -> bool)
    requires forall i :: 0 <= i < |slots| ==> !p(slots[i])
    ensures SlotsWith(slots, p) == 0
  {
    if slots != [] { NoneWith(slots[..|slots| - 1], p); }
  }

  lemma CountSnoc(xs: seq<Event>, x: Event, e: Event)
    ensures Count(xs + [x], e) == Count(xs, e) + if x == e then 1 else 0
  {
    assert (xs + [x])[..|xs|] == xs;
  }

  lemma {:induction false} CountTwice(xs: seq<Event>, i: nat, j: nat)
    requires i < j < |xs| && xs[i] == xs[j]
    ensures Count(xs, xs[j]) >= 2
  {
    if j == |xs| - 1 {
      CountOnce(xs[..j], i);
    } else {
      CountTwice(xs[..|xs| - 1], i, j);
    }
  }

  lemma {:induction false} CountOnce(xs: seq<Event>, i: nat)
    requires i < |xs|
    ensures Count(xs, xs[i]) >= 1
  {
    if i < |xs| - 1 { CountOnce(xs[..|xs| - 1], i); }
  }

  lemma {:induction false} CountedIsMember(xs: seq<Event>, e: Event)
    requires Count(xs, e) >= 1
    ensures e in xs
  {
    if xs[|xs| - 1] != e { CountedIsMember(xs[..|xs| - 1], e); }
  }

  /** Whether the worker holds an event. */
  predicate HoldsOne(s: State) { s.worker.Hand? && s.worker.event.Some? }

  /** Events taken out of the buffer so far. */
  function Taken(s: State): nat { |s.handed| + if HoldsOne(s) then 1 else 0 }

  /** The worker has popped and not yet released the slot. */
  predicate Popped(s: State) { s.worker.Hand? || s.worker.Release? }

  /** Every written event is in exactly one place: handed to the writer, in the worker's hand, unread, or overwritten. */
  predicate Placed(s: State, e: Event) {
    Count(s.written, e) == Count(s.handed, e) + (if HoldsOne(s) && s.worker.event.value == e then 1 else 0)
                         + SlotsWith(s.ring.slots, IsEvent(e)) + Count(s.lost, e)
  }

  predicate Conserved(s: State) { |s.written| == Taken(s) + Unread(s) + |s.lost| }

  /** The semaphore counts the slots that are admitted or written and not popped and released. */
  predicate Counted(s: State) {
    s.Capacity() - s.ring.emptySlots == |s.admitted| + |s.written| - Taken(s) - s.emptyPops + if Popped(s) then 1 else 0
  }

  predicate SemaphoreInRange(s: State) {
    0 <= s.ring.emptySlots <= s.Capacity() - if Popped(s) || s.worker.Pop? then 1 else 0
  }

  predicate Named(s: State) {
    && (forall e :: e in s.waiting ==> e < s.calls && e !in s.admitted)
    && (forall e :: e in s.admitted ==> e < s.calls)
  }

  /** Event `e` is written at most once, after it has been admitted. */
  predicate Once(s: State, e: Event) {
    && Count(s.written, e) <= 1
    && (Count(s.written, e) == 1 ==> e < s.calls && e !in s.waiting && e !in s.admitted)
  }

  predicate Inv(s: State) { s.ring.Shaped() && SemaphoreInRange(s) && Named(s) && Counted(s) && Conserved(s) }

  lemma StartInv(capacity: nat, e: Event)
    ensures Inv(Start(capacity)) && Placed(Start(capacity), e) && Once(Start(capacity), e)
  {
    NoneWith(Start(capacity).ring.slots, IS_UNREAD);
    NoneWith(Start(capacity).ring.slots, IsEvent(e));
  }

  lemma AcquireInv(s: State, e: Event)
    requires Inv(s) && Enabled(s, Acquire(e))
    ensures Inv(Next(s, Acquire(e)))
  {
    assert |s.admitted + {e}| == |s.admitted| + 1;
  }

  lemma WriteInv(s: State, e: Event)
    requires Inv(s) && Enabled(s, Write(e))
    ensures Inv(Next(s, Write(e)))
  {
    SlotUpdated(s.ring.slots, s.ring.tail, Some(e), IS_UNREAD);
    assert |s.admitted - {e}| == |s.admitted| - 1;
  }

  lemma WorkerInv(s: State)
    requires Inv(s) && Enabled(s, WorkerStep)
    ensures Inv(Next(s, WorkerStep))
  {
    if s.worker.Pop? { SlotUpdated(s.ring.slots, s.ring.head, None, IS_UNREAD); }
  }

  lemma CapacityStays(s: State, a: Action)
    requires Enabled(s, a)
    ensures Next(s, a).Capacity() == s.Capacity()
  {
  }

  lemma InvStep(s: State, a: Action)
    requires Inv(s) && Enabled(s, a)
    ensures Inv(Next(s, a))
  {
    match a
    case Acquire(e) => AcquireInv(s, e);
    case Write(e) => WriteInv(s, e);
    case WorkerStep => WorkerInv(s);
    case _ =>
  }

  lemma WritePlaced(s: State, x: Event, e: Event)
    requires Inv(s) && Enabled(s, Write(x)) && Placed(s, e) && Once(s, e)
    ensures Placed(Next(s, Write(x)), e) && Once(Next(s, Write(x)), e)
  {
    var overwritten := s.ring.slots[s.ring.tail];
    SlotUpdated(s.ring.slots, s.ring.tail, Some(x), IsEvent(e));
    CountSnoc(s.written, x, e);
    if overwritten.Some? { CountSnoc(s.lost, overwritten.value, e); } else { assert s.lost + [] == s.lost; }
  }

  lemma PopPlaced(s: State, e: Event)
    requires Inv(s) && s.worker.Pop? && Enabled(s, WorkerStep) && Placed(s, e)
    ensures Placed(Next(s, WorkerStep), e)
  {
    SlotUpdated(s.ring.slots, s.ring.head, None, IsEvent(e));
  }

  lemma HandPlaced(s: State, e: Event)
    requires s.worker.Hand? && Placed(s, e)
    ensures Placed(Next(s, WorkerStep), e)
  {
    if HoldsOne(s) { CountSnoc(s.handed, s.worker.event.value, e); } else { assert s.handed + [] == s.handed; }
  }

  lemma WorkerPlaced(s: State, e: Event)
    requires Inv(s) && Enabled(s, WorkerStep) && Placed(s, e) && Once(s, e)
    ensures Placed(Next(s, WorkerStep), e) && Once(Next(s, WorkerStep), e)
  {
    hide Inv, Count, SlotsWith;
    if s.worker.Pop? {
      PopPlaced(s, e);
    } else if s.worker.Hand? {
      HandPlaced(s, e);
    }
  }

  lemma PlacedStep(s: State, a: Action, e: Event)
    requires Inv(s) && Enabled(s, a) && Placed(s, e) && Once(s, e)
    ensures Placed(Next(s, a), e) && Once(Next(s, a), e)
  {
    match a
    case Write(x) => WritePlaced(s, x, e);
    case WorkerStep => WorkerPlaced(s, e);
    case _ =>
  }

  lemma {:induction false} RunInv(capacity: nat, actions: seq<Action>, e: Event, s: State)
    requires Run(capacity, actions) == Some(s)
    ensures Inv(s) && s.Capacity() == capacity && Placed(s, e) && Once(s, e)
    decreases actions
  {
    hide Next, Enabled;
    if actions == [] {
      StartInv(capacity, e);
    } else {
      var n := |actions| - 1;
      var before := Run(capacity, actions[..n]).value;
      RunInv(capacity, actions[..n], e, before);
      CapacityStays(before, actions[n]);
      InvStep(before, actions[n]);
      PlacedStep(before, actions[n], e);
    }
  }

  /** In every interleaving the semaphore stays within its bounds, and no event reaches the writer twice
      or without having been written. */
  lemma AtMostOnce(capacity: nat, actions: seq<Action>, s: State)
    requires Run(capacity, actions) == Some(s)
    ensures 0 <= s.ring.emptySlots <= capacity
    ensures forall i, j :: 0 <= i < j < |s.handed| ==> s.handed[i] != s.handed[j]
    ensures forall i :: 0 <= i < |s.handed| ==> s.handed[i] in s.written
  {
    RunInv(capacity, actions, 0, s);
    forall i, j | 0 <= i < j < |s.handed| ensures s.handed[i] != s.handed[j] {
      RunInv(capacity, actions, s.handed[j], s);
      if s.handed[i] == s.handed[j] { CountTwice(s.handed, i, j); }
    }
    forall i | 0 <= i < |s.handed| ensures s.handed[i] in s.written {
      RunInv(capacity, actions, s.handed[i], s);
      CountOnce(s.handed, i);
      CountedIsMember(s.written, s.handed[i]);
    }
  }

  /** The worker's test finds every slot empty, so the drain ends here. */
  predicate DrainEnds(s: State) { s.worker.Check? && s.ring.emptySlots >= s.Capacity() }

  /** What a drain leaves behind, in every interleaving: as many events unread or overwritten as there were pops
      of an empty slot, less the producers that are admitted and have yet to write. */
  lemma DrainLeaves(capacity: nat, actions: seq<Action>, s: State)
    requires Run(capacity, actions) == Some(s) && DrainEnds(s)
    ensures Unread(s) + |s.lost| == |s.written| - |s.handed| == s.emptyPops - |s.admitted|
  {
    RunInv(capacity, actions, 0, s);
  }

  /** Durability holds exactly when it should: at the end of a drain that no admitted producer overlaps, every written
      event has been handed to the writer if and only if no pop ever came up empty. */
  lemma DurableIffNoEmptyPop(capacity: nat, actions: seq<Action>, s: State)
    requires Run(capacity, actions) == Some(s) && DrainEnds(s) && s.admitted == {}
    ensures (forall e :: e in s.written ==> e in s.handed) <==> s.emptyPops == 0
    ensures s.emptyPops == 0 <==> Unread(s) == 0 && s.lost == []
  {
    DrainLeaves(capacity, actions, s);
    if s.emptyPops == 0 {
      FirstInFirstOut(capacity, actions, s);
    } else if forall e :: e in s.written ==> e in s.handed {
      AtMostOnce(capacity, actions, s);
      WrittenDistinct(capacity, actions, s);
      Pigeonhole(s.written, s.handed);
    }
  }

  lemma WrittenDistinct(capacity: nat, actions: seq<Action>, s: State)
    requires Run(capacity, actions) == Some(s)
    ensures forall i, j :: 0 <= i < j < |s.written| ==> s.written[i] != s.written[j]
  {
    forall i, j | 0 <= i < j < |s.written| ensures s.written[i] != s.written[j] {
      RunInv(capacity, actions, s.written[j], s);
      if s.written[i] == s.written[j] { CountTwice(s.written, i, j); }
    }
  }

  function Members(xs: seq<Event>): (r: set<Event>)
    ensures |r| <= |xs| && forall x :: x in r <==> x in xs
  {
    if xs == [] then {}
    else
      assert xs == xs[..|xs| - 1] + [xs[|xs| - 1]];
      Members(xs[..|xs| - 1]) + {xs[|xs| - 1]}
  }

  lemma {:induction false} MembersSize(xs: seq<Event>)
    requires forall i, j :: 0 <= i < j < |xs| ==> xs[i] != xs[j]
    ensures |Members(xs)| == |xs|
  {
    if xs != [] {
      MembersSize(xs[..|xs| - 1]);
    }
  }

  /** Distinct elements that all occur in another list are no more than that list has. */
  lemma Pigeonhole(xs: seq<Event>, ys: seq<Event>)
    requires forall i, j :: 0 <= i < j < |xs| ==> xs[i] != xs[j]
    requires forall x :: x in xs ==> x in ys
    ensures |xs| <= |ys|
  {
    MembersSize(xs);
    SubsetSize(Members(xs), Members(ys));
  }

  // ---------- runs in which every pop finds an event ----------

  function Wrap(x: nat, capacity: nat): nat { if x < capacity then x else x - capacity }

  /** The slot `j` places after the head. */
  function FromHead(r: Ring, j: nat): Option<Event>
    requires r.Shaped() && j < |r.slots|
  {
    r.slots[Wrap(r.head + j, |r.slots|)]
  }

  /** The ring holds exactly `queue`, in order from its head to its tail, and nothing else. */
  ghost predicate Holds(r: Ring, queue: seq<Event>) {
    && r.Shaped() && |queue| <= |r.slots|
    && (|r.slots| > 0 ==> r.tail == Wrap(r.head + |queue|, |r.slots|))
    && (forall j :: 0 <= j < |r.slots| ==> FromHead(r, j) == if j < |queue| then Some(queue[j]) else None)
  }

  lemma HeadAndTail(r: Ring, queue: seq<Event>)
    requires Holds(r, queue) && |r.slots| > 0
    ensures r.slots[r.head] == if queue == [] then None else Some(queue[0])
    ensures |queue| < |r.slots| ==> r.slots[r.tail] == None
  {
    assert FromHead(r, 0) == r.slots[r.head];
    if |queue| < |r.slots| { assert FromHead(r, |queue|) == r.slots[r.tail]; }
  }

  lemma StoreHolds(r: Ring, queue: seq<Event>, e: Event)
    requires Holds(r, queue) && |queue| < |r.slots|
    ensures Holds(Store(r, e), queue + [e])
  {
    var after := Store(r, e);
    forall j | 0 <= j < |r.slots| && j != |queue| ensures FromHead(after, j) == FromHead(r, j) {
    }
  }

  lemma TakeHolds(r: Ring, queue: seq<Event>)
    requires Holds(r, queue) && queue != []
    ensures Holds(Take(r), queue[1..])
  {
    var after := Take(r);
    forall j | 0 <= j < |r.slots| - 1 ensures FromHead(after, j) == FromHead(r, j + 1) {
    }
    assert FromHead(after, |r.slots| - 1) == None;
  }

  lemma HoldsIgnoresSemaphore(r: Ring, queue: seq<Event>, n: int)
    requires Holds(r, queue)
    ensures Holds(r.(emptySlots := n), queue)
  {
    forall j | 0 <= j < |r.slots| ensures FromHead(r.(emptySlots := n), j) == FromHead(r, j) {
    }
  }

  /** What the worker has taken is a prefix of the write order, and the ring holds the rest. */
  ghost predicate Aligned(s: State) {
    && Taken(s) <= |s.written| && s.lost == []
    && s.handed + (if HoldsOne(s) then [s.worker.event.value] else []) == s.written[..Taken(s)]
    && Holds(s.ring, s.written[Taken(s)..])
  }

  lemma StartAligned(capacity: nat)
    ensures Aligned(Start(capacity))
  {
    var r := NewRing(capacity);
    forall j | 0 <= j < capacity ensures FromHead(r, j) == None {
    }
  }

  lemma WriteAligned(s: State, e: Event)
    requires Inv(s) && Enabled(s, Write(e)) && Aligned(s) && s.emptyPops == 0
    ensures Aligned(Next(s, Write(e)))
  {
    var queue := s.written[Taken(s)..];
    assert |s.admitted| >= 1;
    HeadAndTail(s.ring, queue);
    StoreHolds(s.ring, queue, e);
    assert (s.written + [e])[Taken(s)..] == queue + [e];
  }

  lemma PopAligned(s: State)
    requires Inv(s) && s.worker.Pop? && Enabled(s, WorkerStep) && Aligned(s) && Next(s, WorkerStep).emptyPops == 0
    ensures Aligned(Next(s, WorkerStep))
  {
    var queue := s.written[Taken(s)..];
    HeadAndTail(s.ring, queue);
    TakeHolds(s.ring, queue);
    assert s.written[Taken(s) + 1..] == queue[1..];
    assert s.written[..Taken(s) + 1] == s.written[..Taken(s)] + [queue[0]];
  }

  lemma HandAligned(s: State)
    requires s.worker.Hand? && Aligned(s)
    ensures Aligned(Next(s, WorkerStep))
  {
    hide Holds;
  }

  lemma WorkerAligned(s: State)
    requires Inv(s) && Enabled(s, WorkerStep) && Aligned(s) && Next(s, WorkerStep).emptyPops == 0
    ensures Aligned(Next(s, WorkerStep))
  {
    if s.worker.Pop? {
      PopAligned(s);
    } else if s.worker.Hand? {
      HandAligned(s);
    } else {
      HoldsIgnoresSemaphore(s.ring, s.written[Taken(s)..], Next(s, WorkerStep).ring.emptySlots);
    }
  }

  lemma AlignedStep(s: State, a: Action)
    requires Inv(s) && Enabled(s, a) && Aligned(s) && Next(s, a).emptyPops == 0
    ensures Aligned(Next(s, a))
  {
    match a
    case Write(e) => WriteAligned(s, e);
    case Acquire(e) => HoldsIgnoresSemaphore(s.ring, s.written[Taken(s)..], s.ring.emptySlots - 1);
    case WorkerStep => WorkerAligned(s);
    case _ =>
  }

  lemma {:induction false} RunAligned(capacity: nat, actions: seq<Action>, s: State)
    requires Run(capacity, actions) == Some(s) && s.emptyPops == 0
    ensures Aligned(s)
    decreases actions
  {
    if actions == [] {
      StartAligned(capacity);
    } else {
      var n := |actions| - 1;
      var before := Run(capacity, actions[..n]).value;
      RunInv(capacity, actions[..n], 0, before);
      RunAligned(capacity, actions[..n], before);
      AlignedStep(before, actions[n]);
    }
  }

  /** When every pop has found an event: hand-offs are a prefix of the write order, nothing is overwritten,
      and a drain ends only with every written event handed over and no producer in between. */
  lemma FirstInFirstOut(capacity: nat, actions: seq<Action>, s: State)
    requires Run(capacity, actions) == Some(s) && s.emptyPops == 0
    ensures s.handed <= s.written && s.lost == []
    ensures DrainEnds(s) ==> s.handed == s.written && s.admitted == {} && Unread(s) == 0
  {
    RunAligned(capacity, actions, s);
    assert s.handed <= s.written[..Taken(s)];
    if DrainEnds(s) {
      DrainLeaves(capacity, actions, s);
      assert |s.admitted| == 0;
    }
  }

  // ---------- how the worker stops ----------

  predicate InFinalDrain(w: Worker) {
    match w
    case Check(final) => final
    case Pop(final) => final
    case Hand(_, final) => final
    case Release(final) => final
    case Stopped => true
    case _ => false
  }

  /** The final drain begins only after the shutdown, so a worker that is to run is never stopped. */
  lemma {:induction false} FinalAfterShutdown(capacity: nat, actions: seq<Action>, s: State)
    requires Run(capacity, actions) == Some(s)
    ensures InFinalDrain(s.worker) ==> !s.running
    decreases actions
  {
    if actions != [] {
      var n := |actions| - 1;
      FinalAfterShutdown(capacity, actions[..n], Run(capacity, actions[..n]).value);
    }
  }

  lemma OnlyShutdownStops(s: State, a: Action)
    requires Enabled(s, a)
    ensures Next(s, a).running <==> s.running && a != Shutdown
  {
  }

  /** The queue is to run until the first shutdown. */
  lemma {:induction false} RunningUntilShutdown(capacity: nat, actions: seq<Action>, s: State)
    requires Run(capacity, actions) == Some(s)
    ensures s.running <==> Shutdown !in actions
    decreases actions
  {
    hide Next, Enabled;
    if actions != [] {
      var n := |actions| - 1;
      var t := Run(capacity, actions[..n]).value;
      RunningUntilShutdown(capacity, actions[..n], t);
      OnlyShutdownStops(t, actions[n]);
      assert actions == actions[..n] + [actions[n]];
    }
  }

  /** The worker stops only after a shutdown, and only at the end of the final drain, with all slots released. */
  lemma StopsAfterFinalDrain(capacity: nat, actions: seq<Action>, s: State)
    requires Run(capacity, actions) == Some(s) && Enabled(s, WorkerStep) && Next(s, WorkerStep).worker == Stopped
    ensures s.worker == Check(true) && DrainEnds(s) && Shutdown in actions
  {
    FinalAfterShutdown(capacity, actions, s);
    RunningUntilShutdown(capacity, actions, s);
  }

  /** When the worker stops and no producer is admitted, every written event has been handed to the writer if and only if
      no pop ever came up empty, and then in the order of the writes. */
  lemma StopsDurably(capacity: nat, actions: seq<Action>, s: State)
    requires Run(capacity, actions) == Some(s) && Enabled(s, WorkerStep) && Next(s, WorkerStep).worker == Stopped
    requires s.admitted == {}
    ensures var t := Next(s, WorkerStep);
            && ((forall e :: e in t.written ==> e in t.handed) <==> t.emptyPops == 0)
            && (t.emptyPops == 0 ==> t.handed == t.written)
  {
    StopsAfterFinalDrain(capacity, actions, s);
    DurableIffNoEmptyPop(capacity, actions, s);
    if s.emptyPops == 0 { FirstInFirstOut(capacity, actions, s); }
  }

  /** The state after `k` steps of the worker alone, None when one of them is not enabled. */
  function Alone(s: State, k: nat): Option<State>
    decreases k
  {
    if k == 0 then Some(s) else if Enabled(s, WorkerStep) then Alone(Next(s, WorkerStep), k - 1) else None
  }

  /** The worker goes to sleep only at the end of a drain, and only while the queue is to run. */
  lemma SleepsAfterDrain(s: State)
    requires Enabled(s, WorkerStep) && Next(s, WorkerStep).worker == Sleep
    ensures DrainEnds(s) && s.running
  {
  }

  /** An upper bound on the steps to the end of the drain that goes on or comes next. */
  function StepsToEnd(s: State): int {
    5 * (s.Capacity() - s.ring.emptySlots)
    + match s.worker
      case Stopped => 0
      case Release(_) => 1
      case Hand(_, _) => 2
      case Pop(_) => 3
      case Check(_) => 4
      case LoopTest => 5
      case Sleep => 6
  }

  lemma {:induction false} EndsEventually(s: State) returns (k: nat)
    requires Inv(s) && s.worker != Stopped
    ensures Alone(s, k).Some? && DrainEnds(Alone(s, k).value)
    decreases StepsToEnd(s)
  {
    k := 0;
    if !DrainEnds(s) {
      WorkerInv(s);
      var j := EndsEventually(Next(s, WorkerStep));
      k := j + 1;
    }
  }

  /** A drain goes on or comes next in every reachable state until the worker has stopped, and the worker alone brings it
      to its end, with every slot released. */
  lemma WorkerDrains(capacity: nat, actions: seq<Action>, s: State) returns (k: nat)
    requires Run(capacity, actions) == Some(s) && s.worker != Stopped
    ensures Alone(s, k).Some? && DrainEnds(Alone(s, k).value)
  {
    RunInv(capacity, actions, 0, s);
    k := EndsEventually(s);
  }

  /** Asleep while the queue is to run, stopped once it has been shut down. */
  predicate AtRest(s: State) { if s.running then s.worker == Sleep else s.worker == Stopped }

  /** An upper bound on the steps to rest: five for every slot that is not released, and what is left of the loop. */
  function StepsToRest(s: State): int {
    5 * (s.Capacity() - s.ring.emptySlots)
    + match s.worker
      case Stopped => 0
      case Sleep => if s.running then 0 else 11
      case LoopTest => 10
      case Release(final) => 1 + if final || s.running then 0 else 20
      case Hand(_, final) => 2 + if final || s.running then 0 else 20
      case Pop(final) => 3 + if final || s.running then 0 else 20
      case Check(final) => 4 + if final || s.running then 0 else 20
  }

  lemma CloserToRest(s: State)
    requires Inv(s) && (InFinalDrain(s.worker) ==> !s.running) && !AtRest(s)
    ensures Enabled(s, WorkerStep)
    ensures 0 <= StepsToRest(Next(s, WorkerStep)) < StepsToRest(s)
    ensures InFinalDrain(Next(s, WorkerStep).worker) ==> !s.running
  {
    WorkerInv(s);
  }

  lemma {:induction false} RestsEventually(s: State) returns (k: nat)
    requires Inv(s) && (InFinalDrain(s.worker) ==> !s.running)
    ensures Alone(s, k).Some? && AtRest(Alone(s, k).value)
    decreases StepsToRest(s)
  {
    if AtRest(s) {
      k := 0;
    } else {
      CloserToRest(s);
      WorkerInv(s);
      var j := RestsEventually(Next(s, WorkerStep));
      k := j + 1;
    }
  }

  /** No drain runs forever: from every reachable state finitely many steps of the worker alone put it to sleep, or after a
      shutdown end it. */
  lemma WorkerRests(capacity: nat, actions: seq<Action>, s: State) returns (k: nat)
    requires Run(capacity, actions) == Some(s)
    ensures Alone(s, k).Some? && AtRest(Alone(s, k).value)
  {
    RunInv(capacity, actions, 0, s);
    FinalAfterShutdown(capacity, actions, s);
    k := RestsEventually(s);
  }

  // ---------- a run that loses an event ----------

  lemma RunSnoc(capacity: nat, actions: seq<Action>, a: Action, s: State, t: State)
    requires Run(capacity, actions) == Some(s) && Enabled(s, a) && t == Next(s, a)
    ensures Run(capacity, actions + [a]) == Some(t)
  {
    assert (actions + [a])[..|actions|] == actions;
  }

  /** The states of a run over a single slot, by what is left to say about each of them. */
  function Single(slot: Option<Event>, emptySlots: int, waiting: set<Event>, admitted: set<Event>, worker: Worker,
                  calls: nat, written: seq<Event>, handed: seq<Event>, emptyPops: nat): State
  {
    State(Ring([slot], 0, 0, emptySlots), waiting, admitted, worker, true, calls, written, handed, [], emptyPops)
  }

  /** One event is stored, and the worker begins to drain. */
  lemma FirstStored() returns (actions: seq<Action>)
    ensures Run(1, actions) == Some(Single(Some(0), 0, {}, {}, Check(false), 1, [0], [], 0))
  {
    var s := Start(1);
    assert s == Single(None, 1, {}, {}, Sleep, 0, [], [], 0);
    actions := [];
    s, actions := Advanced(actions, Enqueue, s, Single(None, 1, {0}, {}, Sleep, 1, [], [], 0));
    s, actions := Advanced(actions, Acquire(0), s, Single(None, 0, {}, {0}, Sleep, 1, [], [], 0));
    s, actions := Advanced(actions, Write(0), s, Single(Some(0), 0, {}, {}, Sleep, 1, [0], [], 0));
    s, actions := Advanced(actions, WorkerStep, s, Single(Some(0), 0, {}, {}, LoopTest, 1, [0], [], 0));
    s, actions := Advanced(actions, WorkerStep, s, Single(Some(0), 0, {}, {}, Check(false), 1, [0], [], 0));
  }

  /** It goes through, and a second producer blocks behind it until the worker frees the slot. */
  lemma ProducerBlocks() returns (actions: seq<Action>)
    ensures Run(1, actions) == Some(Single(None, 1, {1}, {}, Check(false), 2, [0], [0], 0))
  {
    actions := FirstStored();
    var s := Single(Some(0), 0, {}, {}, Check(false), 1, [0], [], 0);
    s, actions := Advanced(actions, WorkerStep, s, Single(Some(0), 0, {}, {}, Pop(false), 1, [0], [], 0));
    s, actions := Advanced(actions, WorkerStep, s, Single(None, 0, {}, {}, Hand(Some(0), false), 1, [0], [], 0));
    s, actions := Advanced(actions, Enqueue, s, Single(None, 0, {1}, {}, Hand(Some(0), false), 2, [0], [], 0));
    s, actions := Advanced(actions, WorkerStep, s, Single(None, 0, {1}, {}, Release(false), 2, [0], [0], 0));
    s, actions := Advanced(actions, WorkerStep, s, Single(None, 1, {1}, {}, Check(false), 2, [0], [0], 0));
  }

  lemma Advanced(actions: seq<Action>, a: Action, s: State, t: State) returns (u: State, more: seq<Action>)
    requires Run(1, actions) == Some(s) && Enabled(s, a) && t == Next(s, a)
    ensures u == t && more == actions + [a] && Run(1, more) == Some(t)
  {
    u, more := t, actions + [a];
    RunSnoc(1, actions, a, s, t);
  }

  /** The release admits the blocked producer, the worker takes the lock first, finds nothing and goes to sleep, and only
      then the producer stores its event: the drain has ended, and the event is unread although no slot is held for it. */
  lemma PopOvertakesWrite() returns (actions: seq<Action>)
    ensures Run(1, actions) == Some(Single(Some(1), 1, {}, {}, Sleep, 2, [0, 1], [0], 1))
  {
    var s := Single(None, 1, {1}, {}, Check(false), 2, [0], [0], 0);
    actions := ProducerBlocks();
    s, actions := Advanced(actions, Acquire(1), s, Single(None, 0, {}, {1}, Check(false), 2, [0], [0], 0));
    s, actions := Advanced(actions, WorkerStep, s, Single(None, 0, {}, {1}, Pop(false), 2, [0], [0], 0));
    s, actions := Advanced(actions, WorkerStep, s, Single(None, 0, {}, {1}, Hand(None, false), 2, [0], [0], 1));
    s, actions := Advanced(actions, WorkerStep, s, Single(None, 0, {}, {1}, Release(false), 2, [0], [0], 1));
    s, actions := Advanced(actions, WorkerStep, s, Single(None, 1, {}, {1}, Check(false), 2, [0], [0], 1));
    assert DrainEnds(s);
    s, actions := Advanced(actions, WorkerStep, s, Single(None, 1, {}, {1}, Sleep, 2, [0], [0], 1));
    s, actions := Advanced(actions, Write(1), s, Single(Some(1), 1, {}, {}, Sleep, 2, [0, 1], [0], 1));
  }

  /** Without the condition an event that was enqueued and written is lost, here with a single slot under back-pressure:
      event 1 is stored behind the end of the drain, and event 2 overwrites it. */
  lemma EventLost() returns (actions: seq<Action>, s: State)
    ensures Run(1, actions) == Some(s) && s.written == [0, 1, 2] && s.handed == [0] && s.lost == [1]
  {
    actions := PopOvertakesWrite();
    s := Single(Some(1), 1, {}, {}, Sleep, 2, [0, 1], [0], 1);
    s, actions := Advanced(actions, Enqueue, s, Single(Some(1), 1, {2}, {}, Sleep, 3, [0, 1], [0], 1));
    s, actions := Advanced(actions, Acquire(2), s, Single(Some(1), 0, {}, {2}, Sleep, 3, [0, 1], [0], 1));
    s, actions := Advanced(actions, Write(2), s, Next(s, Write(2)));
  }

  // ---------- the objects as they are updated ----------

  class Queue {
    const eventBuffer: array<Option<Event>>
    var head: nat
    var tail: nat
    var emptySlots: int

    constructor (bufferCapacity: nat)
      ensures View() == NewRing(bufferCapacity) && fresh(eventBuffer)
    {
      eventBuffer := new Option<Event>[bufferCapacity](_ => None);
      head, tail, emptySlots := 0, 0, bufferCapacity;
    }

    function View(): Ring
      reads this, eventBuffer
    {
      Ring(eventBuffer[..], head, tail, emptySlots)
    }

    /** The critical section of `enqueue`, behind the semaphore. */
    method StoreEvent(e: Event)
      requires View().Shaped() && eventBuffer.Length > 0
      modifies this`tail, eventBuffer
      ensures View() == Store(old(View()), e)
    {
      eventBuffer[tail] := Some(e);
      tail := (tail + 1) % eventBuffer.Length;
    }

    /** The critical section of `drain`. */
    method TakeEvent() returns (event: Option<Event>)
      requires View().Shaped() && eventBuffer.Length > 0
      modifies this`head, eventBuffer
      ensures event == old(View()).slots[old(head)] && View() == Take(old(View()))
    {
      event := eventBuffer[head];
      eventBuffer[head] := None;
      head := (head + 1) % eventBuffer.Length;
    }

    /** `enqueue` when no other step comes in between; `ok` is false where the producer would block. */
    method Enqueue(e: Event, ghost queue: seq<Event>) returns (ok: bool)
      requires Holds(View(), queue) && emptySlots == eventBuffer.Length - |queue|
      modifies this, eventBuffer
      ensures ok <==> |queue| < eventBuffer.Length
      ensures ok ==> Holds(View(), queue + [e]) && emptySlots == eventBuffer.Length - |queue + [e]|
      ensures !ok ==> View() == old(View())
    {
      if emptySlots == 0 { return false; }
      emptySlots := emptySlots - 1;
      StoreHolds(old(View()), queue, e);
      StoreEvent(e);
      assert View() == Store(old(View()).(emptySlots := emptySlots), e) == Store(old(View()), e).(emptySlots := emptySlots);
      HoldsIgnoresSemaphore(Store(old(View()), e), queue + [e], emptySlots);
      return true;
    }

    /** One turn of the loop of `drain` when no other step comes in between. */
    method DrainOne(ghost queue: seq<Event>) returns (event: Option<Event>)
      requires Holds(View(), queue) && queue != []
      modifies this, eventBuffer
      ensures event == Some(queue[0]) && Holds(View(), queue[1..]) && emptySlots == old(emptySlots) + 1
    {
      HeadAndTail(View(), queue);
      TakeHolds(View(), queue);
      event := TakeEvent();
      HoldsIgnoresSemaphore(View(), queue[1..], emptySlots + 1);
      emptySlots := emptySlots + 1;
    }

    /** `drain` when no other step comes in between: hands over the whole backlog in order. */
    method Drain(ghost queue: seq<Event>) returns (handed: seq<Event>)
      requires Holds(View(), queue) && emptySlots == eventBuffer.Length - |queue|
      modifies this, eventBuffer
      ensures handed == queue && Holds(View(), []) && emptySlots == eventBuffer.Length
    {
      hide Holds;
      handed := [];
      ghost var rest := queue;
      while emptySlots < eventBuffer.Length
        invariant handed + rest == queue && Holds(View(), rest) && emptySlots == eventBuffer.Length - |rest|
        decreases |rest|
      {
        var event := DrainOne(rest);
        if event.Some? { handed := handed + [event.value]; }
        rest := rest[1..];
      }
    }
  }
}
