/** Reputation entries, the status derived from them, and every step that changes them. */
module Reputation {
  import opened Common
  import opened Addresses
  import opened UserOps

  datatype RepEntry = RepEntry(opsSeen: int, opsIncluded: int)

  datatype Status = OK | THROTTLED | BANNED

  datatype Role = Account | PaymasterRole | Deployer | Aggregator

  datatype Reject =
    | PaymasterDepositTooLow
    | IsBanned(role: Role, addr: string)
    | IsThrottled(role: Role, addr: string)
    | StakeTooLow(role: Role, addr: string)
    | UnstakeDelayTooLow(role: Role, addr: string)
    | PriorityFeeTooLow
    | MaxFeeTooLow
    | SenderIsEntity(sender: string)
    | PaymasterIsSender(paymaster: Option<string>)
    | FactoryIsSender(factory: Option<string>)

  const MIN_INCLUSION_DENOMINATOR := 10
  const THROTTLING_SLACK := 10
  const BAN_SLACK := 50
  const CRASH_PENALTY := 10000

  datatype Limits = Limits(minStake: int, minUnstakeDelay: int)

  /** The parts of the shared state that the reputation manager owns. */
  datatype Book = Book(entries: map<string, RepEntry>, whiteList: seq<string>, blackList: seq<string>)

  function EntryOf(b: Book, addr: string): RepEntry {
    if addr in b.entries then b.entries[addr] else RepEntry(0, 0)
  }

  function GetStatus(b: Book, addr: Option<string>): Status {
    if addr.None? || Lower(addr.value) in b.whiteList then OK
    else if Lower(addr.value) in b.blackList then BANNED
    else if Lower(addr.value) !in b.entries then OK
    else
      var e := b.entries[Lower(addr.value)];
      var minExpected := e.opsSeen / MIN_INCLUSION_DENOMINATOR;
      if minExpected <= e.opsIncluded + THROTTLING_SLACK then OK
      else if minExpected <= e.opsIncluded + BAN_SLACK then THROTTLED
      else BANNED
  }

  // ---------- steps ----------

  /** One call of a method that changes the book; a `Seen` of no address (or the empty one) does nothing. */
  datatype Event =
    | Seen(target: Option<string>, up: bool)
    | Included(addr: string)
    | Crashed(addr: string)
    | AddWhitelist(items: seq<string>)
    | AddBlacklist(items: seq<string>)
    | SetReputation(reputations: seq<(string, RepEntry)>)
    | ClearReputation

  function Max0(x: int): int { if x < 0 then 0 else x }

  function Apply(b: Book, e: Event): Book {
    match e
    case Seen(addr, up) =>
      if !Truthy(addr) then b
      else
        var a := Lower(addr.value);
        var was := EntryOf(b, a);
        b.(entries := b.entries[a := was.(opsSeen := Max0(was.opsSeen + if up then 1 else -1))])
    case Included(addr) =>
      var a := Lower(addr);
      var was := EntryOf(b, a);
      b.(entries := b.entries[a := was.(opsIncluded := was.opsIncluded + 1)])
    case Crashed(addr) =>
      var a := Lower(addr);
      b.(entries := b.entries[a := RepEntry(EntryOf(b, a).opsSeen + CRASH_PENALTY, 0)])
    case AddWhitelist(items) => b.(whiteList := b.whiteList + items)
    case AddBlacklist(items) => b.(blackList := b.blackList + items)
    case SetReputation(items) => b.(entries := Overwrite(b.entries, items))
    case ClearReputation => b.(entries := map[])
  }

  function Overwrite(entries: map<string, RepEntry>, items: seq<(string, RepEntry)>): map<string, RepEntry> {
    if items == [] then entries
    else Overwrite(entries, items[..|items| - 1])[Lower(items[|items| - 1].0) := items[|items| - 1].1]
  }

  function ApplyAll(b: Book, es: seq<Event>): Book
    decreases es
  {
    if es == [] then b else ApplyAll(Apply(b, es[0]), es[1..])
  }

  lemma {:induction false} ApplyAllConcat(b: Book, es: seq<Event>, fs: seq<Event>)
    ensures ApplyAll(b, es + fs) == ApplyAll(ApplyAll(b, es), fs)
    decreases es
  {
    if es == [] {
      assert es + fs == fs;
    } else {
      assert (es + fs)[1..] == es[1..] + fs;
      ApplyAllConcat(Apply(b, es[0]), es[1..], fs);
    }
  }

  // ---------- checks ----------

  function CheckBanned(b: Book, role: Role, info: StakeInfo): Option<Reject> {
    if GetStatus(b, Some(info.addr)) == BANNED then Some(IsBanned(role, info.addr)) else None
  }

  function CheckThrottled(b: Book, role: Role, info: StakeInfo): Option<Reject> {
    if GetStatus(b, Some(info.addr)) == THROTTLED then Some(IsThrottled(role, info.addr)) else None
  }

  function CheckStake(b: Book, lim: Limits, role: Role, info: StakeInfo): Option<Reject> {
    if GetStatus(b, Some(info.addr)) == BANNED then Some(IsBanned(role, info.addr))
    else if info.stake < lim.minStake then Some(StakeTooLow(role, info.addr))
    else if info.unstakeDelaySec < lim.minUnstakeDelay then Some(UnstakeDelayTooLow(role, info.addr))
    else None
  }

  function Min(x: int, y: int): int { if x < y then x else y }

  function MaxAllowedMempoolOpsUnstaked(b: Book, entity: string): int {
    if Lower(entity) !in b.entries then 10
    else
      var e := b.entries[Lower(entity)];
      var rate := if e.opsSeen == 0 then 0 else Floor(10 * e.opsIncluded, e.opsSeen);
      10 + rate + Min(e.opsIncluded, 10000)
  }

  /** `Math.floor(a / b)` in exact arithmetic. */
  function Floor(a: int, b: int): int
    requires b != 0
  {
    if b > 0 then a / b else (-a) / (-b)
  }

  // ---------- how long a ban lasts ----------

  function Inclusions(es: seq<Event>, addr: string): nat {
    if es == [] then 0
    else (if es[0].Included? && Lower(es[0].addr) == addr then 1 else 0) + Inclusions(es[1..], addr)
  }

  function Decrements(es: seq<Event>, addr: string): nat {
    if es == [] then 0
    else (if es[0].Seen? && !es[0].up && Names(es[0].target, addr) then 1 else 0) + Decrements(es[1..], addr)
  }

  /** Nothing in `es` pardons `addr`: no whitelisting of it, no clearing and no overwriting of entries. */
  predicate NoPardon(es: seq<Event>, addr: string) {
    forall e :: e in es ==> !e.ClearReputation? && !e.SetReputation? && !(e.AddWhitelist? && addr in e.items)
  }

  /** How far the entry of `addr` is above ten times its inclusions; 510 is the least margin that means a ban. */
  function Margin(b: Book, addr: string): int {
    EntryOf(b, addr).opsSeen - 10 * EntryOf(b, addr).opsIncluded
  }

  /** Not whitelisted and judged by an entry of its own. */
  predicate Judgeable(b: Book, addr: string) { addr in b.entries && addr !in b.whiteList }

  lemma BannedByMargin(b: Book, addr: string)
    requires Folded(addr) && Judgeable(b, addr)
    ensures GetStatus(b, Some(addr)) == BANNED <==> addr in b.blackList || Margin(b, addr) >= 510
  {
  }

  /** The status in every case: the white list wins over the black list, and an entry that neither mentions is judged by its
      margin, 110 for throttling and 510 for a ban; nobody else is judged. */
  lemma StatusByMargin(b: Book, addr: string)
    requires Folded(addr)
    ensures GetStatus(b, Some(addr)) == BANNED <==>
            addr !in b.whiteList && (addr in b.blackList || (addr in b.entries && Margin(b, addr) >= 510))
    ensures GetStatus(b, Some(addr)) == THROTTLED <==>
            addr !in b.whiteList && addr !in b.blackList && addr in b.entries && 110 <= Margin(b, addr) < 510
    ensures GetStatus(b, None) == OK
  {
  }

  /** The steps of an operator: a listed address is never banned or throttled once it is on the white list, is banned on the
      black list alone, and clearing leaves nobody to be judged but by the lists. */
  lemma ListsDecide(b: Book, items: seq<string>, addr: string)
    requires Folded(addr) && addr in items
    ensures GetStatus(Apply(b, AddWhitelist(items)), Some(addr)) == OK
    ensures addr !in b.whiteList ==> GetStatus(Apply(b, AddBlacklist(items)), Some(addr)) == BANNED
    ensures GetStatus(Apply(b, ClearReputation), Some(addr)) == BANNED <==> addr !in b.whiteList && addr in b.blackList
    ensures GetStatus(Apply(b, ClearReputation), Some(addr)) != THROTTLED
  {
  }

  /** The last of the given entries that name `addr` is the one that counts, and an address that none of them names keeps
      its own. */
  lemma {:induction false} LastReputationCounts(b: Book, items: seq<(string, RepEntry)>, i: nat, addr: string)
    requires i <= |items| && (forall j :: i < j < |items| ==> Lower(items[j].0) != addr)
    requires i < |items| ==> Lower(items[i].0) == addr
    requires i == |items| ==> forall j :: 0 <= j < |items| ==> Lower(items[j].0) != addr
    ensures EntryOf(Apply(b, SetReputation(items)), addr) == if i < |items| then items[i].1 else EntryOf(b, addr)
    decreases |items|
  {
    if items != [] {
      var n := |items| - 1;
      if i < n || i == |items| { LastReputationCounts(b, items[..n], if i == |items| then n else i, addr); }
    }
  }

  lemma MarginStep(b: Book, e: Event, addr: string)
    requires Folded(addr) && Judgeable(b, addr) && EntryOf(b, addr).opsSeen >= 0
    requires NoPardon([e], addr)
    ensures Judgeable(Apply(b, e), addr) && EntryOf(Apply(b, e), addr).opsSeen >= 0
    ensures Margin(Apply(b, e), addr) >= Margin(b, addr) - 10 * Inclusions([e], addr) - Decrements([e], addr)
            || (e.Crashed? && Margin(Apply(b, e), addr) >= CRASH_PENALTY)
  {
    assert e in [e];
  }

  lemma {:induction false} MarginKept(b: Book, es: seq<Event>, addr: string, floor: int)
    requires Folded(addr) && Judgeable(b, addr) && EntryOf(b, addr).opsSeen >= 0
    requires NoPardon(es, addr)
    requires Margin(b, addr) >= floor + 10 * Inclusions(es, addr) + Decrements(es, addr)
    requires 10 * Inclusions(es, addr) + Decrements(es, addr) + floor <= CRASH_PENALTY
    ensures Judgeable(ApplyAll(b, es), addr) && EntryOf(ApplyAll(b, es), addr).opsSeen >= 0
    ensures Margin(ApplyAll(b, es), addr) >= floor
    decreases es
  {
    if es != [] {
      assert [es[0]][1..] == [];
      assert es[0] in es;
      assert forall e :: e in es[1..] ==> e in es;
      MarginStep(b, es[0], addr);
      MarginKept(Apply(b, es[0]), es[1..], addr, floor);
    }
  }

  /** GREP-040: after a crash, an address stays BANNED through any i inclusions and d decrements with 10 * i + d <= 9490. */
  lemma BanLasts(b: Book, addr: string, es: seq<Event>)
    requires Lower(addr) !in b.whiteList && EntryOf(b, Lower(addr)).opsSeen >= 0
    requires NoPardon(es, Lower(addr))
    requires 10 * Inclusions(es, Lower(addr)) + Decrements(es, Lower(addr)) <= 9490
    ensures GetStatus(ApplyAll(Apply(b, Crashed(addr)), es), Some(addr)) == BANNED
  {
    var a := Lower(addr);
    LowerIsFolded(addr);
    var c := Apply(b, Crashed(addr));
    MarginKept(c, es, a, 510);
    BannedByMargin(ApplyAll(c, es), a);
  }

  /** The bound is exact: of a fresh address, one more decrement than 9490 lifts the ban. */
  lemma BanBoundIsTight(b: Book, addr: string, es: seq<Event>)
    requires Lower(addr) !in b.whiteList && Lower(addr) !in b.blackList && Lower(addr) !in b.entries && addr != ""
    requires forall e :: e in es ==> e == Seen(Some(addr), false) || e == Included(addr)
    requires Decrements(es, Lower(addr)) <= CRASH_PENALTY
    ensures GetStatus(ApplyAll(Apply(b, Crashed(addr)), es), Some(addr)) == BANNED
       <==> 10 * Inclusions(es, Lower(addr)) + Decrements(es, Lower(addr)) <= 9490
  {
    LowerIsFolded(addr);
    var c := Apply(b, Crashed(addr));
    ExactMargin(c, es, addr);
    BannedByMargin(ApplyAll(c, es), Lower(addr));
  }

  lemma {:induction false} ExactMargin(b: Book, es: seq<Event>, addr: string)
    requires addr != "" && Judgeable(b, Lower(addr))
    requires forall e :: e in es ==> e == Seen(Some(addr), false) || e == Included(addr)
    requires EntryOf(b, Lower(addr)).opsSeen >= Decrements(es, Lower(addr))
    ensures var c := ApplyAll(b, es);
            && Judgeable(c, Lower(addr)) && c.blackList == b.blackList
            && Margin(c, Lower(addr)) == Margin(b, Lower(addr)) - 10 * Inclusions(es, Lower(addr)) - Decrements(es, Lower(addr))
    decreases es
  {
    if es != [] {
      assert es[0] in es;
      assert forall e :: e in es[1..] ==> e in es;
      ExactMargin(Apply(b, es[0]), es[1..], addr);
    }
  }
}
