/** The order in which the entries of the pool are handed out: the order of their arrival. */
module MempoolOrder {
  import opened Common
  import opened OrderedRecord
  import opened Reputation
  import opened Mempool
  import opened MempoolInvariants

  // ---------- the order of keys ----------

  ghost predicate Precedes(keys: seq<string>, j: string, k: string) {
    exists i, l :: 0 <= i < l < |keys| && keys[i] == j && keys[l] == k
  }

  lemma PrecedesSnoc(keys: seq<string>, x: string, j: string, k: string)
    ensures Precedes(keys + [x], j, k) <==> Precedes(keys, j, k) || (j in keys && k == x)
  {
    var longer := keys + [x];
    if Precedes(keys, j, k) {
      var i, l :| 0 <= i < l < |keys| && keys[i] == j && keys[l] == k;
      assert longer[i] == j && longer[l] == k;
    }
    if j in keys && k == x {
      var i :| 0 <= i < |keys| && keys[i] == j;
      assert longer[i] == j && longer[|keys|] == k;
    }
  }

  lemma {:induction false} WithoutPrecedes(keys: seq<string>, key: string, j: string, k: string)
    ensures Precedes(Without(keys, key), j, k) <==> Precedes(keys, j, k) && j != key && k != key
  {
    if keys != [] {
      var n := |keys| - 1;
      var rest := Without(keys[..n], key);
      WithoutPrecedes(keys[..n], key, j, k);
      assert keys == keys[..n] + [keys[n]];
      PrecedesSnoc(keys[..n], keys[n], j, k);
      PrecedesSnoc(rest, keys[n], j, k);
      assert j in rest <==> j in Members(rest);
      assert j in keys[..n] <==> j in Members(keys[..n]);
    }
  }

  lemma {:induction false} SweepOrder(pool: Pool, counts: Counts, doomed: seq<Entry>, j: string, k: string)
    requires var after := SweepAll(pool, counts, doomed).0; j in after.vals && k in after.vals
    ensures Precedes(SweepAll(pool, counts, doomed).0.keys, j, k) <==> Precedes(pool.keys, j, k)
    decreases doomed
  {
    if doomed != [] {
      var once := Delete(pool, doomed[0].hash);
      SweepPool(once, counts - SweepKeys(doomed[0].op), doomed[1..]);
      SweepOrder(once, counts - SweepKeys(doomed[0].op), doomed[1..], j, k);
      WithoutPrecedes(pool.keys, doomed[0].hash, j, k);
    }
  }

  // ---------- arrival ----------

  lemma AddOrder(cfg: Config, s: State, a: Action, j: string, k: string)
    requires Inv(s) && Accepted(cfg, s, a) && a.p.hash != j && a.p.hash != k
    requires j in Step(cfg, s, a).pool.vals && k in Step(cfg, s, a).pool.vals
    ensures Precedes(Step(cfg, s, a).pool.keys, j, k) <==> Precedes(s.pool.keys, j, k)
  {
    hide CheckAdd, AddEvents, WellFormed;
    var before := if Replaced(s, a.p).Some? then Delete(s.pool, Replaced(s, a.p).value.hash) else s.pool;
    if Replaced(s, a.p).Some? { WithoutPrecedes(s.pool.keys, Replaced(s, a.p).value.hash, j, k); }
    PrecedesSnoc(before.keys, a.p.hash, j, k);
  }

  /** A new entry joins the end. */
  lemma JoinsTheEnd(cfg: Config, s: State, a: Action, j: string)
    requires Inv(s) && Accepted(cfg, s, a) && a.p.hash !in s.pool.vals
    requires j in Step(cfg, s, a).pool.vals && j != a.p.hash
    ensures Precedes(Step(cfg, s, a).pool.keys, j, a.p.hash)
  {
    hide CheckAdd, AddEvents;
    var before := if Replaced(s, a.p).Some? then Delete(s.pool, Replaced(s, a.p).value.hash) else s.pool;
    PrecedesSnoc(before.keys, a.p.hash, j, a.p.hash);
    assert j in Members(before.keys);
  }

  /** No step changes the order of the entries that it keeps. */
  lemma StepOrder(cfg: Config, s: State, a: Action, j: string, k: string)
    requires Inv(s) && (a.Add? ==> a.p.hash != j && a.p.hash != k)
    requires j in Step(cfg, s, a).pool.vals && k in Step(cfg, s, a).pool.vals
    ensures j in s.pool.vals && k in s.pool.vals
    ensures Precedes(Step(cfg, s, a).pool.keys, j, k) <==> Precedes(s.pool.keys, j, k)
  {
    hide CheckAdd, AddEvents, Precedes;
    match a
    case Add(p) =>
      if Accepted(cfg, s, a) {
        AddMeans(cfg, s, a);
        AddOrder(cfg, s, a, j, k);
      }
    case Remove(ref) => if Resolve(ref, s.pool).Some? { WithoutPrecedes(s.pool.keys, Resolve(ref, s.pool).value.hash, j, k); }
    case SetStatus(ref, st) => StatusMeans(cfg, s, ref, st);
    case HandOut(all) => MarkMeans(s.pool, HandedOut(cfg, s, all));
    case BanSweep(addr) =>
      SweepRemovesExactly(s, addr);
      SweepOrder(s.pool, s.counts, Spelling(Values(s.pool), addr), j, k);
    case Clear =>
    case Rep(_) =>
  }

  /** Nor does any run, as long as neither entry is added again. */
  lemma {:induction false} RunOrder(cfg: Config, s: State, actions: seq<Action>, j: string, k: string)
    requires Inv(s) && forall a :: a in actions && a.Add? ==> a.p.hash != j && a.p.hash != k
    requires j in Run(cfg, s, actions).pool.vals && k in Run(cfg, s, actions).pool.vals
    ensures j in s.pool.vals && k in s.pool.vals
    ensures Precedes(Run(cfg, s, actions).pool.keys, j, k) <==> Precedes(s.pool.keys, j, k)
  {
    hide Step, Precedes, Inv;
    if actions != [] {
      var n := |actions| - 1;
      RunInv(cfg, s, actions[..n]);
      StepOrder(cfg, Run(cfg, s, actions[..n]), actions[n], j, k);
      RunOrder(cfg, s, actions[..n], j, k);
    }
  }

  // ---------- hand-out ----------

  ghost predicate AllDifferent(es: seq<Entry>) { forall i, l :: 0 <= i < l < |es| ==> es[i] != es[l] }

  lemma ValuesDiffer(pool: Pool)
    requires Keyed(pool)
    ensures AllDifferent(Values(pool))
  {
    forall i, l | 0 <= i < l < |pool.keys| ensures Values(pool)[i] != Values(pool)[l] {
      DistinctAt(pool.keys, i, l);
    }
  }

  lemma {:induction false} FirstPendingFair(es: seq<Entry>, n: nat, i: nat, l: nat)
    requires AllDifferent(es) && i < l < |es| && es[i].status == Pending && es[l] in FirstPending(es, n)
    ensures es[i] in FirstPending(es, n)
  {
    if i > 0 {
      FirstPendingFair(es[1..], if es[0].status == Pending then n - 1 else n, i - 1, l - 1);
    }
  }

  /** No pending entry is overtaken: what arrived before an entry that is handed out is handed out with it or earlier. */
  lemma NoneOvertaken(cfg: Config, s: State, actions: seq<Action>, all: bool, j: string, k: string)
    requires Inv(s) && Precedes(s.pool.keys, j, k)
    requires forall a :: a in actions && a.Add? ==> a.p.hash != j && a.p.hash != k
    requires var t := Run(cfg, s, actions);
             && j in t.pool.vals && k in t.pool.vals
             && t.pool.vals[j].status == Pending && t.pool.vals[k] in HandedOut(cfg, t, all)
    ensures Run(cfg, s, actions).pool.vals[j] in HandedOut(cfg, Run(cfg, s, actions), all)
  {
    var t := Run(cfg, s, actions);
    RunInv(cfg, s, actions);
    RunOrder(cfg, s, actions, j, k);
    var i, l :| 0 <= i < l < |t.pool.keys| && t.pool.keys[i] == j && t.pool.keys[l] == k;
    ValuesDiffer(t.pool);
    FirstPendingFair(Values(t.pool), if all then |t.pool.keys| else cfg.bundleSize, i, l);
  }
}
