/** The builder together with the mempool: one `createBundle`, and what its guards do not catch. */
module BundleRuns {
  import opened Addresses
  import opened UserOps
  import opened OrderedRecord
  import opened Mempool
  import opened MempoolInvariants
  import opened MempoolRuns
  import opened Managers
  import opened BundleBuilder
  import opened BundleTheorems

  // ---------- one createBundle ----------

  /** The build that follows a hand-out: known senders are read after the entries have been handed out. */
  function BuildAfter(cfg: Config, s: State, force: bool, maxBundleGas: nat, signer: Authorization -> string,
                      obs: nat -> Observed): Build
  {
    var t := Step(cfg, s, HandOut(force));
    Build(Rules(maxBundleGas, KnownSenders(t.pool), signer), HandedOut(cfg, s, force), obs)
  }

  function BackByHash(hashes: seq<string>): seq<Action> {
    seq(|hashes|, i requires 0 <= i < |hashes| => SetStatus(ByHash(hashes[i]), Pending))
  }

  /** `createBundle` up to and including the return-to-pending loop of its hook. */
  method CreateBundle(mempool: MempoolManager, force: bool, maxBundleGas: nat, signer: Authorization -> string, obs: nat -> Observed)
    returns (acc: Accumulator)
    requires mempool.Valid()
    modifies mempool
    ensures mempool.Valid() && fresh(acc)
    ensures var s := old(mempool.View());
            var b := BuildAfter(mempool.cfg, s, force, maxBundleGas, signer, obs);
            && acc.View() == b.At(|b.entries|)
            && mempool.View() == Run(mempool.cfg, Step(mempool.cfg, s, HandOut(force)), BackByHash(acc.View().notIncluded))
  {
    ghost var s := mempool.View();
    var entries;
    if force {
      entries := mempool.GetAllPending();
    } else {
      entries := mempool.GetNextPending();
    }
    var r := Rules(maxBundleGas, KnownSenders(mempool.standardPool), signer);
    acc := BuildBundle(Build(r, entries, obs));
    ReturnToPending(mempool, acc.notIncluded);
  }

  /** The return loop of the builder's `afterHook`. */
  method ReturnToPending(mempool: MempoolManager, hashes: seq<string>)
    requires mempool.Valid()
    modifies mempool
    ensures mempool.Valid() && mempool.View() == Run(mempool.cfg, old(mempool.View()), BackByHash(hashes))
  {
    for i := 0 to |hashes|
      invariant mempool.Valid()
      invariant mempool.View() == Run(mempool.cfg, old(mempool.View()), BackByHash(hashes[..i]))
    {
      assert hashes[..i + 1][i] == hashes[i];
      assert BackByHash(hashes[..i + 1])[..i] == BackByHash(hashes[..i]);
      mempool.UpdateEntryStatus(ByHash(hashes[i]), Pending);
    }
    assert hashes[..|hashes|] == hashes;
  }

  lemma SetPendingStep(cfg: Config, s: State, h: string)
    requires Keyed(s.pool)
    ensures var t := Step(cfg, s, SetStatus(ByHash(h), Pending));
            t.pool.vals == if h in s.pool.vals then s.pool.vals[h := s.pool.vals[h].(status := Pending)] else s.pool.vals
  {
  }

  /** The loop sets exactly the listed hashes that are in the pool back to pending. */
  lemma {:induction false} SetBack(cfg: Config, s: State, hashes: seq<string>, t: State)
    requires Inv(s) && t == Run(cfg, s, BackByHash(hashes))
    ensures Inv(t) && t.pool.vals.Keys == s.pool.vals.Keys
    ensures forall h :: h in s.pool.vals ==> 
              t.pool.vals[h] == if h in hashes then s.pool.vals[h].(status := Pending) else s.pool.vals[h]
    decreases hashes
  {
    hide Step;
    RunInv(cfg, s, BackByHash(hashes));
    if hashes != [] {
      var n := |hashes| - 1;
      assert BackByHash(hashes)[..n] == BackByHash(hashes[..n]);
      var before := Run(cfg, s, BackByHash(hashes[..n]));
      SetBack(cfg, s, hashes[..n], before);
      SetPendingStep(cfg, before, hashes[n]);
      assert hashes == hashes[..n] + [hashes[n]];
    }
  }

  // ---------- the hand-out meets the builder ----------

  lemma HandedOutAreKnown(cfg: Config, s: State, force: bool, e: Entry)
    requires Inv(s) && e in HandedOut(cfg, s, force)
    ensures Lower(e.op.sender) in KnownSenders(Step(cfg, s, HandOut(force)).pool)
  {
    hide Step, HandedOut, KnownSenders;
    GivenAreOut(cfg, s, force, e);
    SenderIsKnown(Step(cfg, s, HandOut(force)).pool, e.hash);
  }

  lemma SenderIsKnown(pool: Pool, k: string)
    requires k in pool.vals
    ensures Lower(pool.vals[k].op.sender) in KnownSenders(pool)
  {
    var es := Values(pool);
    ValuesAreVals(pool, pool.vals[k]);
    var i :| 0 <= i < |es| && es[i] == pool.vals[k];
    assert KnownSenders(pool)[i] == Lower(es[i].op.sender);
  }

  /** In every bundle built right after a hand-out, no bundled op touches a storage address of another bundled account. */
  lemma BundleIsolation(cfg: Config, s: State, force: bool, maxBundleGas: nat, signer: Authorization -> string,
                        obs: nat -> Observed, i: nat, j: nat, a: string)
    requires Inv(s)
    requires var b := BuildAfter(cfg, s, force, maxBundleGas, signer, obs);
             && i < |b.entries| && j < |b.entries| && b.Fate(i) == InBundle && b.Fate(j) == InBundle
             && Lower(b.entries[i].op.sender) != Lower(b.entries[j].op.sender)
             && a in b.obs(i).validation.value.storageMap
    ensures Lower(a) != Lower(HandedOut(cfg, s, force)[j].op.sender)
  {
    var b := BuildAfter(cfg, s, force, maxBundleGas, signer, obs);
    HandedOutAreKnown(cfg, s, force, b.entries[j]);
    NoInterference(b, i, j, a);
  }

  predicate HashesDiffer(es: seq<Entry>) {
    forall i, j :: 0 <= i < j < |es| ==> es[i].hash != es[j].hash
  }

  lemma ValuesDiffer(pool: Pool)
    requires Keyed(pool)
    ensures HashesDiffer(Values(pool))
  {
    var es := Values(pool);
    forall i, j | 0 <= i < j < |es| ensures es[i].hash != es[j].hash {
      DistinctAt(pool.keys, i, j);
    }
  }

  lemma {:induction false} FirstPendingDiffer(es: seq<Entry>, n: nat)
    requires HashesDiffer(es)
    ensures HashesDiffer(FirstPending(es, n))
    ensures forall e :: e in FirstPending(es, n) ==> e in es
  {
    if es != [] && n > 0 {
      var m := if es[0].status == Pending then n - 1 else n;
      assert es == [es[0]] + es[1..];
      FirstPendingDiffer(es[1..], m);
      var rest := FirstPending(es[1..], m);
      forall e | e in rest ensures e.hash != es[0].hash {
        var k :| 0 <= k < |es[1..]| && es[1..][k] == e;
        assert es[k + 1] == e;
      }
    }
  }

  lemma {:induction false} HashIn(entries: seq<Entry>, fate: nat -> Fate, n: nat, f: Fate, i: nat)
    requires i < |entries| && n <= |entries| && HashesDiffer(entries)
    ensures entries[i].hash in HashesWith(entries, fate, n, f) <==> i < n && fate(i) == f
  {
    if n > 0 { HashIn(entries, fate, n - 1, f, i); }
  }

  /** After a hand-out, the entries given are in the pool and none of them is pending. */
  lemma GivenAreOut(cfg: Config, s: State, force: bool, e: Entry)
    requires Inv(s) && e in HandedOut(cfg, s, force)
    ensures var t := Step(cfg, s, HandOut(force));
            Inv(t) && e.hash in t.pool.vals && t.pool.vals[e.hash] == e.(status := Bundling)
  {
    InvStep(cfg, s, HandOut(force));
    GivenWerePending(cfg, s, HandOut(force), e);
    MarkMeans(s.pool, HandedOut(cfg, s, force));
  }

  /** After a hand-out and the return loop, an entry handed out is pending exactly when its hash was listed. */
  lemma PendingIfListed(cfg: Config, s: State, force: bool, hashes: seq<string>, e: Entry)
    requires Inv(s) && e in HandedOut(cfg, s, force)
    ensures IsPending(Run(cfg, Step(cfg, s, HandOut(force)), BackByHash(hashes)).pool, e.hash) <==> e.hash in hashes
  {
    var t := Step(cfg, s, HandOut(force));
    GivenAreOut(cfg, s, force, e);
    SetBack(cfg, t, hashes, Run(cfg, t, BackByHash(hashes)));
  }

  /** After `createBundle`, of the entries handed out exactly the not-included ones are pending again; in particular an
      entry skipped for an authorization conflict stays `bundling`, and no later hand-out yields it until some step returns it. */
  lemma PendingAgain(cfg: Config, s: State, force: bool, b: Build, i: nat)
    requires Inv(s) && b.entries == HandedOut(cfg, s, force) && i < |b.entries|
    ensures var t := Run(cfg, Step(cfg, s, HandOut(force)), BackByHash(b.At(|b.entries|).notIncluded));
            IsPending(t.pool, b.entries[i].hash) <==> b.Fate(i) == NotIncluded
  {
    PendingIfListed(cfg, s, force, b.At(|b.entries|).notIncluded, b.entries[i]);
    ValuesDiffer(s.pool);
    FirstPendingDiffer(Values(s.pool), if force then |s.pool.keys| else cfg.bundleSize);
    ListsInOrder(b, |b.entries|);
    HashIn(b.entries, Fates(b), |b.entries|, NotIncluded, i);
  }
}
