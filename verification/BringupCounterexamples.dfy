/** Why the bring-up protocol reads fresh statuses and drops the link mutex before it calls the peer's daemon. */
module BringupCounterexamples {
  import opened Net
  import opened Bringup
  import opened BringupInvariant
  import opened BringupLinks
  import opened BringupConfluence
  import opened BringupSchedules
  import Ids

  // ---- stale reads ----

  /** A published pod reads all its remaining peers as not alive. */
  lemma StaleReads(c: Cluster, start: State, s: State, p: nat, i: nat) returns (t: State)
    requires c.lag && WellFormed(c) && Reaches(c, start, s) && p < |c.pods| == |s.pcs| && i <= |c.pods[p].links|
             && s.pcs[p] == NextLink(c, p, i)
    ensures Reaches(c, start, t) && t.pcs == s.pcs[p := Done] && t.table == s.table
    decreases |c.pods[p].links| - i
  {
    t := s;
    if i < |c.pods[p].links| {
      LinksAreFine(c, p, i);
      ReachesNext(c, start, s, p, Stale);
      t := StaleReads(c, start, Step(c, s, p, Stale), p, i + 1);
    }
  }

  /** The first `n` pods come up one after the other, seeing none of the others. */
  lemma StalePods(c: Cluster, base: Table, index: map<Slot, string>, n: nat) returns (t: State)
    requires c.lag && WellFormed(c) && n <= |c.pods|
    ensures Reaches(c, Init(c, base, index), t) && |t.pcs| == |c.pods| && t.table == base
    ensures forall p: nat :: p < |c.pods| ==> t.pcs[p] == if p < n then Done else Start
  {
    if n == 0 {
      t := Init(c, base, index);
      ReachesSelf(c, t);
    } else {
      var s := StalePods(c, base, index, n - 1);
      ReachesNext(c, Init(c, base, index), s, n - 1, Go);
      t := StaleReads(c, Init(c, base, index), Step(c, s, n - 1, Go), n - 1, 0);
    }
  }

  /** With lagging reads every cluster has a run in which all pods are set up and no link is. */
  lemma StaleReadsCanLoseEveryLink(c: Cluster, base: Table, index: map<Slot, string>) returns (t: State)
    requires c.lag && WellFormed(c)
    ensures Reaches(c, Init(c, base, index), t) && AllDone(c, t) && t.table == base
  {
    t := StalePods(c, base, index, |c.pods|);
  }

  // ---- holding the mutex during the call ----

  /** One stage of a run's own side when nothing stands in its way; the mutex is taken at the beginning and kept. */
  lemma OwnStage(c: Cluster, start: State, s: State, p: nat, i: nat, stage: Stage) returns (t: State)
    requires c.hold && IsLink(c, p, i) && Reaches(c, start, s) && p < |c.pods| == |s.pcs|
             && s.pcs[p] == At(i, OnVxlan(Mine, stage))
    requires VxlanWork(c, s, p, i, Mine, stage) == PlainWork(c, s, p, i, Mine, stage)
             && !PlainWork(c, s, p, i, Mine, stage).pc.Failed?
    requires stage.Want? ==> MutexOf(c, p, i, Mine) !in s.locks
    ensures Reaches(c, start, t)
    ensures t.pcs == s.pcs[p := PlainWork(c, s, p, i, Mine, stage).pc]
            && t.table == PlainWork(c, s, p, i, Mine, stage).table
    ensures t.locks == if stage.Want? then s.locks[MutexOf(c, p, i, Mine) := p] else s.locks
  {
    ReachesNext(c, start, s, p, Go);
    t := Step(c, s, p, Go);
  }

  lemma OwnDevice(c: Cluster, start: State, s: State, p: nat, i: nat) returns (t: State)
    requires c.hold && IsLink(c, p, i) && Reaches(c, start, s) && p < |c.pods| == |s.pcs|
             && s.pcs[p] == At(i, OnVxlan(Mine, Want))
    requires MutexOf(c, p, i, Mine) !in s.locks && Ids.IsVni24(Device(c, p, i, Mine).vni)
    requires MyEnd(c, p, i) !in s.table && !HasVni(s.table, MyEnd(c, p, i).space.node, Device(c, p, i, Mine).vni)
    ensures Reaches(c, start, t) && t.pcs == s.pcs[p := At(i, OnVxlan(Mine, Shape))]
            && t.locks == s.locks[MutexOf(c, p, i, Mine) := p]
    ensures forall e :: e != MyEnd(c, p, i) ==> SameAt(t.table, s.table, e)
  {
    t := OwnStage(c, start, s, p, i, Want);
    t := OwnStage(c, start, t, p, i, Look);
    CleanMake(t.table, Device(c, p, i, Mine));
    t := OwnStage(c, start, t, p, i, Make);
  }

  /** In the variant that holds the mutex, a run does its own side of a link and then waits for the other side
      with its own node's mutex still locked. */
  lemma OwnSideThenWait(c: Cluster, start: State, s: State, p: nat, i: nat) returns (t: State)
    requires c.hold && IsLink(c, p, i) && Reaches(c, start, s) && p < |c.pods| == |s.pcs|
             && s.pcs[p] == At(i, OnVxlan(Mine, Want))
    requires MutexOf(c, p, i, Mine) !in s.locks && Ids.IsVni24(Device(c, p, i, Mine).vni)
    requires MyEnd(c, p, i) !in s.table && !HasVni(s.table, MyEnd(c, p, i).space.node, Device(c, p, i, Mine).vni)
    ensures Reaches(c, start, t) && t.pcs == s.pcs[p := At(i, OnVxlan(Theirs, Want))]
            && t.locks == s.locks[MutexOf(c, p, i, Mine) := p]
    ensures forall e :: e != MyEnd(c, p, i) ==> SameAt(t.table, s.table, e)
  {
    var u := OwnDevice(c, start, s, p, i);
    t := OwnStage(c, start, u, p, i, Shape);
    t := OwnStage(c, start, t, p, i, Index);
    t := OwnStage(c, start, t, p, i, Out);
    forall e | e != MyEnd(c, p, i) ensures SameAt(t.table, s.table, e) { assert SameAt(u.table, s.table, e); }
  }

  /** Two pods on different nodes that share a link. */
  ghost predicate TwoNodes(c: Cluster) {
    && WellFormed(c) && |c.pods| == 2 && |c.pods[0].links| == 1 && |c.pods[1].links| == 1
    && Twin(c, 0, 0, 1, 0) && c.pods[0].space.node != c.pods[1].space.node
  }

  /** Both pods publish and then see each other alive. */
  lemma BothSeeEachOther(c: Cluster, base: Table, index: map<Slot, string>) returns (t: State)
    requires TwoNodes(c)
    ensures Reaches(c, Init(c, base, index), t) && t.locks == map[] && t.table == base
    ensures t.pcs == [At(0, OnVxlan(Mine, Want)), At(0, OnVxlan(Mine, Want))]
  {
    var start := Init(c, base, index);
    ReachesSelf(c, start);
    LinksAreFine(c, 0, 0);
    LinksAreFine(c, 1, 0);
    t := start;
    ReachesNext(c, start, t, 0, Go);
    t := Step(c, t, 0, Go);
    ReachesNext(c, start, t, 1, Go);
    t := Step(c, t, 1, Go);
    ReachesNext(c, start, t, 0, Go);
    t := Step(c, t, 0, Go);
    ReachesNext(c, start, t, 1, Go);
    t := Step(c, t, 1, Go);
  }

  /** The variant deadlocks on every such cluster: both runs end up waiting for the mutex that the other one holds. */
  lemma HoldingTheMutexDeadlocks(c: Cluster, base: Table, index: map<Slot, string>) returns (t: State)
    requires c.hold && TwoNodes(c) && Fresh(c, base, index)
    ensures Reaches(c, Init(c, base, index), t) && |t.pcs| == 2
    ensures forall p: nat :: p < 2 ==>
              !t.pcs[p].Done? && !t.pcs[p].Failed? && !Enabled(c, t, p, Go) && !Enabled(c, t, p, Stale)
  {
    var start := Init(c, base, index);
    LinksAreFine(c, 0, 0);
    LinksAreFine(c, 1, 0);
    Ids.SupportedUids(LinkOf(c, 0, 0).uid, 0);
    TwinViews(c, 0, 0, 1, 0);
    TwinViews(c, 1, 0, 0, 0);
    var s := BothSeeEachOther(c, base, index);
    var u := OwnSideThenWait(c, start, s, 0, 0);
    StillFree(c, base, index, u.table);
    t := OwnSideThenWait(c, start, u, 1, 0);
  }

  lemma StillFree(c: Cluster, base: Table, index: map<Slot, string>, t: Table)
    requires TwoNodes(c) && Fresh(c, base, index) && IsLink(c, 1, 0) && forall e :: e != MyEnd(c, 0, 0) ==>
               SameAt(t, base, e)
    ensures MyEnd(c, 1, 0) !in t && !HasVni(t, MyEnd(c, 1, 0).space.node, Device(c, 1, 0, Mine).vni)
  {
    assert SameAt(t, base, MyEnd(c, 1, 0));
    var node, vni, far := MyEnd(c, 1, 0).space.node, Device(c, 1, 0, Mine).vni, MyEnd(c, 0, 0);
    forall e | e in t
      ensures !IsVxlan(t, e, node, vni)
    {
      assert e != far ==> SameAt(t, base, e);
      assert !IsVxlan(base, e, node, vni);
    }
  }
}
