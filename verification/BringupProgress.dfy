/** The bring-up protocol cannot deadlock and always ends; keeping the link mutex during the remote call would
    break both. */
module BringupProgress {
  import opened Net
  import opened Bringup
  import opened BringupInvariant
  import opened BringupTheorems

  // ---- every run ends ----

  /** Steps left on the current link, at most. */
  function Rank(phase: Phase): nat {
    match phase
    case Read => 14
    case OnVeth(stage) =>
      (match stage case Want => 6 case Look => 5 case Make => 4 case Shape => 3 case ShapePeer => 2 case _ => 1)
    case OnVxlan(side, stage) =>
      (if side.Mine? then 7 else 0)
      + (match stage
         case Want => 6 case Evict => 5 case Look => 4 case Make => 3 case Shape => 2 case Index => 1 case _ => 0)
  }

  /** Steps left in a pod's run, at most. */
  function Left(c: Cluster, p: nat, pc: Pc): nat
    requires p < |c.pods| && PcFits(c, p, pc)
  {
    match pc
    case Start => 15 * |c.pods[p].links| + 1
    case At(i, phase) => 15 * (|c.pods[p].links| - i - 1) + Rank(phase) + 1
    case _ => 0
  }

  lemma EveryMoveCounts(c: Cluster, p: nat, pc: Pc, next: Pc)
    requires p < |c.pods| && PcOk(c, p, pc) && PcOk(c, p, next) && Follows(c, p, pc, next) && !pc.Done? && !pc.Failed?
    ensures Left(c, p, next) < Left(c, p, pc)
  {
  }

  /** Steps left in the runs of the first `n` pods. */
  function LeftOf(c: Cluster, pcs: seq<Pc>, n: nat): nat
    requires n <= |pcs| == |c.pods| && forall p: nat :: p < |pcs| ==> PcOk(c, p, pcs[p])
  {
    if n == 0 then 0 else LeftOf(c, pcs, n - 1) + Left(c, n - 1, pcs[n - 1])
  }

  lemma {:induction false} LeftOfUpdate(c: Cluster, pcs: seq<Pc>, p: nat, next: Pc, n: nat)
    requires n <= |pcs| == |c.pods| && p < |pcs| && PcOk(c, p, next) && forall p: nat :: p < |pcs| ==>
               PcOk(c, p, pcs[p])
    ensures LeftOf(c, pcs[p := next], n) ==
            LeftOf(c, pcs, n) + (if p < n then Left(c, p, next) - Left(c, p, pcs[p]) else 0)
  {
    if n > 0 { LeftOfUpdate(c, pcs, p, next, n - 1); }
  }

  function StepsLeft(c: Cluster, s: State): nat
    requires PcsOk(c, s)
  {
    LeftOf(c, s.pcs, |s.pcs|)
  }

  lemma EveryStepCounts(c: Cluster, s: State, p: nat, a: Action)
    requires WellFormed(c) && PcsOk(c, s) && Enabled(c, s, p, a)
    ensures PcsOk(c, Step(c, s, p, a)) && StepsLeft(c, Step(c, s, p, a)) < StepsLeft(c, s)
  {
    var next := WorkOf(c, s, p, a).pc;
    WorkFollows(c, s, p, a);
    forall i: nat | InPod(c, p, i) ensures IsLink(c, p, i) { LinksAreFine(c, p, i); }
    assert PeersKnown(c) by {
      forall r: nat, i: nat | InPod(c, r, i) ensures IsLink(c, r, i) { LinksAreFine(c, r, i); }
    }
    FollowsFits(c, p, s.pcs[p], next);
    EveryMoveCounts(c, p, s.pcs[p], next);
    LeftOfUpdate(c, s.pcs, p, next, |s.pcs|);
  }

  /** Termination: no run is longer than the number of steps its first state has left. */
  lemma {:induction false} RunsAreBounded(c: Cluster, states: seq<State>, events: seq<Event>, k: nat)
    requires WellFormed(c) && Run(c, states, events) && PcsOk(c, states[0]) && k <= |events|
    ensures PcsOk(c, states[k]) && k + StepsLeft(c, states[k]) <= StepsLeft(c, states[0])
  {
    if k > 0 {
      RunsAreBounded(c, states, events, k - 1);
      assert StepAt(c, states, events, k - 1);
      EveryStepCounts(c, states[k - 1], events[k - 1].pod, events[k - 1].act);
    }
  }

  // ---- no deadlock ----

  /** A run that holds a mutex can go on, and a run that waits for the peer's daemon holds none. */
  lemma HoldersAreNeverBlocked(c: Cluster, s: State, p: nat, m: Mutex)
    requires PcsOk(c, s) && LocksOk(c, s) && p < |s.pcs|
    ensures Owns(c, s, p, m) ==> Enabled(c, s, p, Go)
    ensures s.pcs[p].At? && s.pcs[p].phase == OnVxlan(Theirs, Want) ==> !(m in s.locks && s.locks[m] == p)
  {
    assert PcOk(c, p, s.pcs[p]);
    assert Owns(c, s, p, m) <==> m in s.locks && s.locks[m] == p;
  }

  /** While any run is unfinished, some run can take a step. */
  lemma SomeRunCanStep(c: Cluster, s: State, p: nat) returns (q: nat)
    requires PcsOk(c, s) && LocksOk(c, s) && p < |s.pcs| && !s.pcs[p].Done? && !s.pcs[p].Failed?
    ensures Enabled(c, s, q, Go)
  {
    assert PcOk(c, p, s.pcs[p]);
    q := p;
    if !Enabled(c, s, p, Go) {
      var m := CurrentMutex(c, p, s.pcs[p]);
      q := s.locks[m];
      assert Owns(c, s, q, m);
      HoldersAreNeverBlocked(c, s, q, m);
    }
  }

  /** Total correctness: a crash-free run with fresh reads that cannot go on has set up every pod, and every link
      of the cluster is up at both ends. */
  lemma MaximalRunsBringEverythingUp(c: Cluster, base: Table, index: map<Slot, string>, states: seq<State>,
                                     events: seq<Event>)
    requires FreshRun(c, base, index, states, events) && !c.lag
    requires NoCrash(events, |events|)
    requires forall p: nat :: !Enabled(c, states[|events|], p, Go)
    ensures |events| <= StepsLeft(c, states[0])
    ensures |states[|events|].pcs| == |c.pods|
    ensures forall p: nat :: p < |c.pods| ==> states[|events|].pcs[p].Done?
    ensures forall p: nat, i: nat, q: nat, j: nat :: Twin(c, p, i, q, j) ==>
              Twin(c, q, j, p, i) && LinkUp(c, states[|events|], p, i, q, j)
  {
    var k := |events|;
    var s := states[k];
    EveryStateIsInOrder(c, base, index, states, events, 0);
    EveryStateIsInOrder(c, base, index, states, events, k);
    RunsAreBounded(c, states, events, k);
    forall p: nat | p < |c.pods|
      ensures s.pcs[p].Done?
    {
      if !s.pcs[p].Done? {
        var q := SomeRunCanStep(c, s, p);
      }
    }
    BringUpIsComplete(c, base, index, states, events, k);
  }
}
