/** What the bring-up protocol guarantees over whole runs. */
module BringupTheorems {
  import opened Net
  import opened Bringup
  import opened BringupInvariant
  import opened BringupLinks
  import opened Options
  import Ids
  import Qdisc

  // ---- the invariant over runs ----

  lemma WorkOfQuietStep(c: Cluster, s: State, p: nat, a: Action)
    requires Enabled(c, s, p, a) && (a.Crash? || s.pcs[p].Start? || (s.pcs[p].At? && s.pcs[p].phase.Read?))
    ensures WorkOf(c, s, p, a) == Move(s, WorkOf(c, s, p, a).pc)
    ensures ReadsDead(c, s, p, a) <==> s.pcs[p].At? && WorkOf(c, s, p, a).pc == NextLink(c, p, s.pcs[p].link + 1)
  {
  }

  /** A step that works on a link keeps all links in order, touches only that link, and never fails by itself. */
  lemma LinkStepKeepsLinks(c: Cluster, base: Table, index: map<Slot, string>, s: State, p: nat)
    requires WellFormed(c) && Fresh(c, base, index) && Inv(c, base, s) && Enabled(c, s, p, Go)
    requires s.pcs[p].At? && !s.pcs[p].phase.Read?
    ensures LinksOk(c, Step(c, s, p, Go)) && Local(c, s, Step(c, s, p, Go), p, s.pcs[p].link)
    ensures !Step(c, s, p, Go).pcs[p].Failed?
  {
    assert PcOk(c, p, s.pcs[p]);
    StepWorks(c, s, p);
    var s', i := Step(c, s, p, Go), s.pcs[p].link;
    if s.pcs[p].phase.OnVeth? {
      VethStepKeepsLinks(c, s, s', p, i, s.pcs[p].phase.stage);
      VethFollows(c, s, p, i, s.pcs[p].phase.stage);
    } else {
      VxlanStepKeepsLinks(c, base, index, s, s', p, i, s.pcs[p].phase.side, s.pcs[p].phase.stage);
    }
  }

  lemma StepWorks(c: Cluster, s: State, p: nat)
    requires PcsOk(c, s) && SkipsOk(c, s) && Enabled(c, s, p, Go) && s.pcs[p].At? && !s.pcs[p].phase.Read?
    ensures var i, phase := s.pcs[p].link, s.pcs[p].phase;
            Worked(s, p, i,
                   if phase.OnVeth? then VethWork(c, s, p, i, phase.stage)
                   else VxlanWork(c, s, p, i, phase.side, phase.stage),
                   Step(c, s, p, Go))
  {
  }

  lemma StepKeepsLinks(c: Cluster, base: Table, index: map<Slot, string>, s: State, p: nat, a: Action)
    requires WellFormed(c) && Fresh(c, base, index) && Inv(c, base, s) && Enabled(c, s, p, a)
    ensures LinksOk(c, Step(c, s, p, a)) && RestOk(c, base, Step(c, s, p, a))
    ensures !a.Crash? ==> !Step(c, s, p, a).pcs[p].Failed?
  {
    var s' := Step(c, s, p, a);
    if a.Crash? || s.pcs[p].Start? || s.pcs[p].phase.Read? {
      WorkFollows(c, s, p, a);
      WorkOfQuietStep(c, s, p, a);
      QuietStepKeepsLinks(c, s, s', p, s'.pcs[p]);
    } else {
      LinkStepKeepsLinks(c, base, index, s, p);
      LocalKeepsRest(c, base, s, s', p, s.pcs[p].link);
    }
  }

  lemma LocalKeepsRest(c: Cluster, base: Table, s: State, s': State, p: nat, i: nat)
    requires WellFormed(c) && RestOk(c, base, s) && IsLink(c, p, i) && Local(c, s, s', p, i)
    ensures RestOk(c, base, s')
  {
    var q, j := HasTwin(c, p, i);
    TwinViews(c, p, i, q, j);
    assert IsEnd(c, MyEnd(c, p, i)) && IsEnd(c, PeerEnd(c, p, i));
    forall e | !IsEnd(c, e)
      ensures SameAt(s'.table, base, e)
    {
      assert SameAt(s.table, base, e) && SameAt(s.table, s'.table, e);
    }
  }

  lemma InitIsFine(c: Cluster, base: Table, index: map<Slot, string>)
    requires WellFormed(c) && Fresh(c, base, index)
    ensures Inv(c, base, Init(c, base, index))
  {
    var s := Init(c, base, index);
    InitControl(c, base, index);
    forall p: nat, i: nat, q: nat, j: nat | Twin(c, p, i, q, j) ensures LinkOk(c, s, p, i, q, j) {
      InitLink(c, base, index, p, i, q, j);
    }
  }

  lemma InitControl(c: Cluster, base: Table, index: map<Slot, string>)
    ensures Control(c, Init(c, base, index))
  {
  }

  lemma InitLink(c: Cluster, base: Table, index: map<Slot, string>, p: nat, i: nat, q: nat, j: nat)
    requires WellFormed(c) && Fresh(c, base, index) && Twin(c, p, i, q, j)
    ensures LinkOk(c, Init(c, base, index), p, i, q, j)
  {
    LinksAreFine(c, p, i);
    LinksAreFine(c, q, j);
    var s := Init(c, base, index);
    assert ProgOf(s, p, i) == Ahead && ProgOf(s, q, j) == Ahead;
    assert MyEnd(c, p, i) !in s.table && MyEnd(c, q, j) !in s.table;
  }

  /** A run of the cluster from a fresh start. */
  ghost predicate FreshRun(c: Cluster, base: Table, index: map<Slot, string>, states: seq<State>, events: seq<Event>) {
    && !c.hold && WellFormed(c) && Fresh(c, base, index)
    && Run(c, states, events) && states[0] == Init(c, base, index)
  }

  /** Every step keeps the whole invariant, and only a crash makes a run fail. */
  lemma StepKeepsInv(c: Cluster, base: Table, index: map<Slot, string>, s: State, p: nat, a: Action)
    requires !c.hold && WellFormed(c) && Fresh(c, base, index) && Inv(c, base, s) && Enabled(c, s, p, a)
    ensures Inv(c, base, Step(c, s, p, a))
    ensures !a.Crash? ==> forall r: nat :: r < |c.pods| && Step(c, s, p, a).pcs[r].Failed? ==> s.pcs[r].Failed?
  {
    StepKeepsControl(c, s, p, a);
    StepKeepsLinks(c, base, index, s, p, a);
    assert Step(c, s, p, a).pcs == s.pcs[p := Step(c, s, p, a).pcs[p]];
  }

  /** Every state that any interleaving reaches is in order, and without crashes no run fails. */
  lemma EveryStateIsInOrder(c: Cluster, base: Table, index: map<Slot, string>, states: seq<State>, events: seq<Event>,
                            k: nat)
    requires FreshRun(c, base, index, states, events) && k < |states|
    ensures Inv(c, base, states[k])
    ensures NoCrash(events, k) ==> forall p: nat :: p < |c.pods| ==> !states[k].pcs[p].Failed?
  {
    InvHolds(c, base, index, states, events, k);
    if NoCrash(events, k) { NobodyFails(c, base, index, states, events, k); }
  }

  /** None of the first `k` events is a crash. */
  predicate NoCrash(events: seq<Event>, k: nat) { forall n :: 0 <= n < k && n < |events| ==> !events[n].act.Crash? }

  lemma {:induction false} InvHolds(c: Cluster, base: Table, index: map<Slot, string>, states: seq<State>,
                                    events: seq<Event>, k: nat)
    requires FreshRun(c, base, index, states, events) && k < |states|
    ensures Inv(c, base, states[k])
  {
    if k == 0 {
      RunStartsFine(c, base, index, states, events);
    } else {
      InvHolds(c, base, index, states, events, k - 1);
      RunKeepsInv(c, base, index, states, events, k);
    }
  }

  lemma RunStartsFine(c: Cluster, base: Table, index: map<Slot, string>, states: seq<State>, events: seq<Event>)
    requires FreshRun(c, base, index, states, events)
    ensures Inv(c, base, states[0])
  {
    InitIsFine(c, base, index);
  }

  lemma {:induction false} NobodyFails(c: Cluster, base: Table, index: map<Slot, string>, states: seq<State>,
                                       events: seq<Event>, k: nat)
    requires FreshRun(c, base, index, states, events) && k < |states| && NoCrash(events, k)
    ensures |states[k].pcs| == |c.pods| && forall p: nat :: p < |c.pods| ==> !states[k].pcs[p].Failed?
  {
    if k > 0 {
      NobodyFails(c, base, index, states, events, k - 1);
      InvHolds(c, base, index, states, events, k - 1);
      RunKeepsInv(c, base, index, states, events, k);
      assert !events[k - 1].act.Crash?;
      forall p: nat | p < |c.pods| ensures !states[k].pcs[p].Failed? {
        assert !states[k - 1].pcs[p].Failed?;
      }
    }
  }

  lemma RunKeepsInv(c: Cluster, base: Table, index: map<Slot, string>, states: seq<State>, events: seq<Event>, k: nat)
    requires FreshRun(c, base, index, states, events) && 0 < k < |states| && Inv(c, base, states[k - 1])
    ensures Inv(c, base, states[k]) && |states[k].pcs| == |c.pods|
    ensures !events[k - 1].act.Crash? ==>
              forall r: nat :: r < |c.pods| && states[k].pcs[r].Failed? ==> states[k - 1].pcs[r].Failed?
  {
    var s, e := states[k - 1], events[k - 1];
    assert StepAt(c, states, events, k - 1);
    StepKeepsInv(c, base, index, s, e.pod, e.act);
  }

  // ---- completeness ----

  /** The qdiscs are those that the properties and the bypass setting call for. */
  ghost predicate Shaped(tree: Qdisc.Tree, props: Qdisc.Props, bypass: bool) {
    Qdisc.Plan(props).Some? && tree == Qdisc.Wanted(props, bypass)
  }

  /** The end of `p` is configured as its link asks: the right kind of interface with the right peer and address, shaped
      by one of the two declarations of the link, and by the peer's on another node without the bypass filter. */
  ghost predicate EndUp(c: Cluster, t: Table, p: nat, i: nat, q: nat, j: nat)
    requires Twin(c, p, i, q, j)
  {
    var e, l := MyEnd(c, p, i), LinkOf(c, p, i);
    && e in t
    && if c.pods[p].space.node == c.pods[q].space.node
       then t[e].Veth? && t[e] == Veth(MyEnd(c, q, j), l.localIp, l.localMac, t[e].tree)
            && (Shaped(t[e].tree, l.props, c.bypass) || Shaped(t[e].tree, LinkOf(c, q, j).props, c.bypass))
       else t[e].Vxlan? && t[e] == Vxlan(Ids.VniFromUid(l.uid), c.pods[q].space.node, l.localIp, t[e].tree)
            && (Shaped(t[e].tree, l.props, c.bypass) || Shaped(t[e].tree, LinkOf(c, q, j).props, false))
  }

  /** Both ends of the link are up and, between nodes, both daemons have indexed theirs. */
  ghost predicate LinkUp(c: Cluster, s: State, p: nat, i: nat, q: nat, j: nat)
    requires Twin(c, p, i, q, j) && Twin(c, q, j, p, i)
  {
    && EndUp(c, s.table, p, i, q, j) && EndUp(c, s.table, q, j, p, i)
    && (c.pods[p].space.node != c.pods[q].space.node ==>
          && Lookup(s.index, Slot(c.pods[p].space.node, Ids.VniFromUid(LinkOf(c, p, i).uid))) ==
             Some(c.pods[p].space.ns)
          && Lookup(s.index, Slot(c.pods[q].space.node, Ids.VniFromUid(LinkOf(c, q, j).uid))) ==
             Some(c.pods[q].space.ns))
  }

  lemma DoneLinkState(c: Cluster, base: Table, s: State, p: nat, i: nat, q: nat, j: nat)
    requires WellFormed(c) && Inv(c, base, s) && Twin(c, p, i, q, j) && Twin(c, q, j, p, i) && s.pcs[p].Done?
             && s.pcs[q].Done?
    ensures (p, i) in s.skipped && (q, j) in s.skipped ==> MyEnd(c, p, i) !in s.table && MyEnd(c, q, j) !in s.table
    ensures !((p, i) in s.skipped && (q, j) in s.skipped) ==> LinkUp(c, s, p, i, q, j)
  {
    TwinViews(c, p, i, q, j);
    TwinViews(c, q, j, p, i);
    ShaperShapes(c, p, i);
    ShaperShapes(c, q, j);
    assert LinkOk(c, s, p, i, q, j) && LinkOk(c, s, q, j, p, i);
  }

  /** A pod's own daemon shapes with the bypass setting, the peer's on its behalf without it. */
  lemma ShaperShapes(c: Cluster, p: nat, i: nat)
    requires WellFormed(c) && InPod(c, p, i)
    ensures Shaped(TreeBy(c, Shaper(p, i, Mine)), LinkOf(c, p, i).props, c.bypass)
    ensures Shaped(TreeBy(c, Shaper(p, i, Theirs)), LinkOf(c, p, i).props, false)
  {
    LinksAreFine(c, p, i);
  }

  /** Whatever the reads saw, once both pods of a link are set up the link is up exactly when at least one of
      them saw the other alive; otherwise neither end exists. */
  lemma LinkIsUpExactlyWhenSeen(c: Cluster, base: Table, index: map<Slot, string>, states: seq<State>,
                                events: seq<Event>, k: nat,
                                p: nat, i: nat, q: nat, j: nat)
    requires FreshRun(c, base, index, states, events) && k < |states|
    requires Twin(c, p, i, q, j) && Twin(c, q, j, p, i) && |states[k].pcs| == |c.pods| && states[k].pcs[p].Done?
             && states[k].pcs[q].Done?
    ensures LinkUp(c, states[k], p, i, q, j) <==> !((p, i) in states[k].skipped && (q, j) in states[k].skipped)
    ensures !LinkUp(c, states[k], p, i, q, j) ==>
              MyEnd(c, p, i) !in states[k].table && MyEnd(c, q, j) !in states[k].table
  {
    EveryStateIsInOrder(c, base, index, states, events, k);
    DoneLinkState(c, base, states[k], p, i, q, j);
  }

  /** Bring-up completeness.  If status reads see the writes completed before them, then in every interleaving of
      the pods' runs, on one node or several, every link whose two pods are set up is up at both ends, whatever
      happens to other pods.  Interfaces that belong to no link are as they were. */
  lemma BringUpIsComplete(c: Cluster, base: Table, index: map<Slot, string>, states: seq<State>, events: seq<Event>,
                          k: nat)
    requires FreshRun(c, base, index, states, events) && !c.lag && k < |states|
    ensures |states[k].pcs| == |c.pods|
    ensures forall p: nat, i: nat, q: nat, j: nat ::
              Twin(c, p, i, q, j) && states[k].pcs[p].Done? && states[k].pcs[q].Done? ==>
              Twin(c, q, j, p, i) && LinkUp(c, states[k], p, i, q, j)
    ensures forall e :: !IsEnd(c, e) ==> SameAt(states[k].table, base, e)
  {
    EveryStateIsInOrder(c, base, index, states, events, k);
    var s := states[k];
    forall p: nat, i: nat, q: nat, j: nat | Twin(c, p, i, q, j) && s.pcs[p].Done? && s.pcs[q].Done?
      ensures Twin(c, q, j, p, i) && LinkUp(c, s, p, i, q, j)
    {
      TwinViews(c, p, i, q, j);
      DoneLinkState(c, base, s, p, i, q, j);
    }
  }
}
