/** The outcome of bring-up does not depend on the interleaving, exactly when the two declarations of every link
    shape it alike. */
module BringupConfluence {
  import opened Net
  import opened Bringup
  import opened BringupInvariant
  import opened BringupTheorems
  import opened Options
  import Qdisc

  /** Whoever shapes an end of a link, the result is the same. */
  ghost predicate AgreedOn(c: Cluster, p: nat, i: nat, q: nat, j: nat)
    requires Twin(c, p, i, q, j)
  {
    var l, m, sameNode := LinkOf(c, p, i), LinkOf(c, q, j), c.pods[p].space.node == c.pods[q].space.node;
    && Qdisc.Plan(l.props).Some? && Qdisc.Plan(m.props).Some?
    && Qdisc.Wanted(l.props, c.bypass) == Qdisc.Wanted(m.props, sameNode && c.bypass)
  }

  ghost predicate Agreed(c: Cluster) {
    forall p: nat, i: nat, q: nat, j: nat :: Twin(c, p, i, q, j) ==> AgreedOn(c, p, i, q, j)
  }

  /** Equal properties at both ends are not quite enough: with the bypass on, a shaped link between nodes ends up
      with or without the redirect-disabling filter, because the remote `Update` does not install it. */
  lemma EqualPropertiesAgreeExactlyWhen(c: Cluster, p: nat, i: nat, q: nat, j: nat)
    requires WellFormed(c) && Twin(c, p, i, q, j) && LinkOf(c, p, i).props == LinkOf(c, q, j).props
    ensures AgreedOn(c, p, i, q, j)
       <==> !c.bypass || c.pods[p].space.node == c.pods[q].space.node || Qdisc.Plan(LinkOf(c, p, i).props) == Some([])
  {
    LinksAreFine(c, p, i);
  }

  ghost predicate AllDone(c: Cluster, s: State) {
    |s.pcs| == |c.pods| && forall p: nat :: p < |s.pcs| ==> s.pcs[p].Done?
  }

  // ---- agreement makes the outcome unique ----

  lemma EndIsDetermined(c: Cluster, t: Table, u: Table, p: nat, i: nat, q: nat, j: nat)
    requires Twin(c, p, i, q, j) && EndUp(c, t, p, i, q, j) && EndUp(c, u, p, i, q, j) && AgreedOn(c, p, i, q, j)
    ensures SameAt(t, u, MyEnd(c, p, i))
  {
  }

  /** Confluence: if the declarations agree, all complete runs from the same start end with the same interfaces. */
  lemma AgreedClustersConverge(c: Cluster, base: Table, index: map<Slot, string>,
                               states: seq<State>, events: seq<Event>, states': seq<State>, events': seq<Event>)
    requires FreshRun(c, base, index, states, events) && FreshRun(c, base, index, states', events') && !c.lag
             && Agreed(c)
    requires AllDone(c, states[|events|]) && AllDone(c, states'[|events'|])
    ensures states[|events|].table == states'[|events'|].table
  {
    var t, u := states[|events|].table, states'[|events'|].table;
    BringUpIsComplete(c, base, index, states, events, |events|);
    BringUpIsComplete(c, base, index, states', events', |events'|);
    forall e
      ensures Lookup(t, e) == Lookup(u, e)
    {
      if IsEnd(c, e) {
        SameEnd(c, states[|events|], states'[|events'|], e);
      } else {
        assert SameAt(t, base, e) && SameAt(u, base, e);
      }
    }
    SameLookups(t, u);
  }

  lemma SameEnd(c: Cluster, s: State, s': State, e: End)
    requires WellFormed(c) && Agreed(c) && IsEnd(c, e)
    requires forall p: nat, i: nat, q: nat, j: nat :: Twin(c, p, i, q, j) ==>
               Twin(c, q, j, p, i) && LinkUp(c, s, p, i, q, j) && LinkUp(c, s', p, i, q, j)
    ensures Lookup(s.table, e) == Lookup(s'.table, e)
  {
    var p: nat, i: nat :| InPod(c, p, i) && MyEnd(c, p, i) == e;
    var q, j := HasTwin(c, p, i);
    EndIsDetermined(c, s.table, s'.table, p, i, q, j);
  }

  lemma SetupIsIdentity(t: Table, v: VxlanSpec, props: Qdisc.Props, bypass: bool)
    requires SameVxlan(t, v) && !v.addr.Unparsable? && Qdisc.Plan(props).Some?
             && t[v.end].tree == Qdisc.Wanted(props, bypass)
    ensures SetupVxlan(t, v, true, props, bypass) == (t, true)
  {
    assert SetTree(t, v.end, Qdisc.Wanted(props, bypass)) == t;
  }

  /** Repeating `addLink` or the remote `Update` of a link that is up changes nothing if the declarations agree:
      neither the interfaces nor the index, and there is nothing to evict. */
  lemma RepeatsChangeNothing(c: Cluster, s: State, p: nat, i: nat, q: nat, j: nat)
    requires WellFormed(c) && Twin(c, p, i, q, j) && Twin(c, q, j, p, i) && IsLink(c, p, i) && LinkUp(c, s, p, i, q, j)
    requires AgreedOn(c, p, i, q, j) && AgreedOn(c, q, j, p, i)
    ensures SameHost(c, p, i) ==>
              SetupVeth(s.table, MyVeth(c, p, i), PeerVeth(c, p, i), LinkOf(c, p, i).props, c.bypass) == (s.table, true)
    ensures !SameHost(c, p, i) ==>
              SetupVxlan(s.table, Device(c, p, i, Mine), true, LinkOf(c, p, i).props, c.bypass) == (s.table, true)
    ensures !SameHost(c, p, i) ==>
              SetupVxlan(s.table, Device(c, p, i, Theirs), true, LinkOf(c, p, i).props, false) == (s.table, true)
    ensures !SameHost(c, p, i) ==>
              forall side :: var v := Device(c, p, i, side);
                s.index[SlotOf(v) := v.end.space.ns] == s.index && EvictedTable(s, v) == s.table
  {
    TwinViews(c, p, i, q, j);
    TwinViews(c, q, j, p, i);
    LinksAreFine(c, p, i);
    if !SameHost(c, p, i) {
      SetupIsIdentity(s.table, Device(c, p, i, Mine), LinkOf(c, p, i).props, c.bypass);
      SetupIsIdentity(s.table, Device(c, p, i, Theirs), LinkOf(c, p, i).props, false);
    }
  }
}
