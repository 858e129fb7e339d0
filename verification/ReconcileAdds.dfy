/** A batch of additions, operation by operation, when a handle may be taken by an interface that a refused removal left
    behind. */
module ReconcileAdds {
  import opened Options
  import opened Diff
  import opened Reconcile
  import opened ReconcileRuns

  /** The list asks for an interface under the name. */
  predicate Makes(e: Env, want: Option<Link>) { want.Some? && TaskOf(e, want.value.id).Make? }

  /** Where an interface of another name has the handle of an added link, the new list makes nothing under that name. */
  ghost predicate Orderly(e: Env, after: seq<Link>, add: seq<Link>, t: Table) {
    forall l, m :: l in add && m in t && Clashes(e, t, l, m) ==> !Makes(e, At(after, m))
  }

  predicate Clashes(e: Env, t: Table, l: Link, m: string) {
    m != l.id.localIntf && Holds(Lookup(t, m), Needs(e, l.id))
  }

  /** The outcome of an addition on the table that the batch starts from. */
  ghost function Turn(e: Env, t: Table, links: seq<Link>, faults: nat -> Fault, j: nat): Outcome
    requires j < |links|
  {
    OutcomeIn(e, Add, t, links[j], faults(j))
  }

  /** One of the additions takes the interface under the name away. */
  ghost predicate Swept(e: Env, t: Table, links: seq<Link>, faults: nat -> Fault, name: string) {
    exists j: nat :: j < |links| && Turn(e, t, links, faults, j).clears && Clashes(e, t, links[j], name)
  }

  /** What the batch leaves under a name: the outcome of the addition that makes an interface there, if there is one. */
  ghost function CellAfter(e: Env, t: Table, links: seq<Link>, faults: nat -> Fault, name: string): Cell
    requires At(links, name).Some? ==> IndexOf(links, name) < |links|
  {
    if Makes(e, At(links, name)) then Turn(e, t, links, faults, IndexOf(links, name)).cell
    else if Swept(e, t, links, faults, name) then None
    else Lookup(t, name)
  }

  /** The links that are to be added from a table in which no clash is ambiguous. */
  ghost predicate Ready(e: Env, after: seq<Link>, links: seq<Link>, t: Table) {
    && DistinctNames(links) && DistinctHandles(e, after)
    && (forall l :: l in links ==> l in after && At(after, l.id.localIntf) == Some(l))
    && Orderly(e, after, links, t)
  }

  lemma {:induction false} IndexSpec(links: seq<Link>, name: string)
    requires At(links, name).Some?
    ensures IndexOf(links, name) < |links| && links[IndexOf(links, name)] == At(links, name).value
    ensures links[IndexOf(links, name)].id.localIntf == name
  {
    if links[|links| - 1].id.localIntf != name { IndexSpec(links[..|links| - 1], name); }
  }

  /** A turn makes an interface with the link's own handle, or keeps what was there. */
  lemma TurnHandle(e: Env, t: Table, l: Link, f: Fault, h: Option<Handle>)
    requires Makes(e, Some(l)) && Holds(OutcomeIn(e, Add, t, l, f).cell, h)
    ensures h == Needs(e, l.id) || Holds(Lookup(t, l.id.localIntf), h)
  {
  }

  /** The state of the batch before its last addition, from the state it started from. */
  ghost predicate Replayed(e: Env, t: Table, links: seq<Link>, faults: nat -> Fault, now: Table) {
    forall name ::
      (At(links, name).Some? ==> IndexOf(links, name) < |links|)
        && Lookup(now, name) == CellAfter(e, t, links, faults, name)
  }

  lemma ReadyParts(e: Env, after: seq<Link>, links: seq<Link>, l: Link, t: Table)
    requires Ready(e, after, links + [l], t)
    ensures Ready(e, after, links, t) && l in after && At(after, l.id.localIntf) == Some(l)
    ensures At(links, l.id.localIntf).None?
    ensures forall m :: m in t && Clashes(e, t, l, m) ==> !Makes(e, At(after, m))
    ensures forall k :: k in links ==>
              k in after && k.id.localIntf != l.id.localIntf && At(after, k.id.localIntf) == Some(k)
  {
    var all := links + [l];
    assert all[..|links|] == links && all[|links|] == l && l in all;
    assert forall k :: k in links ==> k in all;
    forall k | k in links ensures k.id.localIntf != l.id.localIntf {
      var j :| 0 <= j < |links| && links[j] == k;
      assert all[j] == k;
    }
    AtSpec(links, l.id.localIntf);
  }

  /** What an earlier addition made or kept has the handle of a later one only if it had it from the start. */
  lemma HandleIsNotNew(e: Env, after: seq<Link>, links: seq<Link>, t: Table, faults: nat -> Fault, now: Table, l: Link,
                       m: string)
    requires Ready(e, after, links + [l], t) && Replayed(e, t, links, faults, now)
    ensures Clashes(e, now, l, m) ==> Clashes(e, t, l, m)
    ensures Makes(e, At(links, m)) ==> !Clashes(e, now, l, m)
  {
    ReadyParts(e, after, links, l, t);
    if Makes(e, At(links, m)) {
      IndexSpec(links, m);
      var k := At(links, m).value;
      assert k in links && Makes(e, At(after, m));
      assert !Clashes(e, t, l, m);
      if Needs(e, l.id).Some? { DifferentHandles(e, after, l, k); }
      if Holds(Lookup(now, m), Needs(e, l.id)) {
        TurnHandle(e, t, k, faults(IndexOf(links, m)), Needs(e, l.id));
      }
    }
  }

  /** What had the handle of a later addition from the start still has it. */
  lemma HandleIsNotLost(e: Env, after: seq<Link>, links: seq<Link>, t: Table, faults: nat -> Fault, now: Table, l: Link,
                        m: string)
    requires Ready(e, after, links + [l], t) && Replayed(e, t, links, faults, now)
    requires Clashes(e, t, l, m)
    ensures Clashes(e, now, l, m)
  {
    ReadyParts(e, after, links, l, t);
    AtSpec(links, m);
    assert !Makes(e, At(after, m)) && !Makes(e, At(links, m));
    forall j: nat | j < |links| ensures !Clashes(e, t, links[j], m) {
      assert links[j] in links;
      DifferentHandles(e, after, l, links[j]);
    }
    assert !Swept(e, t, links, faults, m);
  }

  /** The name of a later addition that makes an interface is as it was at the start. */
  lemma NameIsUntouched(e: Env, after: seq<Link>, links: seq<Link>, t: Table, faults: nat -> Fault, now: Table, l: Link)
    requires Ready(e, after, links + [l], t) && Replayed(e, t, links, faults, now) && Makes(e, Some(l))
    ensures Lookup(now, l.id.localIntf) == Lookup(t, l.id.localIntf)
  {
    ReadyParts(e, after, links, l, t);
    forall j: nat | j < |links| ensures !Clashes(e, t, links[j], l.id.localIntf) {
      assert links[j] in links;
    }
    assert !Swept(e, t, links, faults, l.id.localIntf);
  }

  /** So an addition has the outcome that it would have had at the start. */
  lemma TurnIsTheSame(e: Env, after: seq<Link>, links: seq<Link>, t: Table, faults: nat -> Fault, now: Table, l: Link,
                      f: Fault)
    requires Ready(e, after, links + [l], t) && Replayed(e, t, links, faults, now)
    ensures Makes(e, Some(l)) ==> OutcomeIn(e, Add, now, l, f) == OutcomeIn(e, Add, t, l, f)
    ensures !Makes(e, Some(l)) ==>
              var o, p := OutcomeIn(e, Add, now, l, f), OutcomeIn(e, Add, t, l, f);
              o.ok == p.ok && !o.clears && !p.clears && o.cell == Lookup(now, l.id.localIntf)
  {
    if Makes(e, Some(l)) {
      NameIsUntouched(e, after, links, t, faults, now, l);
      SameHolders(e, after, links, t, faults, now, l);
    }
  }

  lemma SameHolders(e: Env, after: seq<Link>, links: seq<Link>, t: Table, faults: nat -> Fault, now: Table, l: Link)
    requires Ready(e, after, links + [l], t) && Replayed(e, t, links, faults, now)
    ensures HeldElsewhere(now, Needs(e, l.id), l.id.localIntf) <==> HeldElsewhere(t, Needs(e, l.id), l.id.localIntf)
  {
    forall m ensures Clashes(e, now, l, m) <==> Clashes(e, t, l, m) {
      HandleIsNotNew(e, after, links, t, faults, now, l, m);
      if Clashes(e, t, l, m) { HandleIsNotLost(e, after, links, t, faults, now, l, m); }
    }
    HeldMeansClash(e, now, l);
    HeldMeansClash(e, t, l);
  }

  lemma HeldMeansClash(e: Env, t: Table, l: Link)
    ensures HeldElsewhere(t, Needs(e, l.id), l.id.localIntf) <==> exists m :: Clashes(e, t, l, m)
  {
    if m :| Clashes(e, t, l, m) {
      assert m in t && m != l.id.localIntf && HandleOf(t[m]) == Needs(e, l.id);
    }
    if HeldElsewhere(t, Needs(e, l.id), l.id.localIntf) {
      var m :| m in t && m != l.id.localIntf && HandleOf(t[m]) == Needs(e, l.id);
      assert Clashes(e, t, l, m);
    }
  }

  lemma AppendedAt(links: seq<Link>, l: Link, name: string)
    ensures At(links + [l], name) == if l.id.localIntf == name then Some(l) else At(links, name)
    ensures IndexOf(links + [l], name) == if l.id.localIntf == name then |links| else IndexOf(links, name)
  {
    assert (links + [l])[..|links|] == links;
  }

  lemma AppendedSwept(e: Env, t: Table, links: seq<Link>, l: Link, faults: nat -> Fault, name: string)
    ensures Swept(e, t, links + [l], faults, name) <==>
            Swept(e, t, links, faults, name)
              || (OutcomeIn(e, Add, t, l, faults(|links|)).clears && Clashes(e, t, l, name))
  {
    var all := links + [l];
    if Swept(e, t, links, faults, name) {
      var j: nat :| j < |links| && Turn(e, t, links, faults, j).clears && Clashes(e, t, links[j], name);
      assert all[j] == links[j] && Turn(e, t, all, faults, j).clears;
    }
    if OutcomeIn(e, Add, t, l, faults(|links|)).clears && Clashes(e, t, l, name) {
      assert all[|links|] == l && Turn(e, t, all, faults, |links|).clears;
    }
    if Swept(e, t, all, faults, name) {
      var j: nat :| j < |all| && Turn(e, t, all, faults, j).clears && Clashes(e, t, all[j], name);
      if j < |links| { assert Turn(e, t, links, faults, j).clears && Clashes(e, t, links[j], name); }
    }
  }

  /** One more addition. */
  lemma ReplayStep(e: Env, after: seq<Link>, links: seq<Link>, t: Table, faults: nat -> Fault, now: Table, l: Link)
    requires Ready(e, after, links + [l], t) && Replayed(e, t, links, faults, now)
    ensures Replayed(e, t, links + [l], faults, Operate(e, Add, now, l, faults(|links|)).table)
    ensures Operate(e, Add, now, l, faults(|links|)).ok == Turn(e, t, links + [l], faults, |links|).ok
  {
    var all, f := links + [l], faults(|links|);
    TurnIsTheSame(e, after, links, t, faults, now, l, f);
    ReadyParts(e, after, links, l, t);
    OperateAt(e, Add, now, l, f, l.id.localIntf);
    forall name
      ensures At(all, name).Some? ==> IndexOf(all, name) < |all|
      ensures Lookup(Operate(e, Add, now, l, f).table, name) == CellAfter(e, t, all, faults, name)
    {
      AppendedAt(links, l, name);
      AppendedSwept(e, t, links, l, faults, name);
      OperateAt(e, Add, now, l, f, name);
      HandleIsNotNew(e, after, links, t, faults, now, l, name);
      assert At(links, name).Some? ==> IndexOf(links, name) < |links|;
      assert Lookup(now, name) == CellAfter(e, t, links, faults, name);
      if name != l.id.localIntf && At(links, name).Some? {
        assert Turn(e, t, all, faults, IndexOf(links, name)) == Turn(e, t, links, faults, IndexOf(links, name));
      }
    }
  }

  /** Every addition would succeed on the table that the batch starts from. */
  ghost predicate AllSucceed(e: Env, t: Table, links: seq<Link>, faults: nat -> Fault) {
    forall j: nat :: j < |links| ==> Turn(e, t, links, faults, j).ok
  }

  lemma AppendedSucceeds(e: Env, t: Table, links: seq<Link>, l: Link, faults: nat -> Fault)
    ensures AllSucceed(e, t, links + [l], faults) <==>
            AllSucceed(e, t, links, faults) && OutcomeIn(e, Add, t, l, faults(|links|)).ok
  {
    var all := links + [l];
    assert all[|links|] == l && Turn(e, t, all, faults, |links|) == OutcomeIn(e, Add, t, l, faults(|links|));
    forall j: nat | j < |links| ensures Turn(e, t, all, faults, j) == Turn(e, t, links, faults, j) {
      assert all[j] == links[j];
    }
    if AllSucceed(e, t, all, faults) {
      forall j: nat | j < |links| ensures Turn(e, t, links, faults, j).ok { assert Turn(e, t, all, faults, j).ok; }
    }
  }

  lemma AppendedBatch(e: Env, t: Table, links: seq<Link>, l: Link, faults: nat -> Fault)
    ensures var before := Batch(e, Add, t, links, faults);
            Batch(e, Add, t, links + [l], faults) ==
            if before.ok then Operate(e, Add, before.table, l, faults(|links|)) else before
  {
    assert (links + [l])[..|links|] == links;
  }

  /** A batch of additions goes through exactly when each of them would on the table that it starts from, and then
      leaves under every name what `CellAfter` says. */
  lemma {:induction false} AddsReplay(e: Env, after: seq<Link>, links: seq<Link>, t: Table, faults: nat -> Fault)
    requires Ready(e, after, links, t)
    ensures Batch(e, Add, t, links, faults).ok <==> AllSucceed(e, t, links, faults)
    ensures Batch(e, Add, t, links, faults).ok ==> Replayed(e, t, links, faults, Batch(e, Add, t, links, faults).table)
    decreases |links|, 1
  {
    if links != [] {
      var start, l := links[..|links| - 1], links[|links| - 1];
      assert links == start + [l];
      ReplayAppended(e, after, start, l, t, faults);
    }
  }

  lemma {:induction false} ReplayAppended(e: Env, after: seq<Link>, links: seq<Link>, l: Link, t: Table,
                                          faults: nat -> Fault)
    requires Ready(e, after, links + [l], t)
    ensures var p := Batch(e, Add, t, links + [l], faults);
            && (p.ok <==> AllSucceed(e, t, links + [l], faults))
            && (p.ok ==> Replayed(e, t, links + [l], faults, p.table))
    decreases |links| + 1, 0
  {
    ReadyParts(e, after, links, l, t);
    AddsReplay(e, after, links, t, faults);
    AppendedSucceeds(e, t, links, l, faults);
    AppendedBatch(e, t, links, l, faults);
    var before := Batch(e, Add, t, links, faults);
    if before.ok {
      ReplayStep(e, after, links, t, faults, before.table, l);
      assert (links + [l])[|links|] == l;
    }
  }
}
