/** What reconcile attempts, each cut short anywhere, keep on the way from the old links to the new ones. */
module ReconcileRuns {
  import opened Options
  import opened Diff
  import opened Reconcile
  import Qdisc

  // ---- links by interface name ----

  /** No two links of a list claim the same interface name. */
  predicate DistinctNames(links: seq<Link>) {
    forall i, j :: 0 <= i < j < |links| ==> links[i].id.localIntf != links[j].id.localIntf
  }

  /** The link of a list that an interface name belongs to. */
  function At(links: seq<Link>, name: string): Option<Link> {
    if links == [] then None
    else if links[|links| - 1].id.localIntf == name then Some(links[|links| - 1])
    else At(links[..|links| - 1], name)
  }

  /** Its position. */
  function IndexOf(links: seq<Link>, name: string): nat {
    if links == [] then 0
    else if links[|links| - 1].id.localIntf == name then |links| - 1
    else IndexOf(links[..|links| - 1], name)
  }

  lemma {:induction false} AtSpec(links: seq<Link>, name: string)
    ensures At(links, name).Some? ==> At(links, name).value in links && At(links, name).value.id.localIntf == name
    ensures At(links, name).None? ==> forall l :: l in links ==> l.id.localIntf != name
  {
    if links != [] {
      AtSpec(links[..|links| - 1], name);
      assert links == links[..|links| - 1] + [links[|links| - 1]];
    }
  }

  lemma AtFinds(links: seq<Link>, l: Link)
    requires DistinctNames(links) && l in links
    ensures At(links, l.id.localIntf) == Some(l)
  {
  }

  lemma DistinctNamesAreDistinct(links: seq<Link>)
    requires DistinctNames(links)
    ensures Distinct(links)
  {
  }

  lemma PartHasDistinctNames(part: seq<Link>, links: seq<Link>)
    requires Distinct(part) && DistinctNames(links) && forall l :: l in part ==> l in links
    ensures DistinctNames(part)
  {
    forall i, j | 0 <= i < j < |part| ensures part[i].id.localIntf != part[j].id.localIntf {
      AtFinds(links, part[i]);
      AtFinds(links, part[j]);
    }
  }

  lemma DeltaHasDistinctNames(before: seq<Link>, after: seq<Link>)
    requires DistinctNames(before) && DistinctNames(after)
    ensures var d := DeltaOf(before, after); DistinctNames(d.add) && DistinctNames(d.del) && DistinctNames(d.changed)
  {
    DistinctNamesAreDistinct(before);
    DistinctNamesAreDistinct(after);
    MissingSpec(after, before);
    MissingSpec(before, after);
    ChangedSpec(before, after);
    PartHasDistinctNames(Missing(after, before), after);
    PartHasDistinctNames(Missing(before, after), before);
    PartHasDistinctNames(Changed(before, after), after);
  }

  /** What becomes of an interface name, by the links that the old and the new list hold for it. */
  predicate Drops(o: Option<Link>, l: Option<Link>) { o.Some? && (l.None? || l.value.id != o.value.id) }

  predicate Changes(o: Option<Link>, l: Option<Link>) {
    o.Some? && l.Some? && o.value.id == l.value.id && o.value.properties != l.value.properties
  }

  lemma MissingAt(here: seq<Link>, there: seq<Link>, name: string)
    requires DistinctNames(here) && DistinctNames(there)
    ensures At(Missing(here, there), name) == if Drops(At(here, name), At(there, name)) then At(here, name) else None
  {
    var part := Missing(here, there);
    MissingSpec(here, there);
    AtSpec(part, name);
    AtSpec(here, name);
    AtSpec(there, name);
    if At(part, name).Some? { AtFinds(here, At(part, name).value); }
    if At(here, name).Some? && Has(there, At(here, name).value.id) {
      var m :| m in there && m.id == At(here, name).value.id;
      AtFinds(there, m);
    }
  }

  lemma ChangedAt(before: seq<Link>, after: seq<Link>, name: string)
    requires DistinctNames(before) && DistinctNames(after)
    ensures At(Changed(before, after), name) ==
            if Changes(At(before, name), At(after, name)) then At(after, name) else None
  {
    var part := Changed(before, after);
    DistinctNamesAreDistinct(after);
    ChangedSpec(before, after);
    AtSpec(part, name);
    AtSpec(before, name);
    AtSpec(after, name);
    if At(part, name).Some? {
      var l := At(part, name).value;
      AtFinds(after, l);
      var o :| o in before && o.id == l.id && o.properties != l.properties;
      AtFinds(before, o);
    }
  }

  /** No two links of a list need the same far end or the same VNI. */
  predicate DistinctHandles(e: Env, links: seq<Link>) {
    forall i, j :: 0 <= i < j < |links| && Needs(e, links[i].id).Some? ==>
        Needs(e, links[i].id) != Needs(e, links[j].id)
  }

  lemma HandleTellsLink(e: Env, links: seq<Link>, l: Link, k: Link)
    requires DistinctHandles(e, links) && l in links && k in links
    requires Needs(e, l.id).Some? && Needs(e, l.id) == Needs(e, k.id)
    ensures l == k
  {
  }

  lemma DifferentHandles(e: Env, links: seq<Link>, l: Link, k: Link)
    requires DistinctHandles(e, links) && l in links && k in links && l != k && Needs(e, l.id).Some?
    ensures Needs(e, l.id) != Needs(e, k.id)
  {
  }

  // ---- one operation, seen from one name ----

  ghost function OutcomeIn(e: Env, op: Op, t: Table, l: Link, f: Fault): Outcome {
    OutcomeOf(e, op, Lookup(t, l.id.localIntf), HeldElsewhere(t, Needs(e, l.id), l.id.localIntf), l, f)
  }

  /** An operation leaves its outcome under its own name, and takes away what has the handle if it clears it. */
  lemma OperateAt(e: Env, op: Op, t: Table, l: Link, f: Fault, name: string)
    ensures var o, p := OutcomeIn(e, op, t, l, f), Operate(e, op, t, l, f);
            && p.ok == o.ok
            && Lookup(p.table, name) ==
               if name == l.id.localIntf then o.cell
               else if o.clears && Holds(Lookup(t, name), Needs(e, l.id)) then None
               else Lookup(t, name)
  {
  }

  // ---- batches that clear nothing ----

  lemma OperateOnlyAt(e: Env, op: Op, t: Table, l: Link, f: Fault, name: string)
    requires !op.Add?
    ensures var p, o := Operate(e, op, t, l, f), OutcomeOf(e, op, Lookup(t, l.id.localIntf), false, l, f);
            && p.ok == o.ok
            && Lookup(p.table, name) == if name == l.id.localIntf then o.cell else Lookup(t, name)
  {
    OperateAt(e, op, t, l, f, name);
  }

  lemma {:induction false} BatchElsewhere(e: Env, op: Op, t: Table, links: seq<Link>, faults: nat -> Fault,
                                          name: string)
    requires !op.Add? && At(links, name).None?
    ensures Lookup(Batch(e, op, t, links, faults).table, name) == Lookup(t, name)
    decreases |links|
  {
    if links != [] {
      var n := |links| - 1;
      BatchElsewhere(e, op, t, links[..n], faults, name);
      OperateOnlyAt(e, op, Batch(e, op, t, links[..n], faults).table, links[n], faults(n), name);
    }
  }

  /** The operation's effect on its name is there, and it succeeded if the batch did; or the batch never got to it. */
  ghost predicate DoneOrNotYet(p: Progress, before: Cell, after: Cell, o: Outcome) {
    (after == o.cell && (p.ok ==> o.ok)) || (!p.ok && after == before)
  }

  lemma {:induction false} BatchHere(e: Env, op: Op, t: Table, links: seq<Link>, faults: nat -> Fault, name: string)
    requires !op.Add? && DistinctNames(links) && At(links, name).Some?
    ensures IndexOf(links, name) < |links|
    ensures var p := Batch(e, op, t, links, faults);
            DoneOrNotYet(p, Lookup(t, name), Lookup(p.table, name),
                         OutcomeOf(e, op, Lookup(t, name), false, At(links, name).value, faults(IndexOf(links, name))))
    decreases |links|
  {
    var n := |links| - 1;
    var before := Batch(e, op, t, links[..n], faults);
    if links[n].id.localIntf == name {
      AtSpec(links[..n], name);
      BatchElsewhere(e, op, t, links[..n], faults, name);
    } else {
      BatchHere(e, op, t, links[..n], faults, name);
    }
    if before.ok { OperateOnlyAt(e, op, before.table, links[n], faults(n), name); }
  }

  /** What a batch of deletions or updates did to one name: nothing if no link of it has the name; else that link's
      operation, or nothing yet. */
  lemma BatchAt(e: Env, op: Op, t: Table, links: seq<Link>, faults: nat -> Fault, name: string) returns (i: nat)
    requires !op.Add? && DistinctNames(links)
    ensures i == IndexOf(links, name)
    ensures At(links, name).None? ==> Lookup(Batch(e, op, t, links, faults).table, name) == Lookup(t, name)
    ensures At(links, name).Some? ==>
              var p := Batch(e, op, t, links, faults);
              var o := OutcomeOf(e, op, Lookup(t, name), false, At(links, name).value, faults(i));
              i < |links| && DoneOrNotYet(p, Lookup(t, name), Lookup(p.table, name), o)
  {
    i := IndexOf(links, name);
    if At(links, name).None? {
      BatchElsewhere(e, op, t, links, faults, name);
    } else {
      BatchHere(e, op, t, links, faults, name);
    }
  }

  // ---- what the spec describes, and what an attempt may find ----

  /** The cell is as the link describes it; a link whose peer is not up describes no interface. */
  ghost predicate Describes(e: Env, want: Option<Link>, cell: Cell) {
    if want.Some? && TaskOf(e, want.value.id).Make? then
      && TreeFor(e, want.value).Some?
      && cell == Some(Entry(want.value.id, TaskOf(e, want.value.id).kind, TreeFor(e, want.value).value))
    else cell.None?
  }

  /** The pod's interfaces are exactly those that the links describe. */
  ghost predicate Converged(e: Env, links: seq<Link>, t: Table) {
    forall name :: Describes(e, At(links, name), Lookup(t, name))
  }

  /** The interface was made for the link, however it is shaped. */
  predicate MadeFor(e: Env, l: Link, cell: Cell) {
    TaskOf(e, l.id).Make? && cell.Some? && cell.value.id == l.id && cell.value.kind == TaskOf(e, l.id).kind
  }

  /** What may be found under a name on the way from the old to the new list. */
  ghost predicate Allowed(e: Env, o: Option<Link>, l: Option<Link>, cell: Cell) {
    if o.None? && l.None? then cell.None?
    else if o.None? then cell.None? || MadeFor(e, l.value, cell)
    else if l.None? || o.value.id != l.value.id then true
    else if o.value.properties == l.value.properties then Describes(e, l, cell)
    else if TaskOf(e, l.value.id).Make? then MadeFor(e, l.value, cell)
    else cell.None?
  }

  ghost predicate Between(e: Env, before: seq<Link>, after: seq<Link>, t: Table) {
    forall name :: Allowed(e, At(before, name), At(after, name), Lookup(t, name))
  }

  lemma ConvergedIsBetween(e: Env, before: seq<Link>, after: seq<Link>, t: Table)
    requires Converged(e, before, t)
    ensures Between(e, before, after, t)
  {
  }

  lemma OutcomeIsAllowed(e: Env, op: Op, o: Option<Link>, l: Option<Link>, cell: Cell, held: bool, f: Fault)
    requires Allowed(e, o, l, cell)
    ensures op == Del && Drops(o, l) ==> Allowed(e, o, l, OutcomeOf(e, op, cell, held, o.value, f).cell)
    ensures op == Add && Drops(l, o) ==> Allowed(e, o, l, OutcomeOf(e, op, cell, held, l.value, f).cell)
    ensures op == Update && Changes(o, l) ==> Allowed(e, o, l, OutcomeOf(e, op, cell, held, l.value, f).cell)
  {
  }

  /** An interface that the new list keeps, or has made, has the handle of its own link only. */
  lemma SettledHandle(e: Env, before: seq<Link>, after: seq<Link>, name: string, cell: Cell, l: Link)
    requires DistinctHandles(e, after) && l in after && l.id.localIntf != name && Holds(cell, Needs(e, l.id))
    requires Allowed(e, At(before, name), At(after, name), cell)
    ensures Drops(At(before, name), At(after, name))
  {
    AtSpec(after, name);
    if !Drops(At(before, name), At(after, name)) {
      HandleTellsLink(e, after, l, At(after, name).value);
    }
  }

  /** The links that an operation is applied to. */
  function LinksFor(op: Op, d: Delta): seq<Link> {
    match op case Del => d.del case Add => d.add case Update => d.changed
  }

  lemma LinksForAt(op: Op, before: seq<Link>, after: seq<Link>, name: string)
    requires DistinctNames(before) && DistinctNames(after)
    ensures DistinctNames(LinksFor(op, DeltaOf(before, after)))
    ensures At(LinksFor(op, DeltaOf(before, after)), name) ==
            match op
            case Del => if Drops(At(before, name), At(after, name)) then At(before, name) else None
            case Add => if Drops(At(after, name), At(before, name)) then At(after, name) else None
            case Update => if Changes(At(before, name), At(after, name)) then At(after, name) else None
  {
    DeltaHasDistinctNames(before, after);
    MissingAt(after, before, name);
    MissingAt(before, after, name);
    ChangedAt(before, after, name);
  }

  lemma LinkForAt(op: Op, before: seq<Link>, after: seq<Link>, l: Link)
    requires DistinctNames(before) && DistinctNames(after) && l in LinksFor(op, DeltaOf(before, after))
    ensures At(LinksFor(op, DeltaOf(before, after)), l.id.localIntf) == Some(l)
    ensures !op.Del? ==> At(after, l.id.localIntf) == Some(l) && l in after
    ensures op.Del? ==> At(before, l.id.localIntf) == Some(l)
  {
    LinksForAt(op, before, after, l.id.localIntf);
    AtFinds(LinksFor(op, DeltaOf(before, after)), l);
    AtSpec(after, l.id.localIntf);
  }

  /** Whatever befalls an operation, it stays on the way from the old to the new list. */
  lemma OperateStaysBetween(e: Env, op: Op, t: Table, before: seq<Link>, after: seq<Link>, l: Link, f: Fault)
    requires DistinctNames(before) && DistinctNames(after) && DistinctHandles(e, after)
    requires Between(e, before, after, t) && l in LinksFor(op, DeltaOf(before, after))
    ensures Between(e, before, after, Operate(e, op, t, l, f).table)
  {
    LinkForAt(op, before, after, l);
    var held := HeldElsewhere(t, Needs(e, l.id), l.id.localIntf);
    forall name ensures Allowed(e, At(before, name), At(after, name), Lookup(Operate(e, op, t, l, f).table, name)) {
      OperateAt(e, op, t, l, f, name);
      assert Allowed(e, At(before, name), At(after, name), Lookup(t, name));
      if name == l.id.localIntf {
        LinksForAt(op, before, after, name);
        OutcomeIsAllowed(e, op, At(before, name), At(after, name), Lookup(t, name), held, f);
      } else if op.Add? && Holds(Lookup(t, name), Needs(e, l.id)) {
        SettledHandle(e, before, after, name, Lookup(t, name), l);
      }
    }
  }

  lemma {:induction false} BatchStaysBetween(e: Env, op: Op, t: Table, before: seq<Link>, after: seq<Link>,
                                             links: seq<Link>, faults: nat -> Fault)
    requires DistinctNames(before) && DistinctNames(after) && DistinctHandles(e, after)
    requires Between(e, before, after, t) && forall l :: l in links ==> l in LinksFor(op, DeltaOf(before, after))
    ensures Between(e, before, after, Batch(e, op, t, links, faults).table)
    decreases |links|
  {
    if links != [] {
      var n := |links| - 1;
      BatchStaysBetween(e, op, t, before, after, links[..n], faults);
      OperateStaysBetween(e, op, Batch(e, op, t, links[..n], faults).table, before, after, links[n], faults(n));
    }
  }

  /** Whatever befalls the three batches, they stay on the way from the old to the new list. */
  lemma BatchesStayBetween(e: Env, t: Table, before: seq<Link>, after: seq<Link>, f: Fate)
    requires DistinctNames(before) && DistinctNames(after) && DistinctHandles(e, after)
    requires Between(e, before, after, t)
    ensures Between(e, before, after, Batches(e, t, DeltaOf(before, after), f).table)
  {
    var d := DeltaOf(before, after);
    var one := Batch(e, Del, t, d.del, f.del);
    var two := Batch(e, Add, one.table, d.add, f.add);
    BatchStaysBetween(e, Del, t, before, after, d.del, f.del);
    BatchStaysBetween(e, Add, one.table, before, after, d.add, f.add);
    BatchStaysBetween(e, Update, two.table, before, after, d.changed, f.update);
  }

  lemma AddedAt(before: seq<Link>, after: seq<Link>, l: Link)
    requires DistinctNames(before) && DistinctNames(after) && l in DeltaOf(before, after).add
    ensures At(after, l.id.localIntf) == Some(l) && Drops(Some(l), At(before, l.id.localIntf))
  {
    DeltaHasDistinctNames(before, after);
    MissingSpec(after, before);
    AtFinds(after, l);
    AtFinds(DeltaOf(before, after).add, l);
    MissingAt(after, before, l.id.localIntf);
  }
}
