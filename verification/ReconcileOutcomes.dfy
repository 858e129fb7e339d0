/** When a reconcile attempt completes, and what it leaves when it does. */
module ReconcileOutcomes {
  import opened Options
  import opened Diff
  import opened Reconcile
  import opened ReconcileRuns
  import opened ReconcileAdds
  import Qdisc

  // ---- after the deletions ----

  /** The removal of what is under the name is called for and not refused. */
  ghost predicate Removed(before: seq<Link>, after: seq<Link>, f: Fate, name: string) {
    && Drops(At(before, name), At(after, name))
    && !f.del(IndexOf(Missing(before, after), name)).Ignored?
  }

  /** What completed deletions leave. */
  ghost function Leftover(t: Table, before: seq<Link>, after: seq<Link>, f: Fate): Table {
    map name | name in t && !Removed(before, after, f, name) :: t[name]
  }

  lemma DeletionsLeave(e: Env, t: Table, before: seq<Link>, after: seq<Link>, f: Fate)
    requires DistinctNames(before) && DistinctNames(after)
    requires Batch(e, Del, t, Missing(before, after), f.del).ok
    ensures Batch(e, Del, t, Missing(before, after), f.del).table == Leftover(t, before, after, f)
  {
    var one := Batch(e, Del, t, Missing(before, after), f.del).table;
    forall name ensures Lookup(one, name) == Lookup(Leftover(t, before, after, f), name) {
      DeletionLeaves(e, t, before, after, f, name);
    }
    SameLookups(one, Leftover(t, before, after, f));
  }

  lemma DeletionLeaves(e: Env, t: Table, before: seq<Link>, after: seq<Link>, f: Fate, name: string)
    requires DistinctNames(before) && DistinctNames(after)
    requires Batch(e, Del, t, Missing(before, after), f.del).ok
    ensures Lookup(Batch(e, Del, t, Missing(before, after), f.del).table, name) ==
            if Removed(before, after, f, name) then None else Lookup(t, name)
  {
    LinksForAt(Del, before, after, name);
    var i := BatchAt(e, Del, t, Missing(before, after), f.del, name);
  }

  // ---- what a completed attempt gets wrong ----

  /** A shaping error was ignored, and the tree it left is not the one asked for. */
  ghost predicate Misshaped(e: Env, l: Link, f: Fault) { f.Ignored? && TreeFor(e, l) != Some(f.tree) }

  /** What the addition of a link gets wrong.  A macvlan is never shaped; a veth is not made if both its names exist; a
      VXLAN that exists keeps its address. */
  ghost predicate SpoiledAdd(e: Env, l: Link, cell: Cell, held: bool, f: Fault) {
    match TaskOf(e, l.id)
    case Make(Macvlan(_)) => TreeFor(e, l) != Some(Qdisc.EMPTY)
    case Make(Veth) =>
      if cell.Some? && (held || Holds(cell, Needs(e, l.id))) then !Describes(e, Some(l), cell) else Misshaped(e, l, f)
    case Make(kind) => (cell.Some? && cell.value.kind == kind && cell.value.id != l.id) || Misshaped(e, l, f)
    case _ => false
  }

  /** An added link that is made anew needs the handle of what was left under the name. */
  ghost predicate TakenOver(e: Env, left: Table, add: seq<Link>, name: string) {
    exists l :: l in add && Clashes(e, left, l, name) && Anew(e, left, l)
  }

  predicate Anew(e: Env, left: Table, l: Link) {
    match TaskOf(e, l.id)
    case Make(Veth) => l.id.localIntf !in left
    case Make(Vxlan(vni, vtep)) => !(l.id.localIntf in left && left[l.id.localIntf].kind == Vxlan(vni, vtep))
    case _ => false
  }

  /** What a completed attempt gets wrong about a name, from what the deletions left and the faults of the other
      operations.  Where no interface is asked for, what was left stays unless it is taken over. */
  ghost predicate SpoiledAt(e: Env, before: seq<Link>, after: seq<Link>, f: Fate, left: Table, name: string) {
    var d, o, l, cell := DeltaOf(before, after), At(before, name), At(after, name), Lookup(left, name);
    if Drops(l, o) && Makes(e, l) then
      SpoiledAdd(e, l.value, cell, HeldElsewhere(left, Needs(e, l.value.id), name), f.add(IndexOf(d.add, name)))
    else if Changes(o, l) then Makes(e, l) && Misshaped(e, l.value, f.update(IndexOf(d.changed, name)))
    else (Drops(o, l) || Drops(l, o)) && cell.Some? && !TakenOver(e, left, d.add, name)
  }

  lemma AddedCell(e: Env, l: Link, cell: Cell, held: bool, f: Fault)
    requires Makes(e, Some(l)) && AddOutcome(e, cell, held, l, f).ok
    ensures Describes(e, Some(l), AddOutcome(e, cell, held, l, f).cell) <==> !SpoiledAdd(e, l, cell, held, f)
  {
  }

  lemma UpdatedCell(e: Env, l: Link, cell: Cell, f: Fault)
    requires UpdateOutcome(e, cell, l, f).ok && if Makes(e, Some(l)) then MadeFor(e, l, cell) else cell.None?
    ensures Describes(e, Some(l), UpdateOutcome(e, cell, l, f).cell) <==> !(Makes(e, Some(l)) && Misshaped(e, l, f))
  {
  }

  lemma ClearsWhenAnew(e: Env, left: Table, l: Link, f: Fault, name: string)
    requires OutcomeIn(e, Add, left, l, f).ok && Clashes(e, left, l, name)
    ensures OutcomeIn(e, Add, left, l, f).clears <==> Anew(e, left, l)
  {
    assert name in left && HandleOf(left[name]) == Needs(e, l.id);
    assert HeldElsewhere(left, Needs(e, l.id), l.id.localIntf);
  }

  lemma SweptIsTakenOver(e: Env, left: Table, add: seq<Link>, faults: nat -> Fault, name: string)
    requires AllSucceed(e, left, add, faults)
    ensures Swept(e, left, add, faults, name) <==> TakenOver(e, left, add, name)
  {
    forall j: nat | j < |add| && Clashes(e, left, add[j], name)
      ensures Turn(e, left, add, faults, j).clears <==> Anew(e, left, add[j])
    {
      assert Turn(e, left, add, faults, j).ok;
      ClearsWhenAnew(e, left, add[j], faults(j), name);
    }
    if TakenOver(e, left, add, name) {
      var l :| l in add && Clashes(e, left, l, name) && Anew(e, left, l);
      var j: nat :| j < |add| && add[j] == l;
      assert Turn(e, left, add, faults, j).clears;
    }
  }

  /** The additions start from what the deletions left. */
  lemma AddsAreReady(e: Env, before: seq<Link>, after: seq<Link>, left: Table)
    requires DistinctNames(before) && DistinctNames(after) && DistinctHandles(e, after)
    requires Orderly(e, after, Missing(after, before), left)
    ensures Ready(e, after, Missing(after, before), left)
  {
    DeltaHasDistinctNames(before, after);
    forall l | l in Missing(after, before) ensures l in after && At(after, l.id.localIntf) == Some(l) {
      LinkForAt(Add, before, after, l);
    }
  }

  /** What the additions leave under a name. */
  lemma AfterAdditions(e: Env, before: seq<Link>, after: seq<Link>, left: Table, faults: nat -> Fault, name: string)
    requires DistinctNames(before) && DistinctNames(after) && DistinctHandles(e, after)
    requires Orderly(e, after, Missing(after, before), left) && Batch(e, Add, left, Missing(after, before), faults).ok
    ensures var add, o, l := Missing(after, before), At(before, name), At(after, name);
            var cell, now := Lookup(left, name), Lookup(Batch(e, Add, left, add, faults).table, name);
            if Drops(l, o) && Makes(e, l) then
              var turn := AddOutcome(e, cell, HeldElsewhere(left, Needs(e, l.value.id), name), l.value,
                                     faults(IndexOf(add, name)));
              now == turn.cell && turn.ok
            else now == if TakenOver(e, left, add, name) then None else cell
  {
    var add := Missing(after, before);
    AddsAreReady(e, before, after, left);
    AddsReplay(e, after, add, left, faults);
    LinksForAt(Add, before, after, name);
    SweptIsTakenOver(e, left, add, faults, name);
    var now := Batch(e, Add, left, add, faults).table;
    assert Lookup(now, name) == CellAfter(e, left, add, faults, name);
    if At(add, name).Some? {
      IndexSpec(add, name);
      assert Turn(e, left, add, faults, IndexOf(add, name)).ok;
    }
  }

  /** Nothing is taken over under a name whose interface the new list keeps. */
  lemma SettledIsNotTakenOver(e: Env, before: seq<Link>, after: seq<Link>, left: Table, name: string)
    requires DistinctNames(before) && DistinctNames(after) && DistinctHandles(e, after)
    requires Allowed(e, At(before, name), At(after, name), Lookup(left, name))
    requires !Drops(At(before, name), At(after, name))
    ensures !TakenOver(e, left, Missing(after, before), name)
  {
    forall l | l in Missing(after, before) ensures !Clashes(e, left, l, name) {
      LinkForAt(Add, before, after, l);
      if Clashes(e, left, l, name) { SettledHandle(e, before, after, name, Lookup(left, name), l); }
    }
  }

  lemma CompletedAt(e: Env, t: Table, before: seq<Link>, after: seq<Link>, f: Fate, name: string)
    requires DistinctNames(before) && DistinctNames(after) && DistinctHandles(e, after)
    requires Between(e, before, after, t) && Batches(e, t, DeltaOf(before, after), f).ok
    requires Orderly(e, after, Missing(after, before), Leftover(t, before, after, f))
    ensures Describes(e, At(after, name), Lookup(Batches(e, t, DeltaOf(before, after), f).table, name)) <==>
            !SpoiledAt(e, before, after, f, Leftover(t, before, after, f), name)
  {
    var d, left := DeltaOf(before, after), Leftover(t, before, after, f);
    var o, l, cell := At(before, name), At(after, name), Lookup(left, name);
    DeletionsLeave(e, t, before, after, f);
    BatchStaysBetween(e, Del, t, before, after, d.del, f.del);
    assert Allowed(e, o, l, cell);
    AfterAdditions(e, before, after, left, f.add, name);
    var two := Batch(e, Add, left, d.add, f.add);
    LinksForAt(Update, before, after, name);
    var i := BatchAt(e, Update, two.table, d.changed, f.update, name);
    if Drops(l, o) && Makes(e, l) {
      AddedCell(e, l.value, cell, HeldElsewhere(left, Needs(e, l.value.id), name), f.add(IndexOf(d.add, name)));
    } else if !Drops(o, l) {
      SettledIsNotTakenOver(e, before, after, left, name);
      if Changes(o, l) { UpdatedCell(e, l.value, cell, f.update(IndexOf(d.changed, name))); }
    }
  }

  /** A completed attempt, whatever errors it ignored, converges exactly when it spoils no name. */
  lemma CompletedExactlyWhen(e: Env, t: Table, before: seq<Link>, after: seq<Link>, f: Fate)
    requires DistinctNames(before) && DistinctNames(after) && DistinctHandles(e, after)
    requires Between(e, before, after, t) && Batches(e, t, DeltaOf(before, after), f).ok
    requires Orderly(e, after, Missing(after, before), Leftover(t, before, after, f))
    ensures Converged(e, after, Batches(e, t, DeltaOf(before, after), f).table) <==>
            forall name :: !SpoiledAt(e, before, after, f, Leftover(t, before, after, f), name)
  {
    var r, left := Batches(e, t, DeltaOf(before, after), f).table, Leftover(t, before, after, f);
    forall name
      ensures Describes(e, At(after, name), Lookup(r, name)) <==> !SpoiledAt(e, before, after, f, left, name)
    {
      CompletedAt(e, t, before, after, f, name);
    }
    if Converged(e, after, r) {
      forall name ensures !SpoiledAt(e, before, after, f, left, name) {
        assert Describes(e, At(after, name), Lookup(r, name));
      }
    }
  }

  /** What a refused removal leaves under a name that the new list does not use spoils it, unless it is taken over. */
  lemma StaysBehind(e: Env, t: Table, before: seq<Link>, after: seq<Link>, f: Fate, name: string)
    requires At(before, name).Some? && At(after, name).None? && name in t
    requires f.del(IndexOf(Missing(before, after), name)).Ignored?
    requires forall l :: l in Missing(after, before) ==> !Holds(Lookup(t, name), Needs(e, l.id))
    ensures SpoiledAt(e, before, after, f, Leftover(t, before, after, f), name)
  {
    var left := Leftover(t, before, after, f);
    assert Lookup(left, name) == Lookup(t, name);
    forall l | l in Missing(after, before) ensures !Clashes(e, left, l, name) {}
  }

  /** So does a veth with the same two names as an added one, if it was made for another link. */
  lemma IsNotRemade(e: Env, t: Table, before: seq<Link>, after: seq<Link>, f: Fate, l: Link)
    requires DistinctNames(before) && DistinctNames(after) && l in Missing(after, before)
    requires TaskOf(e, l.id) == Make(Veth) && Holds(Lookup(t, l.id.localIntf), Needs(e, l.id))
    requires t[l.id.localIntf].id != l.id
    requires f.del(IndexOf(Missing(before, after), l.id.localIntf)).Ignored?
    ensures SpoiledAt(e, before, after, f, Leftover(t, before, after, f), l.id.localIntf)
  {
    AddedAt(before, after, l);
    assert Lookup(Leftover(t, before, after, f), l.id.localIntf) == Lookup(t, l.id.localIntf);
  }

  /** Where a left interface has the handle of an added link and the new list makes one under its name, the outcome can
      depend on the order of the additions: here a macvlan is to be made under the name. */
  lemma OrderOfAdditionsMatters(e: Env, t: Table, l: Link, k: Link, faults: nat -> Fault)
    requires TaskOf(e, l.id) == Make(Veth) && TreeFor(e, l).Some? && l.id.localIntf !in t
    requires TaskOf(e, k.id).Make? && TaskOf(e, k.id).kind.Macvlan? && Clashes(e, t, l, k.id.localIntf)
    requires faults(0) == faults(1) == Fine
    ensures Batch(e, Add, t, [l, k], faults).ok && !Batch(e, Add, t, [k, l], faults).ok
  {
    var one := Operate(e, Add, t, l, Fine);
    OperateAt(e, Add, t, l, Fine, k.id.localIntf);
    OperateAt(e, Add, one.table, k, Fine, k.id.localIntf);
    OperateAt(e, Add, t, k, Fine, k.id.localIntf);
    BatchOfTwo(e, t, l, k, faults);
    BatchOfTwo(e, t, k, l, faults);
  }

  lemma BatchOfTwo(e: Env, t: Table, a: Link, b: Link, faults: nat -> Fault)
    ensures var one := Operate(e, Add, t, a, faults(0));
            Batch(e, Add, t, [a, b], faults) == if one.ok then Operate(e, Add, one.table, b, faults(1)) else one
  {
    assert [a, b][..1] == [a] && [a][..0] == [];
    assert Batch(e, Add, t, [], faults) == Progress(t, true);
    assert Batch(e, Add, t, [a], faults) == Operate(e, Add, t, a, faults(0));
  }

  // ---- when no error is ignored ----

  /** No error of the attempt goes unnoticed. */
  ghost predicate NothingIgnored(f: Fate) {
    forall i: nat :: !f.del(i).Ignored? && !f.add(i).Ignored? && !f.update(i).Ignored?
  }

  /** An added link that a completing attempt leaves without its shaping: a macvlan that asks for any, or the veth of a
      new name that is already there and not shaped as asked. */
  ghost predicate Neglected(e: Env, before: seq<Link>, t: Table, l: Link) {
    NeglectedCell(e, At(before, l.id.localIntf), l, Lookup(t, l.id.localIntf))
  }

  ghost predicate NeglectedCell(e: Env, o: Option<Link>, l: Link, cell: Cell) {
    match TaskOf(e, l.id)
    case Make(Macvlan(_)) => TreeFor(e, l) != Some(Qdisc.EMPTY)
    case Make(Veth) => o.None? && cell.Some? && TreeFor(e, l) != Some(cell.value.tree)
    case _ => false
  }

  /** Without refused removals no handle is taken by an interface of another name. */
  lemma NothingClashes(e: Env, t: Table, before: seq<Link>, after: seq<Link>, f: Fate, l: Link, name: string)
    requires DistinctNames(before) && DistinctNames(after) && DistinctHandles(e, after)
    requires Between(e, before, after, t) && l in Missing(after, before) && forall i: nat :: !f.del(i).Ignored?
    ensures !Clashes(e, Leftover(t, before, after, f), l, name)
  {
    var left := Leftover(t, before, after, f);
    LinkForAt(Add, before, after, l);
    assert Allowed(e, At(before, name), At(after, name), Lookup(t, name));
    if Clashes(e, left, l, name) {
      SettledHandle(e, before, after, name, Lookup(t, name), l);
    }
  }

  lemma NothingIsHeld(e: Env, t: Table, before: seq<Link>, after: seq<Link>, f: Fate, l: Link)
    requires DistinctNames(before) && DistinctNames(after) && DistinctHandles(e, after)
    requires Between(e, before, after, t) && l in Missing(after, before) && forall i: nat :: !f.del(i).Ignored?
    ensures !HeldElsewhere(Leftover(t, before, after, f), Needs(e, l.id), l.id.localIntf)
  {
    var left := Leftover(t, before, after, f);
    forall m | m in left && m != l.id.localIntf && Needs(e, l.id).Some? ensures HandleOf(left[m]) != Needs(e, l.id) {
      NothingClashes(e, t, before, after, f, l, m);
    }
  }

  lemma NothingClashesAtAll(e: Env, t: Table, before: seq<Link>, after: seq<Link>, f: Fate)
    requires DistinctNames(before) && DistinctNames(after) && DistinctHandles(e, after)
    requires Between(e, before, after, t) && forall i: nat :: !f.del(i).Ignored?
    ensures Orderly(e, after, Missing(after, before), Leftover(t, before, after, f))
  {
    var left := Leftover(t, before, after, f);
    forall l, m | l in Missing(after, before) && m in left ensures !Clashes(e, left, l, m) {
      NothingClashes(e, t, before, after, f, l, m);
    }
  }

  /** Then only neglected links spoil anything. */
  lemma SpoiledIsNeglected(e: Env, t: Table, before: seq<Link>, after: seq<Link>, f: Fate, name: string)
    requires DistinctNames(before) && DistinctNames(after) && DistinctHandles(e, after)
    requires NothingIgnored(f) && Between(e, before, after, t)
    ensures SpoiledAt(e, before, after, f, Leftover(t, before, after, f), name) <==>
            && Drops(At(after, name), At(before, name))
            && NeglectedCell(e, At(before, name), At(after, name).value, Lookup(t, name))
  {
    var o, l := At(before, name), At(after, name);
    assert Allowed(e, o, l, Lookup(t, name));
    if Drops(l, o) {
      MissingAt(after, before, name);
      AtSpec(Missing(after, before), name);
      NothingIsHeld(e, t, before, after, f, l.value);
    }
  }

  /** A completed attempt that ignores no error converges exactly when it neglects no added link. */
  lemma CompletedCleanly(e: Env, t: Table, before: seq<Link>, after: seq<Link>, f: Fate)
    requires DistinctNames(before) && DistinctNames(after) && DistinctHandles(e, after)
    requires NothingIgnored(f) && Between(e, before, after, t) && Batches(e, t, DeltaOf(before, after), f).ok
    ensures Converged(e, after, Batches(e, t, DeltaOf(before, after), f).table) <==>
            forall l :: l in DeltaOf(before, after).add ==> !Neglected(e, before, t, l)
  {
    var left := Leftover(t, before, after, f);
    NothingClashesAtAll(e, t, before, after, f);
    CompletedExactlyWhen(e, t, before, after, f);
    forall name
      ensures SpoiledAt(e, before, after, f, left, name) <==>
              && Drops(At(after, name), At(before, name))
              && NeglectedCell(e, At(before, name), At(after, name).value, Lookup(t, name))
    {
      SpoiledIsNeglected(e, t, before, after, f, name);
    }
    forall l | l in DeltaOf(before, after).add
      ensures Neglected(e, before, t, l) <==> SpoiledAt(e, before, after, f, left, l.id.localIntf)
    {
      AddedAt(before, after, l);
    }
    forall name | SpoiledAt(e, before, after, f, left, name)
      ensures exists l :: l in DeltaOf(before, after).add && Neglected(e, before, t, l)
    {
      MissingAt(after, before, name);
      AtSpec(DeltaOf(before, after).add, name);
      assert At(after, name).value in DeltaOf(before, after).add;
    }
  }

  // ---- when an attempt completes ----

  /** The operation on a link of the batch reports success on the table that the batch starts from. */
  ghost predicate Succeeds(e: Env, op: Op, t: Table, l: Link, f: Fault) { OutcomeIn(e, op, t, l, f).ok }

  /** A batch of deletions or updates goes through exactly when each of its operations would on the table that it starts
      from. */
  lemma {:induction false} BatchGoesThroughExactlyWhen(e: Env, op: Op, t: Table, links: seq<Link>,
                                                       faults: nat -> Fault)
    requires !op.Add? && DistinctNames(links)
    ensures Batch(e, op, t, links, faults).ok <==>
            forall i :: 0 <= i < |links| ==> Succeeds(e, op, t, links[i], faults(i))
    decreases |links|
  {
    if links != [] {
      var n := |links| - 1;
      BatchGoesThroughExactlyWhen(e, op, t, links[..n], faults);
      AtSpec(links[..n], links[n].id.localIntf);
      BatchElsewhere(e, op, t, links[..n], faults, links[n].id.localIntf);
    }
  }

  /** Nothing fails on its own account. */
  ghost predicate Clean(f: Fate) {
    && (forall i: nat :: f.del(i).Fine? && f.add(i).Fine? && f.update(i).Fine?)
    && f.written && f.edit.None?
  }

  /** An added link that `addLink` accepts: its peer exists, its macvlan's name is free, and if it has to be shaped its
      properties parse. */
  ghost predicate Addable(e: Env, before: seq<Link>, t: Table, l: Link) {
    AddableCell(e, l, if At(before, l.id.localIntf).Some? then None else Lookup(t, l.id.localIntf))
  }

  ghost predicate AddableCell(e: Env, l: Link, cell: Cell) {
    match TaskOf(e, l.id)
    case NoPeer => false
    case Wait => true
    case Make(Macvlan(_)) => cell.None?
    case Make(Veth) => cell.Some? || TreeFor(e, l).Some?
    case Make(_) => TreeFor(e, l).Some?
  }

  /** A changed link that `UpdateLinks` accepts: its properties parse, and if its peer is not up they ask for
      nothing. */
  ghost predicate Updatable(e: Env, l: Link) {
    if TaskOf(e, l.id).Make? then TreeFor(e, l).Some? else Qdisc.Plan(PropsOf(e, l)) == Some([])
  }

  lemma AddSucceedsExactlyWhen(e: Env, t: Table, before: seq<Link>, after: seq<Link>, f: Fate, l: Link)
    requires DistinctNames(before) && DistinctNames(after) && DistinctHandles(e, after)
    requires Clean(f) && Between(e, before, after, t) && l in Missing(after, before)
    ensures Succeeds(e, Add, Leftover(t, before, after, f), l, Fine) <==> Addable(e, before, t, l)
  {
    var name := l.id.localIntf;
    AddedAt(before, after, l);
    NothingIsHeld(e, t, before, after, f, l);
    assert Allowed(e, At(before, name), At(after, name), Lookup(t, name));
    assert f.del(IndexOf(Missing(before, after), name)).Fine?;
  }

  lemma UpdateSucceedsExactlyWhen(e: Env, t: Table, before: seq<Link>, after: seq<Link>, l: Link)
    requires DistinctNames(before) && DistinctNames(after) && Between(e, before, after, t)
    requires l in Changed(before, after)
    ensures Succeeds(e, Update, t, l, Fine) <==> Updatable(e, l)
  {
    LinkForAt(Update, before, after, l);
    LinksForAt(Update, before, after, l.id.localIntf);
    assert Allowed(e, At(before, l.id.localIntf), At(after, l.id.localIntf), Lookup(t, l.id.localIntf));
  }

  lemma FineBatch(e: Env, op: Op, t: Table, links: seq<Link>, faults: nat -> Fault)
    requires !op.Add? && DistinctNames(links) && forall i: nat :: faults(i).Fine?
    ensures Batch(e, op, t, links, faults).ok <==> forall l :: l in links ==> Succeeds(e, op, t, l, Fine)
  {
    BatchGoesThroughExactlyWhen(e, op, t, links, faults);
    forall i | 0 <= i < |links|
      ensures Succeeds(e, op, t, links[i], faults(i)) <==> Succeeds(e, op, t, links[i], Fine)
    {
      assert faults(i).Fine?;
    }
  }

  lemma FineAdds(e: Env, after: seq<Link>, links: seq<Link>, t: Table, faults: nat -> Fault)
    requires Ready(e, after, links, t) && forall i: nat :: faults(i).Fine?
    ensures Batch(e, Add, t, links, faults).ok <==> forall l :: l in links ==> Succeeds(e, Add, t, l, Fine)
  {
    AddsReplay(e, after, links, t, faults);
    forall j: nat | j < |links| ensures Turn(e, t, links, faults, j).ok <==> Succeeds(e, Add, t, links[j], Fine) {
      assert faults(j).Fine?;
    }
    if AllSucceed(e, t, links, faults) {
      forall l | l in links ensures Succeeds(e, Add, t, l, Fine) {
        var j: nat :| j < |links| && links[j] == l;
        assert Turn(e, t, links, faults, j).ok;
      }
    }
  }

  lemma CleanAdds(e: Env, t: Table, before: seq<Link>, after: seq<Link>, f: Fate)
    requires DistinctNames(before) && DistinctNames(after) && DistinctHandles(e, after)
    requires Between(e, before, after, t) && Clean(f)
    ensures var d, left := DeltaOf(before, after), Leftover(t, before, after, f);
            && Batch(e, Del, t, d.del, f.del) == Progress(left, true)
            && (Batch(e, Add, left, d.add, f.add).ok <==> forall l :: l in d.add ==> Addable(e, before, t, l))
  {
    var d, left := DeltaOf(before, after), Leftover(t, before, after, f);
    DeltaHasDistinctNames(before, after);
    FineBatch(e, Del, t, d.del, f.del);
    DeletionsLeave(e, t, before, after, f);
    NothingClashesAtAll(e, t, before, after, f);
    AddsAreReady(e, before, after, left);
    FineAdds(e, after, d.add, left, f.add);
    forall l | l in d.add ensures Succeeds(e, Add, left, l, Fine) <==> Addable(e, before, t, l) {
      AddSucceedsExactlyWhen(e, t, before, after, f, l);
    }
  }

  lemma CleanUpdates(e: Env, t: Table, before: seq<Link>, after: seq<Link>, faults: nat -> Fault)
    requires DistinctNames(before) && DistinctNames(after)
    requires Between(e, before, after, t) && forall i: nat :: faults(i).Fine?
    ensures Batch(e, Update, t, Changed(before, after), faults).ok <==>
            forall l :: l in Changed(before, after) ==> Updatable(e, l)
  {
    DeltaHasDistinctNames(before, after);
    FineBatch(e, Update, t, Changed(before, after), faults);
    forall l | l in Changed(before, after) ensures Succeeds(e, Update, t, l, Fine) <==> Updatable(e, l) {
      UpdateSucceedsExactlyWhen(e, t, before, after, l);
    }
  }

  /** The batches of a clean attempt, wherever the attempts before it stopped, go through exactly when every added link
      can be added and every changed one updated. */
  lemma CleanBatchesGoThroughExactlyWhen(e: Env, t: Table, before: seq<Link>, after: seq<Link>, f: Fate)
    requires DistinctNames(before) && DistinctNames(after) && DistinctHandles(e, after)
    requires Between(e, before, after, t) && Clean(f)
    ensures Batches(e, t, DeltaOf(before, after), f).ok <==>
            && (forall l :: l in DeltaOf(before, after).add ==> Addable(e, before, t, l))
            && (forall l :: l in DeltaOf(before, after).changed ==> Updatable(e, l))
  {
    var d, left := DeltaOf(before, after), Leftover(t, before, after, f);
    CleanAdds(e, t, before, after, f);
    BatchStaysBetween(e, Del, t, before, after, d.del, f.del);
    BatchStaysBetween(e, Add, left, before, after, d.add, f.add);
    CleanUpdates(e, Batch(e, Add, left, d.add, f.add).table, before, after, f.update);
  }
}
