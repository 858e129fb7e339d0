/** Convergence of the reconciler over whole runs of attempts. */
module ReconcileTheorems {
  import opened Options
  import opened Diff
  import opened Reconcile
  import opened ReconcileRuns
  import opened ReconcileAdds
  import opened ReconcileOutcomes
  import Ids
  import Qdisc

  /** The state after a sequence of attempts. */
  ghost function Run(e: Env, s: State, fates: seq<Fate>): State
    decreases |fates|
  {
    if fates == [] then s else Attempt(e, Run(e, s, fates[..|fates| - 1]), fates[|fates| - 1]).state
  }

  /** The spec stays as it is. */
  predicate Unedited(fates: seq<Fate>) { forall i :: 0 <= i < |fates| ==> fates[i].edit.None? }

  /** A topology whose spec differs from its status.  Links have interface names of their own, and the links of the spec
      also far ends and VNIs of their own. */
  ghost predicate Changing(e: Env, s: State) {
    && s.status.Some? && s.status != s.spec
    && DistinctNames(Items(s.status)) && DistinctNames(Items(s.spec)) && DistinctHandles(e, Items(s.spec))
  }

  /** Besides, its status tells the truth about the pod. */
  ghost predicate Pending(e: Env, s: State) { Changing(e, s) && Converged(e, Items(s.status), s.table) }

  lemma {:induction false} StoppedRun(e: Env, s: State, fates: seq<Fate>)
    requires Pending(e, s) && Unedited(fates)
    ensures var r := Run(e, s, fates);
            && r.spec == s.spec && (r.status == s.status || r.status == s.spec)
            && (r.status == s.status ==> Between(e, Items(s.status), Items(s.spec), r.table))
    decreases |fates|
  {
    if fates == [] {
      ConvergedIsBetween(e, Items(s.status), Items(s.spec), s.table);
    } else {
      var n := |fates| - 1;
      StoppedRun(e, s, fates[..n]);
      var m := Run(e, s, fates[..n]);
      if m.status == s.status {
        BatchesStayBetween(e, m.table, Items(s.status), Items(s.spec), fates[n]);
      }
    }
  }

  /** After any attempts that did not complete, each cut short anywhere, the first one that completes (with no error
      ignored) leaves the interfaces exactly as the spec describes if and only if it finds no link it neglects: no new
      veth that is there but not shaped as asked, and no new macvlan that asks for shaping.  The status then equals the
      spec, and every later attempt is a no-op. */
  lemma ConvergesExactlyWhen(e: Env, s: State, fates: seq<Fate>, last: Fate)
    requires Pending(e, s) && Unedited(fates) && last.edit.None? && NothingIgnored(last)
    requires Run(e, s, fates).status == s.status && Attempt(e, Run(e, s, fates), last).ok
    ensures var m, r := Run(e, s, fates), Attempt(e, Run(e, s, fates), last).state;
            && (Converged(e, Items(s.spec), r.table) <==>
                forall l :: l in Missing(Items(s.spec), Items(s.status)) ==> !Neglected(e, Items(s.status), m.table, l))
            && r.spec == s.spec && r.status == s.spec
            && forall later :: Attempt(e, r, later) == Attempted(r, true)
  {
    StoppedRun(e, s, fates);
    CompletedCleanly(e, Run(e, s, fates).table, Items(s.status), Items(s.spec), last);
  }

  /** The same for an attempt that ignores errors: it leaves what the spec describes if and only if it spoils no
      name.  It reports success and writes the status all the same.  (Where a left interface has the handle of an added
      link, the new list is to make none under its name; else the order of the additions matters.) */
  lemma IgnoredErrorsConvergeExactlyWhen(e: Env, s: State, fates: seq<Fate>, last: Fate)
    requires Pending(e, s) && Unedited(fates) && last.edit.None?
    requires Run(e, s, fates).status == s.status && Attempt(e, Run(e, s, fates), last).ok
    requires OrderlyIn(e, s, Run(e, s, fates).table, last)
    ensures var m, r := Run(e, s, fates), Attempt(e, Run(e, s, fates), last).state;
            && (Converged(e, Items(s.spec), r.table) <==> forall name :: !SpoiledIn(e, s, m.table, last, name))
            && r.spec == s.spec && r.status == s.spec
  {
    StoppedRun(e, s, fates);
    var t := Run(e, s, fates).table;
    CompletedExactlyWhen(e, t, Items(s.status), Items(s.spec), last);
    assert forall name ::
             SpoiledIn(e, s, t, last, name) <==>
                 SpoiledAt(e, Items(s.status), Items(s.spec), last, LeftIn(s, t, last), name);
  }

  ghost predicate OrderlyIn(e: Env, s: State, t: Table, f: Fate) {
    Orderly(e, Items(s.spec), Missing(Items(s.spec), Items(s.status)), LeftIn(s, t, f))
  }

  ghost function LeftIn(s: State, t: Table, f: Fate): Table { Leftover(t, Items(s.status), Items(s.spec), f) }

  ghost predicate SpoiledIn(e: Env, s: State, t: Table, f: Fate, name: string) {
    SpoiledAt(e, Items(s.status), Items(s.spec), f, LeftIn(s, t, f), name)
  }

  // ---- what it means, written out ----

  /** The interface is of the given kind, was made for the link, and has the qdiscs that the link's own properties
      and the bypass setting call for. */
  ghost predicate Stands(e: Env, l: Link, cell: Cell, kind: Kind) {
    var props := Qdisc.Props(e.netem(l.properties.netem), l.properties.rate);
    && cell.Some? && cell.value.id == l.id && cell.value.kind == kind
    && Qdisc.Plan(props).Some? && cell.value.tree == Qdisc.Wanted(props, e.bypass)
  }

  /** What stands under a link's name for each kind of peer: a macvlan on the named parent for "localhost", a VXLAN
      to the named address for "physical/", a veth for a pod on this host, a VXLAN to the host of a pod elsewhere, and
      nothing for a pod that is not up. */
  ghost predicate AsDeclared(e: Env, l: Link, cell: Cell) {
    var id := l.id;
    if id.peerPod == "localhost" then Stands(e, l, cell, Macvlan(id.peerIntf))
    else if "physical/" <= id.peerPod then Stands(e, l, cell, Vxlan(Ids.VniFromUid(id.uid), id.peerPod[9..]))
    else if id.peerPod in e.hosts && e.hosts[id.peerPod] == ThisHost then Stands(e, l, cell, Veth)
    else if id.peerPod in e.hosts && e.hosts[id.peerPod].OtherHost? then
      Stands(e, l, cell, Vxlan(Ids.VniFromUid(id.uid), e.hosts[id.peerPod].ip))
    else cell == None
  }

  /** The interfaces are as a list describes exactly when under every link's name stands what it declares, and there
      is no interface that no link names. */
  lemma ConvergedSpelledOut(e: Env, links: seq<Link>, t: Table)
    requires DistinctNames(links)
    ensures Converged(e, links, t) <==>
            && (forall l :: l in links ==> AsDeclared(e, l, Lookup(t, l.id.localIntf)))
            && (forall name :: name in t ==> exists l :: l in links && l.id.localIntf == name)
  {
    forall l, cell ensures Describes(e, Some(l), cell) <==> AsDeclared(e, l, cell) { DescribesSpelledOut(e, l, cell); }
    if Converged(e, links, t) {
      forall l | l in links ensures AsDeclared(e, l, Lookup(t, l.id.localIntf)) {
        AtFinds(links, l);
        assert Describes(e, At(links, l.id.localIntf), Lookup(t, l.id.localIntf));
      }
      forall name | name in t ensures exists l :: l in links && l.id.localIntf == name {
        AtSpec(links, name);
        assert Describes(e, At(links, name), Lookup(t, name));
      }
    }
    if (forall l :: l in links ==> AsDeclared(e, l, Lookup(t, l.id.localIntf)))
       && (forall name :: name in t ==> exists l :: l in links && l.id.localIntf == name) {
      forall name ensures Describes(e, At(links, name), Lookup(t, name)) { AtSpec(links, name); }
    }
  }

  lemma DescribesSpelledOut(e: Env, l: Link, cell: Cell)
    ensures Describes(e, Some(l), cell) <==> AsDeclared(e, l, cell)
  {
  }

  /** The interface is a veth to the far end that the link names. */
  predicate ToFarEnd(cell: Cell, l: Link) {
    cell.Some? && cell.value.kind == Veth && cell.value.id.peerPod == l.id.peerPod
      && cell.value.id.peerIntf == l.id.peerIntf
  }

  /** Adding a link to a pod on this host, written out: nothing happens if the near name exists and one of the pod's
      interfaces leads to the far end; else the pair is made, and what led there is gone. */
  lemma AddVethSpelledOut(e: Env, t: Table, l: Link, name: string)
    requires l.id.peerPod in e.hosts && e.hosts[l.id.peerPod] == ThisHost && TreeFor(e, l).Some?
    requires l.id.peerPod != "localhost" && !("physical/" <= l.id.peerPod)
    ensures var p := Operate(e, Add, t, l, Fine);
            && p.ok
            && if l.id.localIntf in t && exists m :: m in t && ToFarEnd(Lookup(t, m), l) then p.table == t
               else if name == l.id.localIntf then Stands(e, l, Lookup(p.table, name), Veth)
               else Lookup(p.table, name) == if ToFarEnd(Lookup(t, name), l) then None else Lookup(t, name)
  {
    var own, h := l.id.localIntf, Needs(e, l.id);
    assert forall m :: m in t ==> (ToFarEnd(Lookup(t, m), l) <==> HandleOf(t[m]) == h);
    OperateAt(e, Add, t, l, Fine, name);
    if own in t && exists m :: m in t && ToFarEnd(Lookup(t, m), l) {
      var m :| m in t && ToFarEnd(Lookup(t, m), l);
      assert m != own ==> HeldElsewhere(t, h, own);
      assert Put(t, own, Lookup(t, own)) == t;
    }
  }

  /** Adding a link to a pod on another host, written out: a device with the right VNI and VTEP under the name is
      kept and shaped; else one is made, and a device of another name with the VNI is gone. */
  lemma AddVxlanSpelledOut(e: Env, t: Table, l: Link, ip: string, name: string)
    requires l.id.peerPod in e.hosts && e.hosts[l.id.peerPod] == OtherHost(ip) && TreeFor(e, l).Some?
    requires l.id.peerPod != "localhost" && !("physical/" <= l.id.peerPod)
    ensures var p, vni := Operate(e, Add, t, l, Fine), Ids.VniFromUid(l.id.uid);
            var kept := l.id.localIntf in t && t[l.id.localIntf].kind == Vxlan(vni, ip);
            && p.ok
            && if name == l.id.localIntf then
                 if kept then Lookup(p.table, name) == Some(t[name].(tree := TreeFor(e, l).value))
                 else Stands(e, l, Lookup(p.table, name), Vxlan(vni, ip))
               else
                 Lookup(p.table, name) ==
                 if !kept && name in t && t[name].kind.Vxlan? && t[name].kind.vni == vni then None else Lookup(t, name)
  {
    OperateAt(e, Add, t, l, Fine, name);
  }

  // ---- an attempt in which nothing else fails ----

  /** Every added link can be added and every changed one updated. */
  ghost predicate Feasible(e: Env, s: State, t: Table) {
    && (forall l :: l in Missing(Items(s.spec), Items(s.status)) ==> Addable(e, Items(s.status), t, l))
    && (forall l :: l in Changed(Items(s.status), Items(s.spec)) ==> Updatable(e, l))
  }

  /** Total correctness.  Wherever earlier attempts stopped, an attempt in which nothing fails on its own account
      completes if and only if every added link has a peer, a free name if it is a macvlan, and properties that parse if
      it has to be shaped, and every changed link has properties that parse, or ask for nothing if its peer is not up.
      It completes with the interfaces that the spec describes if and only if, besides, it neglects no link. */
  lemma CleanAttemptConvergesExactlyWhen(e: Env, s: State, fates: seq<Fate>, last: Fate)
    requires Pending(e, s) && Unedited(fates) && Run(e, s, fates).status == s.status && Clean(last)
    ensures var m, r := Run(e, s, fates), Attempt(e, Run(e, s, fates), last);
            && (r.ok <==> Feasible(e, s, m.table))
            && (r.ok && Converged(e, Items(s.spec), r.state.table) <==>
                && Feasible(e, s, m.table)
                && forall l :: l in Missing(Items(s.spec), Items(s.status)) ==>
                    !Neglected(e, Items(s.status), m.table, l))
  {
    StoppedRun(e, s, fates);
    CleanBatchesGoThroughExactlyWhen(e, Run(e, s, fates).table, Items(s.status), Items(s.spec), last);
    if Attempt(e, Run(e, s, fates), last).ok {
      ConvergesExactlyWhen(e, s, fates, last);
    }
  }

  /** In particular, if earlier attempts stopped only between operations, all peers of new and changed links exist
      and of changed ones are up, all their properties parse, and no macvlan is added, the first clean attempt succeeds.
      */
  lemma CleanRetrySucceeds(e: Env, s: State, fates: seq<Fate>, last: Fate)
    requires Pending(e, s) && Unedited(fates) && Run(e, s, fates).status == s.status && Clean(last)
    requires StopsBetweenOperations(fates)
    requires forall l :: l in Missing(Items(s.spec), Items(s.status)) ==>
               !TaskOf(e, l.id).NoPeer?
                 && (TaskOf(e, l.id).Make? ==> !TaskOf(e, l.id).kind.Macvlan? && TreeFor(e, l).Some?)
    requires forall l :: l in Changed(Items(s.status), Items(s.spec)) ==> TaskOf(e, l.id).Make? && TreeFor(e, l).Some?
    ensures var r := Attempt(e, Run(e, s, fates), last); r.ok && Converged(e, Items(s.spec), r.state.table)
  {
    CleanAttemptConvergesExactlyWhen(e, s, fates, last);
    StopsBetweenOperationsConverge(e, s, fates, last);
  }

  /** Links to other hosts, and links that take over the name of a deleted one, are never neglected; so a spec that adds
      only such links is reached from every stopped run. */
  lemma OtherHostsAndMovedNamesConverge(e: Env, s: State, fates: seq<Fate>, last: Fate)
    requires Pending(e, s) && Unedited(fates) && last.edit.None? && NothingIgnored(last)
    requires Run(e, s, fates).status == s.status && Attempt(e, Run(e, s, fates), last).ok
    requires forall l :: l in Missing(Items(s.spec), Items(s.status)) ==>
               !(TaskOf(e, l.id).Make? && TaskOf(e, l.id).kind.Macvlan?)
               && (TaskOf(e, l.id) == Make(Veth) ==> At(Items(s.status), l.id.localIntf).Some?)
    ensures Converged(e, Items(s.spec), Attempt(e, Run(e, s, fates), last).state.table)
  {
    ConvergesExactlyWhen(e, s, fates, last);
  }

  // ---- stops between operations ----

  /** Attempts only ever stop before an operation, or after it: never while it is shaping an interface. */
  ghost predicate StopsBetweenOperations(fates: seq<Fate>) {
    forall i: nat, j: nat :: i < |fates| ==> !fates[i].add(j).Midway? && !fates[i].add(j).Ignored?
  }

  /** A new link's interface is absent, or shaped as asked. */
  ghost predicate NotHalfMade(e: Env, l: Link, cell: Cell) {
    cell.None? || TreeFor(e, l) == Some(cell.value.tree)
  }

  /** The interface of a new veth is absent, or was made for the link and is shaped as asked. */
  ghost predicate Whole(e: Env, l: Link, cell: Cell) { cell.None? || (MadeFor(e, l, cell) && NotHalfMade(e, l, cell)) }

  lemma AddIsWhole(e: Env, l: Link, cell: Cell, held: bool, f: Fault)
    requires TaskOf(e, l.id) == Make(Veth) && TreeFor(e, l).Some? && Whole(e, l, cell) && !f.Midway? && !f.Ignored?
    ensures Whole(e, l, AddOutcome(e, cell, held, l, f).cell)
  {
  }

  lemma {:induction false} AddsAreWhole(e: Env, t: Table, links: seq<Link>, faults: nat -> Fault, l: Link)
    requires TaskOf(e, l.id) == Make(Veth) && TreeFor(e, l).Some? && Whole(e, l, Lookup(t, l.id.localIntf))
    requires forall k :: k in links && k.id.localIntf == l.id.localIntf ==> k == l
    requires forall i: nat :: !faults(i).Midway? && !faults(i).Ignored?
    ensures Whole(e, l, Lookup(Batch(e, Add, t, links, faults).table, l.id.localIntf))
    decreases |links|
  {
    if links != [] {
      var n, name := |links| - 1, l.id.localIntf;
      AddsAreWhole(e, t, links[..n], faults, l);
      var now, k := Batch(e, Add, t, links[..n], faults).table, links[n];
      OperateAt(e, Add, now, k, faults(n), name);
      if k.id.localIntf == name { AddIsWhole(e, l, Lookup(now, name), HeldElsewhere(now, Needs(e, l.id), name),
                                             faults(n)); }
    }
  }

  /** The batches leave a new name to the additions. */
  lemma NewNameInBatches(e: Env, t: Table, before: seq<Link>, after: seq<Link>, f: Fate, l: Link)
    requires DistinctNames(before) && DistinctNames(after)
    requires l in Missing(after, before) && At(before, l.id.localIntf).None?
    ensures var one := Batch(e, Del, t, Missing(before, after), f.del);
            var two := Batch(e, Add, one.table, Missing(after, before), f.add);
            var cell := Lookup(Batches(e, t, DeltaOf(before, after), f).table, l.id.localIntf);
            && Lookup(one.table, l.id.localIntf) == Lookup(t, l.id.localIntf)
            && (cell == Lookup(t, l.id.localIntf) || cell == Lookup(two.table, l.id.localIntf))
            && forall k :: k in Missing(after, before) && k.id.localIntf == l.id.localIntf ==> k == l
  {
    var d, name := DeltaOf(before, after), l.id.localIntf;
    AddedAt(before, after, l);
    LinksForAt(Del, before, after, name);
    LinksForAt(Update, before, after, name);
    var one := Batch(e, Del, t, d.del, f.del);
    var two := Batch(e, Add, one.table, d.add, f.add);
    var h := BatchAt(e, Del, t, d.del, f.del, name);
    var i := BatchAt(e, Update, two.table, d.changed, f.update, name);
    forall k | k in d.add && k.id.localIntf == name ensures k == l { AddedAt(before, after, k); }
  }

  lemma {:induction false} WholeRun(e: Env, s: State, fates: seq<Fate>, l: Link)
    requires Pending(e, s) && Unedited(fates) && StopsBetweenOperations(fates)
    requires l in Missing(Items(s.spec), Items(s.status)) && At(Items(s.status), l.id.localIntf).None?
    requires TaskOf(e, l.id) == Make(Veth) && TreeFor(e, l).Some?
    ensures Run(e, s, fates).status == s.status ==> Whole(e, l, Lookup(Run(e, s, fates).table, l.id.localIntf))
    decreases |fates|
  {
    if fates == [] {
      assert Describes(e, At(Items(s.status), l.id.localIntf), Lookup(s.table, l.id.localIntf));
    } else {
      var n := |fates| - 1;
      var m := Run(e, s, fates[..n]);
      StoppedRun(e, s, fates[..n]);
      WholeRun(e, s, fates[..n], l);
      if m.status == s.status {
        NewNameInBatches(e, m.table, Items(s.status), Items(s.spec), fates[n], l);
        var one := Batch(e, Del, m.table, Missing(Items(s.status), Items(s.spec)), fates[n].del);
        AddsAreWhole(e, one.table, Missing(Items(s.spec), Items(s.status)), fates[n].add, l);
      }
    }
  }

  /** If attempts only stop between operations and the new veths' properties parse, the spec is reached, whichever hosts
      the peers are on. */
  lemma StopsBetweenOperationsConverge(e: Env, s: State, fates: seq<Fate>, last: Fate)
    requires Pending(e, s) && Unedited(fates) && last.edit.None? && NothingIgnored(last)
    requires Run(e, s, fates).status == s.status && Attempt(e, Run(e, s, fates), last).ok
    requires StopsBetweenOperations(fates)
    requires forall l :: l in Missing(Items(s.spec), Items(s.status)) && TaskOf(e, l.id).Make? ==>
               !TaskOf(e, l.id).kind.Macvlan? && TreeFor(e, l).Some?
    ensures Converged(e, Items(s.spec), Attempt(e, Run(e, s, fates), last).state.table)
  {
    var m := Run(e, s, fates);
    forall l | l in Missing(Items(s.spec), Items(s.status)) ensures !Neglected(e, Items(s.status), m.table, l) {
      if TaskOf(e, l.id) == Make(Veth) && At(Items(s.status), l.id.localIntf).None? {
        WholeRun(e, s, fates, l);
      }
    }
    ConvergesExactlyWhen(e, s, fates, last);
  }

  // ---- what goes wrong otherwise ----

  /** The additions leave the interface that was made for a new veth as it is. */
  lemma {:induction false} AddsKeepMade(e: Env, t: Table, links: seq<Link>, faults: nat -> Fault, l: Link)
    requires TaskOf(e, l.id) == Make(Veth) && MadeFor(e, l, Lookup(t, l.id.localIntf))
    requires forall k :: k in links && (k.id.localIntf == l.id.localIntf || Needs(e, k.id) == Needs(e, l.id)) ==> k == l
    ensures Lookup(Batch(e, Add, t, links, faults).table, l.id.localIntf) == Lookup(t, l.id.localIntf)
    decreases |links|
  {
    if links != [] {
      var n := |links| - 1;
      AddsKeepMade(e, t, links[..n], faults, l);
      OperateAt(e, Add, Batch(e, Add, t, links[..n], faults).table, links[n], faults(n), l.id.localIntf);
    }
  }

  /** A half-made veth stays as it is through every further attempt. */
  lemma {:induction false} HalfMadeStays(e: Env, s: State, fates: seq<Fate>, l: Link)
    requires Changing(e, s) && Unedited(fates)
    requires l in Missing(Items(s.spec), Items(s.status)) && At(Items(s.status), l.id.localIntf).None?
    requires TaskOf(e, l.id) == Make(Veth) && MadeFor(e, l, Lookup(s.table, l.id.localIntf))
    ensures var r := Run(e, s, fates);
            && Lookup(r.table, l.id.localIntf) == Lookup(s.table, l.id.localIntf)
            && r.spec == s.spec && (r.status == s.status || r.status == s.spec)
    decreases |fates|
  {
    if fates != [] {
      var n := |fates| - 1;
      HalfMadeStays(e, s, fates[..n], l);
      var m := Run(e, s, fates[..n]);
      if m.status == s.status { AttemptKeepsMade(e, m, fates[n], l); }
    }
  }

  lemma AttemptKeepsMade(e: Env, s: State, f: Fate, l: Link)
    requires Changing(e, s) && f.edit.None?
    requires l in Missing(Items(s.spec), Items(s.status)) && At(Items(s.status), l.id.localIntf).None?
    requires TaskOf(e, l.id) == Make(Veth) && MadeFor(e, l, Lookup(s.table, l.id.localIntf))
    ensures var r := Attempt(e, s, f).state;
            && Lookup(r.table, l.id.localIntf) == Lookup(s.table, l.id.localIntf)
            && r.spec == s.spec && (r.status == s.status || r.status == s.spec)
  {
    BatchesKeepMade(e, s.table, Items(s.status), Items(s.spec), f, l);
  }

  lemma BatchesKeepMade(e: Env, t: Table, before: seq<Link>, after: seq<Link>, f: Fate, l: Link)
    requires DistinctNames(before) && DistinctNames(after) && DistinctHandles(e, after)
    requires l in Missing(after, before) && At(before, l.id.localIntf).None?
    requires TaskOf(e, l.id) == Make(Veth) && MadeFor(e, l, Lookup(t, l.id.localIntf))
    ensures Lookup(Batches(e, t, DeltaOf(before, after), f).table, l.id.localIntf) == Lookup(t, l.id.localIntf)
  {
    NewNameInBatches(e, t, before, after, f, l);
    MissingSpec(after, before);
    forall k | k in Missing(after, before) && Needs(e, k.id) == Needs(e, l.id) ensures k == l {
      HandleTellsLink(e, after, l, k);
    }
    AddsKeepMade(e, Batch(e, Del, t, Missing(before, after), f.del).table, Missing(after, before), f.add, l);
  }

  /** So no run of attempts, however long, reaches a spec once a new veth is there that is not shaped as the spec
      asks. */
  lemma HalfMadeNeverConverges(e: Env, s: State, fates: seq<Fate>, l: Link)
    requires Changing(e, s) && Unedited(fates)
    requires l in Missing(Items(s.spec), Items(s.status)) && At(Items(s.status), l.id.localIntf).None?
    requires TaskOf(e, l.id) == Make(Veth) && MadeFor(e, l, Lookup(s.table, l.id.localIntf))
    requires TreeFor(e, l) != Some(s.table[l.id.localIntf].tree)
    ensures !Converged(e, Items(s.spec), Run(e, s, fates).table)
  {
    HalfMadeStays(e, s, fates, l);
    AddedAt(Items(s.status), Items(s.spec), l);
    var t := Run(e, s, fates).table;
    assert !Describes(e, At(Items(s.spec), l.id.localIntf), Lookup(t, l.id.localIntf));
  }

  const FINE: nat -> Fault := (_: nat) => Fine

  /** This happens for every veth that asks for shaping: the first attempt is cut short while shaping it, the second one
      finds it there, reports success and writes the status, and nothing is left to do. */
  lemma HalfMadeVethIsForgotten(e: Env, l: Link)
    requires TaskOf(e, l.id) == Make(Veth) && TreeFor(e, l).Some? && TreeFor(e, l) != Some(Qdisc.EMPTY)
    ensures var s := State(Some([l]), Some([]), map[]);
            var cut := Fate(FINE, (_: nat) => Midway(Qdisc.EMPTY), FINE, true, None);
            var clean := Fate(FINE, FINE, FINE, true, None);
            var m := Attempt(e, s, cut);
            var r := Attempt(e, m.state, clean);
            && Pending(e, s) && !m.ok && m.state.status == s.status
            && r.ok && r.state.status == r.state.spec == Some([l])
            && r.state.table == map[l.id.localIntf := Entry(l.id, Veth, Qdisc.EMPTY)]
            && !Converged(e, [l], r.state.table)
  {
    var half := map[l.id.localIntf := Entry(l.id, Veth, Qdisc.EMPTY)];
    OneLinkAttempt(e, l, map[], Fate(FINE, (_: nat) => Midway(Qdisc.EMPTY), FINE, true, None));
    OneLinkAttempt(e, l, half, Fate(FINE, FINE, FINE, true, None));
    CutThenFound(e, l);
    assert !Describes(e, At([l], l.id.localIntf), Lookup(half, l.id.localIntf));
  }

  lemma CutThenFound(e: Env, l: Link)
    requires TaskOf(e, l.id) == Make(Veth) && TreeFor(e, l).Some?
    ensures var half := map[l.id.localIntf := Entry(l.id, Veth, Qdisc.EMPTY)];
            && Operate(e, Add, map[], l, Midway(Qdisc.EMPTY)) == Progress(half, false)
            && Operate(e, Add, half, l, Fine) == Progress(half, true)
  {
  }

  /** An attempt that has one link to add. */
  lemma OneLinkAttempt(e: Env, l: Link, t: Table, f: Fate)
    requires f.written && f.edit.None?
    ensures var p := Operate(e, Add, t, l, f.add(0));
            Attempt(e, State(Some([l]), Some([]), t), f) ==
            Attempted(State(Some([l]), if p.ok then Some([l]) else Some([]), p.table), p.ok)
  {
    assert [l][..0] == [];
    assert Missing([], [l]) == [] && Changed([], [l]) == [] && Find([], l) == None;
    assert Missing([l], []) == Missing([], []) + [l];
    assert DeltaOf([], [l]) == Delta([l], [], []);
    assert Batch(e, Add, t, [], f.add) == Progress(t, true);
    assert Batch(e, Add, t, [l], f.add) == Operate(e, Add, t, l, f.add(0));
  }

  /** The macvlan made for the link is there, and the additions cannot get past it. */
  lemma {:induction false} MacvlanStopsAdds(e: Env, t: Table, links: seq<Link>, faults: nat -> Fault, l: Link)
    requires TaskOf(e, l.id).Make? && TaskOf(e, l.id).kind.Macvlan? && MadeFor(e, l, Lookup(t, l.id.localIntf))
    requires forall k :: k in links && k.id.localIntf == l.id.localIntf ==> k == l
    ensures var p := Batch(e, Add, t, links, faults);
            (l in links ==> !p.ok) && Lookup(p.table, l.id.localIntf) == Lookup(t, l.id.localIntf)
    decreases |links|
  {
    if links != [] {
      var n := |links| - 1;
      MacvlanStopsAdds(e, t, links[..n], faults, l);
      OperateAt(e, Add, Batch(e, Add, t, links[..n], faults).table, links[n], faults(n), l.id.localIntf);
      assert links == links[..n] + [links[n]];
    }
  }

  lemma MacvlanBlocks(e: Env, s: State, f: Fate, l: Link)
    requires Changing(e, s)
    requires l in Missing(Items(s.spec), Items(s.status)) && At(Items(s.status), l.id.localIntf).None?
    requires TaskOf(e, l.id).Make? && TaskOf(e, l.id).kind.Macvlan? && MadeFor(e, l, Lookup(s.table, l.id.localIntf))
    ensures var r := Attempt(e, s, f);
            && !r.ok && r.state.status == s.status && r.state.spec == s.spec
            && Lookup(r.state.table, l.id.localIntf) == Lookup(s.table, l.id.localIntf)
  {
    var before, after := Items(s.status), Items(s.spec);
    NewNameInBatches(e, s.table, before, after, f, l);
    MacvlanStopsAdds(e, Batch(e, Del, s.table, Missing(before, after), f.del).table, Missing(after, before), f.add, l);
  }

  /** A new macvlan that a stopped attempt has made blocks every later attempt: none ever completes. */
  lemma {:induction false} MacvlanBlocksEveryRetry(e: Env, s: State, fates: seq<Fate>, l: Link)
    requires Changing(e, s) && Unedited(fates)
    requires l in Missing(Items(s.spec), Items(s.status)) && At(Items(s.status), l.id.localIntf).None?
    requires TaskOf(e, l.id).Make? && TaskOf(e, l.id).kind.Macvlan? && MadeFor(e, l, Lookup(s.table, l.id.localIntf))
    ensures var r := Run(e, s, fates);
            && r.status == s.status && r.spec == s.spec
            && Lookup(r.table, l.id.localIntf) == Lookup(s.table, l.id.localIntf)
    decreases |fates|
  {
    if fates != [] {
      var n := |fates| - 1;
      MacvlanBlocksEveryRetry(e, s, fates[..n], l);
      MacvlanBlocks(e, Run(e, s, fates[..n]), fates[n], l);
    }
  }

  // ---- refused removals ----

  /** What a completing attempt finds, and which removal is refused: that of the interface under the given name. */
  ghost predicate Refused(e: Env, s: State, fates: seq<Fate>, last: Fate, name: string) {
    && Pending(e, s) && Unedited(fates) && last.edit.None?
    && Run(e, s, fates).status == s.status && Attempt(e, Run(e, s, fates), last).ok
    && OrderlyIn(e, s, Run(e, s, fates).table, last)
    && At(Items(s.status), name).Some? && name in Run(e, s, fates).table
    && last.del(IndexOf(Missing(Items(s.status), Items(s.spec)), name)).Ignored?
  }

  /** If the removal of a link that the spec no longer names is refused, its interface stays although the attempt
      reports success, unless an added link needs its far end or VNI. */
  lemma IgnoredRemovalIsForgotten(e: Env, s: State, fates: seq<Fate>, last: Fate, name: string)
    requires Refused(e, s, fates, last, name) && At(Items(s.spec), name).None?
    requires forall l :: l in Missing(Items(s.spec), Items(s.status)) ==>
               !Holds(Lookup(Run(e, s, fates).table, name), Needs(e, l.id))
    ensures !Converged(e, Items(s.spec), Attempt(e, Run(e, s, fates), last).state.table)
  {
    IgnoredErrorsConvergeExactlyWhen(e, s, fates, last);
    StaysBehind(e, Run(e, s, fates).table, Items(s.status), Items(s.spec), last, name);
    assert SpoiledIn(e, s, Run(e, s, fates).table, last, name);
  }

  /** A renamed link is moved after all: it needs the handle that its old interface has, and making it anew takes
      the old one away. */
  lemma RenamedLinkIsMoved(e: Env, s: State, fates: seq<Fate>, last: Fate, name: string, l: Link)
    requires Refused(e, s, fates, last, name) && At(Items(s.spec), name).None?
    requires l in Missing(Items(s.spec), Items(s.status)) && l.id.localIntf !in LeftIn(s, Run(e, s, fates).table, last)
    requires Holds(Lookup(Run(e, s, fates).table, name), Needs(e, l.id))
    ensures name !in Attempt(e, Run(e, s, fates), last).state.table
  {
    var m := Run(e, s, fates);
    var left := LeftIn(s, m.table, last);
    StoppedRun(e, s, fates);
    LinkForAt(Add, Items(s.status), Items(s.spec), l);
    AtSpec(Items(s.spec), name);
    assert Clashes(e, left, l, name) && Anew(e, left, l);
    assert TakenOver(e, left, Missing(Items(s.spec), Items(s.status)), name);
    CompletedAt(e, m.table, Items(s.status), Items(s.spec), last, name);
  }

  /** A veth that keeps its two names but changes otherwise, say its address, is not made again: `SetupVeth` finds both
      names. */
  lemma ReaddressedVethIsNotRemade(e: Env, s: State, fates: seq<Fate>, last: Fate, l: Link)
    requires Refused(e, s, fates, last, l.id.localIntf)
    requires l in Missing(Items(s.spec), Items(s.status)) && TaskOf(e, l.id) == Make(Veth)
    requires Holds(Lookup(Run(e, s, fates).table, l.id.localIntf), Needs(e, l.id))
    requires Run(e, s, fates).table[l.id.localIntf].id != l.id
    ensures !Converged(e, Items(s.spec), Attempt(e, Run(e, s, fates), last).state.table)
  {
    IgnoredErrorsConvergeExactlyWhen(e, s, fates, last);
    IsNotRemade(e, Run(e, s, fates).table, Items(s.status), Items(s.spec), last, l);
    assert SpoiledIn(e, s, Run(e, s, fates).table, last, l.id.localIntf);
  }

  // ---- why far ends and VNIs have to be distinct ----

  /** What every kernel guarantees: no two interfaces have the same far end or the same VNI. */
  ghost predicate OneHolder(t: Table) {
    forall m, n :: m in t && n in t && m != n && HandleOf(t[m]).Some? ==> HandleOf(t[m]) != HandleOf(t[n])
  }

  lemma OperateKeepsOneHolder(e: Env, op: Op, t: Table, l: Link, f: Fault)
    requires OneHolder(t)
    ensures OneHolder(Operate(e, op, t, l, f).table)
  {
    var r, o, name := Operate(e, op, t, l, f).table, OutcomeIn(e, op, t, l, f), l.id.localIntf;
    NewHolder(e, op, Lookup(t, name), HeldElsewhere(t, Needs(e, l.id), name), l, f);
    forall m, n | m in r && n in r && m != n && HandleOf(r[m]).Some? ensures HandleOf(r[m]) != HandleOf(r[n]) {
      OperateAt(e, op, t, l, f, m);
      OperateAt(e, op, t, l, f, n);
    }
  }

  /** An operation leaves the handle that was there, or clears the link's own one and takes it. */
  ghost predicate TakesOwn(e: Env, cell: Cell, l: Link, o: Outcome) {
    o.cell.Some? && HandleOf(o.cell.value).Some? ==>
      || (cell.Some? && HandleOf(o.cell.value) == HandleOf(cell.value))
      || (o.clears && HandleOf(o.cell.value) == Needs(e, l.id))
  }

  lemma NewHolder(e: Env, op: Op, cell: Cell, held: bool, l: Link, f: Fault)
    ensures TakesOwn(e, cell, l, OutcomeOf(e, op, cell, held, l, f))
  {
    if op.Add? && TaskOf(e, l.id).Make? { MadeHolder(e, cell, held, l, f, TaskOf(e, l.id).kind); }
  }

  lemma MadeHolder(e: Env, cell: Cell, held: bool, l: Link, f: Fault, kind: Kind)
    requires TaskOf(e, l.id) == Make(kind)
    ensures TakesOwn(e, cell, l, AddOutcome(e, cell, held, l, f))
  {
  }

  lemma {:induction false} BatchKeepsOneHolder(e: Env, op: Op, t: Table, links: seq<Link>, faults: nat -> Fault)
    requires OneHolder(t)
    ensures OneHolder(Batch(e, op, t, links, faults).table)
    decreases |links|
  {
    if links != [] {
      var n := |links| - 1;
      BatchKeepsOneHolder(e, op, t, links[..n], faults);
      OperateKeepsOneHolder(e, op, Batch(e, op, t, links[..n], faults).table, links[n], faults(n));
    }
  }

  lemma {:induction false} RunKeepsOneHolder(e: Env, s: State, fates: seq<Fate>)
    requires OneHolder(s.table)
    ensures OneHolder(Run(e, s, fates).table)
    decreases |fates|
  {
    if fates != [] {
      var n := |fates| - 1;
      RunKeepsOneHolder(e, s, fates[..n]);
      var m, f := Run(e, s, fates[..n]), fates[n];
      if m.status.Some? && m.status != m.spec {
        var d := DeltaOf(m.status.value, Items(m.spec));
        var one := Batch(e, Del, m.table, d.del, f.del);
        var two := Batch(e, Add, one.table, d.add, f.add);
        BatchKeepsOneHolder(e, Del, m.table, d.del, f.del);
        BatchKeepsOneHolder(e, Add, one.table, d.add, f.add);
        BatchKeepsOneHolder(e, Update, two.table, d.changed, f.update);
      }
    }
  }

  /** Interfaces that are as a list describes them have the handles that its links need. */
  lemma ConvergedHasDistinctHandles(e: Env, links: seq<Link>, t: Table)
    requires OneHolder(t) && DistinctNames(links) && Converged(e, links, t)
    ensures DistinctHandles(e, links)
  {
    forall i, j | 0 <= i < j < |links| && Needs(e, links[i].id).Some?
      ensures Needs(e, links[i].id) != Needs(e, links[j].id)
    {
      AtFinds(links, links[i]);
      AtFinds(links, links[j]);
      assert Describes(e, At(links, links[i].id.localIntf), Lookup(t, links[i].id.localIntf));
      assert Describes(e, At(links, links[j].id.localIntf), Lookup(t, links[j].id.localIntf));
    }
  }

  /** So a list in which two links need the same far end or the same VNI is never reached, by any attempts. */
  lemma SharedHandlesNeverConverge(e: Env, s: State, fates: seq<Fate>, links: seq<Link>)
    requires OneHolder(s.table) && DistinctNames(links) && !DistinctHandles(e, links)
    ensures !Converged(e, links, Run(e, s, fates).table)
  {
    RunKeepsOneHolder(e, s, fates);
    if Converged(e, links, Run(e, s, fates).table) {
      ConvergedHasDistinctHandles(e, links, Run(e, s, fates).table);
    }
  }

  /** A topology seen for the first time is taken to be set up: no attempt ever touches its interfaces, so the spec
      holds after any run of them exactly if it did before. */
  lemma {:induction false} FirstSightIsTrusted(e: Env, s: State, fates: seq<Fate>)
    requires s.status.None? && Unedited(fates)
    ensures var r := Run(e, s, fates);
            && r.table == s.table && r.spec == s.spec && (r.status.None? || r.status == s.spec)
            && (Converged(e, Items(r.spec), r.table) <==> Converged(e, Items(s.spec), s.table))
    decreases |fates|
  {
    if fates != [] { FirstSightIsTrusted(e, s, fates[..|fates| - 1]); }
  }

  /** What a link asks for under its name, perhaps nothing; `None` if no interface can satisfy it. */
  ghost function AskedFor(e: Env, want: Option<Link>): Option<Cell> {
    if want.None? || !TaskOf(e, want.value.id).Make? then Some(None)
    else if TreeFor(e, want.value).None? then None
    else Some(Some(Entry(want.value.id, TaskOf(e, want.value.id).kind, TreeFor(e, want.value).value)))
  }

  lemma DescribesWhatIsAskedFor(e: Env, want: Option<Link>, cell: Cell)
    ensures Describes(e, want, cell) <==> AskedFor(e, want) == Some(cell)
  {
  }

  /** Two lists that ask for the same under every name. */
  ghost predicate AskTheSame(e: Env, a: seq<Link>, b: seq<Link>) {
    forall name :: AskedFor(e, At(a, name)) == AskedFor(e, At(b, name))
  }

  lemma ConvergedOnBothExactlyWhen(e: Env, a: seq<Link>, b: seq<Link>, t: Table)
    requires Converged(e, a, t)
    ensures Converged(e, b, t) <==> AskTheSame(e, a, b)
  {
    forall name
      ensures AskedFor(e, At(a, name)) == Some(Lookup(t, name))
      ensures Describes(e, At(b, name), Lookup(t, name)) <==> AskedFor(e, At(b, name)) == Some(Lookup(t, name))
    {
      assert Describes(e, At(a, name), Lookup(t, name));
      DescribesWhatIsAskedFor(e, At(a, name), Lookup(t, name));
      DescribesWhatIsAskedFor(e, At(b, name), Lookup(t, name));
    }
    if Converged(e, b, t) {
      forall name ensures AskedFor(e, At(a, name)) == AskedFor(e, At(b, name)) {
        assert Describes(e, At(b, name), Lookup(t, name));
      }
    }
  }

  /** The spec has to stay unchanged.  An edit that arrives while an attempt is under way is recorded as done and
      never carried out: where the attempt reaches the spec it started from, the interfaces are those of the edited spec
      if and only if the two ask for the same under every name. */
  lemma EditMeanwhileConvergesExactlyWhen(e: Env, s: State, fates: seq<Fate>, last: Fate)
    requires Pending(e, s) && Unedited(fates) && Run(e, s, fates).status == s.status
    requires NothingIgnored(last) && last.edit.Some? && Attempt(e, Run(e, s, fates), last).ok
    requires forall l :: l in Missing(Items(s.spec), Items(s.status)) ==>
               !Neglected(e, Items(s.status), Run(e, s, fates).table, l)
    ensures var r := Attempt(e, Run(e, s, fates), last).state;
            && r.spec == last.edit.value && r.status == last.edit.value
            && (Converged(e, Items(r.spec), r.table) <==> AskTheSame(e, Items(s.spec), Items(r.spec)))
            && forall later :: Attempt(e, r, later) == Attempted(r, true)
  {
    var m := Run(e, s, fates);
    StoppedRun(e, s, fates);
    CompletedCleanly(e, m.table, Items(s.status), Items(s.spec), last);
    ConvergedOnBothExactlyWhen(e, Items(s.spec), Items(last.edit.value), Attempt(e, m, last).state.table);
  }

  /** In particular a link that only the edit asks for stays missing, whatever else the attempt neglects. */
  lemma EditMeanwhileIsForgotten(e: Env, s: State, fates: seq<Fate>, last: Fate, l: Link)
    requires Pending(e, s) && Unedited(fates) && Run(e, s, fates).status == s.status
    requires NothingIgnored(last) && last.edit.Some? && Attempt(e, Run(e, s, fates), last).ok
    requires DistinctNames(Items(last.edit.value)) && l in Items(last.edit.value) && TaskOf(e, l.id).Make?
    requires At(Items(s.spec), l.id.localIntf).None?
    ensures var r := Attempt(e, Run(e, s, fates), last).state;
            r.status == r.spec == last.edit.value && !Converged(e, Items(r.spec), r.table)
  {
    var m, name := Run(e, s, fates), l.id.localIntf;
    StoppedRun(e, s, fates);
    UnaskedIsGone(e, m.table, Items(s.status), Items(s.spec), last, name);
    AtFinds(Items(last.edit.value), l);
    assert !Describes(e, At(Items(last.edit.value), name), Lookup(Attempt(e, m, last).state.table, name));
  }

  lemma UnaskedIsGone(e: Env, t: Table, before: seq<Link>, after: seq<Link>, f: Fate, name: string)
    requires DistinctNames(before) && DistinctNames(after) && DistinctHandles(e, after) && NothingIgnored(f)
    requires Between(e, before, after, t) && Batches(e, t, DeltaOf(before, after), f).ok && At(after, name).None?
    ensures name !in Batches(e, t, DeltaOf(before, after), f).table
  {
    NothingClashesAtAll(e, t, before, after, f);
    CompletedAt(e, t, before, after, f, name);
    SpoiledIsNeglected(e, t, before, after, f, name);
  }
}
