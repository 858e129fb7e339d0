/** Interface tables of the nodes' kernels, and the two ways in which the daemon changes them:
    VXLAN links between nodes (`daemon/vxlan/vxlan.go`) and veth pairs on one node
    (`common/veth.go`). */
module Net {
  import Ids
  import Qdisc

  /** A network namespace on a node. */
  datatype Space = Space(node: string, ns: string)

  /** An interface name in a namespace. */
  datatype End = End(space: Space, name: string)

  /** An optional address field: absent, parsed, or refused by the parser. */
  datatype Addr = NoAddr | Addr(text: string) | Unparsable

  datatype Iface =
    | Veth(peer: End, addr: Addr, mac: Addr, tree: Qdisc.Tree)
    | Vxlan(vni: int, group: string, addr: Addr, tree: Qdisc.Tree)
    | Foreign

  type Table = map<End, Iface>

  // ---- what every kernel guarantees ----

  predicate IsVxlan(t: Table, e: End, node: string, vni: int) {
    e in t && t[e].Vxlan? && e.space.node == node && t[e].vni == vni
  }

  predicate HasVni(t: Table, node: string, vni: int) { exists e :: e in t && IsVxlan(t, e, node, vni) }

  /** A node has at most one VXLAN device per VNI, in whichever namespace it sits. */
  ghost predicate OneVni(t: Table) {
    forall e, f, node, vni :: IsVxlan(t, e, node, vni) && IsVxlan(t, f, node, vni) ==> e == f
  }

  /** Veth ends come in pairs that name each other. */
  ghost predicate Paired(t: Table) {
    forall e :: e in t && t[e].Veth? ==>
      t[e].peer != e && t[e].peer in t && t[t[e].peer].Veth? && t[t[e].peer].peer == e
  }

  ghost predicate ValidTable(t: Table) { OneVni(t) && Paired(t) }

  // ---- kernel operations ----

  /** Deleting an interface; a veth takes its other end along. */
  function Unplug(t: Table, e: End): Table {
    if e !in t then t else if t[e].Veth? then t - {e, t[e].peer} else t - {e}
  }

  /** What `RemoveLinkWithVni` leaves. */
  function DropVni(t: Table, s: Space, vni: int): Table {
    map e | e in t && !(e.space == s && IsVxlan(t, e, s.node, vni)) :: t[e]
  }

  function SetTree(t: Table, e: End, tree: Qdisc.Tree): Table {
    if e in t && !t[e].Foreign? then t[e := t[e].(tree := tree)] else t
  }

  // ---- VXLAN links ----

  datatype VxlanSpec = VxlanSpec(end: End, addr: Addr, group: string, vni: int)

  /** `vxlanEqual`, on whatever interface bears the name: only the VNI and the remote VTEP are compared. */
  predicate SameVxlan(t: Table, v: VxlanSpec) {
    v.end in t && t[v.end].Vxlan? && t[v.end].vni == v.vni && t[v.end].group == v.group
  }

  function AddVxlan(t: Table, v: VxlanSpec): Table {
    t[v.end := Vxlan(v.vni, v.group, v.addr, Qdisc.EMPTY)]
  }

  /** Whether the kernel creates the device: the namespace is live, the VNI is legal and unused. */
  predicate CanAdd(t: Table, v: VxlanSpec, live: bool) {
    live && Ids.IsVni24(v.vni) && !HasVni(t, v.end.space.node, v.vni)
  }

  /** The second half of `CreateOrUpdate`: clear the name, create the device, and on "file exists" drop a
      device with the same VNI from the same namespace and try once more. */
  ghost function Rebuild(t: Table, v: VxlanSpec, live: bool): (Table, bool) {
    var t1 := Unplug(t, v.end);
    if CanAdd(t1, v, live) then (AddVxlan(t1, v), true)
    else if live && HasVni(t1, v.end.space.node, v.vni) then
      var t2 := DropVni(t1, v.end.space, v.vni);
      if CanAdd(t2, v, live) then (AddVxlan(t2, v), true) else (t2, false)
    else (t1, false)
  }

  /** `CreateOrUpdate`: the table it leaves and whether it succeeds. */
  ghost function CreateOrUpdate(t: Table, v: VxlanSpec, live: bool): (Table, bool) {
    if v.addr.Unparsable? then (t, false)
    else if SameVxlan(t, v) then (t, true)
    else Rebuild(t, v, live)
  }

  /** `SetupVxLan`: the device first, then its shaping. */
  ghost function SetupVxlan(t: Table, v: VxlanSpec, live: bool, props: Qdisc.Props, bypass: bool): (Table, bool) {
    var (t1, ok) := CreateOrUpdate(t, v, live);
    if !ok then (t1, false)
    else if Qdisc.Plan(props).None? then (t1, false)
    else (SetTree(t1, v.end, Qdisc.Wanted(props, bypass)), true)
  }

  /** `SetupVxLan` when shaping meets faults. */
  ghost function SetupVxlanUnder(t: Table, v: VxlanSpec, live: bool, props: Qdisc.Props, bypass: bool,
                                 f: Qdisc.Faults): (Table, bool) {
    var (t1, ok) := CreateOrUpdate(t, v, live);
    if !ok || Qdisc.Plan(props).None? || v.end !in t1 || t1[v.end].Foreign? then (t1, false)
    else
      var (tree, done) := Qdisc.Program(Qdisc.Cleared(t1[v.end].tree, f), Qdisc.Plan(props).value, bypass, f.refused);
      (SetTree(t1, v.end, tree), done)
  }

  /** Shaping changes no VNI. */
  lemma ShapingKeepsVnis(t: Table, v: VxlanSpec, live: bool, props: Qdisc.Props, bypass: bool, f: Qdisc.Faults)
    ensures var t1, u := CreateOrUpdate(t, v, live).0, SetupVxlanUnder(t, v, live, props, bypass, f).0;
            && u.Keys == t1.Keys
            && (forall e :: e in t1 ==> u[e].Vxlan? == t1[e].Vxlan?)
            && (forall e :: e in t1 && t1[e].Vxlan? ==> u[e].vni == t1[e].vni)
  {
  }

  /** Without faults the two are the same. */
  lemma NoFaultsNoDifference(t: Table, v: VxlanSpec, live: bool, props: Qdisc.Props, bypass: bool)
    requires ValidTable(t)
    ensures SetupVxlanUnder(t, v, live, props, bypass, Qdisc.NO_FAULTS) == SetupVxlan(t, v, live, props, bypass)
    ensures var (u, ok) := SetupVxlan(t, v, live, props, bypass);
            && (ok <==> CreateOrUpdate(t, v, live).1 && Qdisc.Plan(props).Some?)
            && (ok ==> v.end in u && u[v.end].Vxlan? && u[v.end].tree == Qdisc.Wanted(props, bypass))
  {
    CreateOrUpdateEstablishes(t, v, live);
    var t1 := CreateOrUpdate(t, v, live).0;
    if v.end in t1 && !t1[v.end].Foreign? && Qdisc.Plan(props).Some? {
      Qdisc.ForgetsHistory(t1[v.end].tree, props, bypass);
    }
  }

  /** Another namespace of the node holds the VNI: the one conflict that `CreateOrUpdate` cannot clear. */
  ghost predicate HeldElsewhere(t: Table, s: Space, vni: int) {
    exists e :: IsVxlan(t, e, s.node, vni) && e.space != s
  }

  /** The namespace is live, the VNI is legal, and no other namespace of the node holds it. */
  ghost predicate Free(t: Table, v: VxlanSpec, live: bool) {
    live && Ids.IsVni24(v.vni) && !HeldElsewhere(t, v.end.space, v.vni)
  }

  /** Everything but the target that `CreateOrUpdate` may take away: the pair of a veth that had the name,
      and a device of the same namespace that had the VNI. */
  predicate Displaced(t: Table, v: VxlanSpec, e: End) {
    || (v.end in t && t[v.end].Veth? && t[v.end].peer == e)
    || (e.space == v.end.space && IsVxlan(t, e, v.end.space.node, v.vni))
  }

  lemma UnplugKeepsValid(t: Table, e: End)
    requires ValidTable(t)
    ensures ValidTable(Unplug(t, e)) && e !in Unplug(t, e)
  {
    var u := Unplug(t, e);
    forall x, y, node, vni | IsVxlan(u, x, node, vni) && IsVxlan(u, y, node, vni)
      ensures x == y
    {
      assert IsVxlan(t, x, node, vni) && IsVxlan(t, y, node, vni);
    }
  }

  lemma DropVniKeepsValid(t: Table, s: Space, vni: int)
    requires ValidTable(t)
    ensures ValidTable(DropVni(t, s, vni))
    ensures HasVni(DropVni(t, s, vni), s.node, vni) <==> HeldElsewhere(t, s, vni)
  {
    var u := DropVni(t, s, vni);
    forall x, y, node, w | IsVxlan(u, x, node, w) && IsVxlan(u, y, node, w)
      ensures x == y
    {
      assert IsVxlan(t, x, node, w) && IsVxlan(t, y, node, w);
    }
    if HasVni(u, s.node, vni) {
      var e :| IsVxlan(u, e, s.node, vni);
      assert IsVxlan(t, e, s.node, vni) && e.space != s;
    }
    if HeldElsewhere(t, s, vni) {
      var e :| IsVxlan(t, e, s.node, vni) && e.space != s;
      assert IsVxlan(u, e, s.node, vni);
    }
  }

  lemma AddVxlanKeepsValid(t: Table, v: VxlanSpec)
    requires ValidTable(t) && v.end !in t && !HasVni(t, v.end.space.node, v.vni)
    ensures ValidTable(AddVxlan(t, v))
  {
    var u := AddVxlan(t, v);
    forall x, y, node, w | IsVxlan(u, x, node, w) && IsVxlan(u, y, node, w)
      ensures x == y
    {
      assert x == v.end || IsVxlan(t, x, node, w);
      assert y == v.end || IsVxlan(t, y, node, w);
    }
  }

  /** `Rebuild` in one step, on every kernel table. */
  lemma RebuildOutcome(t: Table, v: VxlanSpec, live: bool)
    requires ValidTable(t) && !SameVxlan(t, v)
    ensures var (u, ok) := Rebuild(t, v, live);
            && ValidTable(u)
            && (ok <==> Free(t, v, live))
            && (ok ==> v.end in u && u[v.end] == Vxlan(v.vni, v.group, v.addr, Qdisc.EMPTY))
            && (ok ==> forall e :: e != v.end ==> (e in u <==> e in t && !Displaced(t, v, e)))
            && (forall e :: e in u && e != v.end ==> e in t && u[e] == t[e])
  {
    var t1 := Unplug(t, v.end);
    var t2 := DropVni(t1, v.end.space, v.vni);
    var node := v.end.space.node;
    UnplugKeepsValid(t, v.end);
    DropVniKeepsValid(t1, v.end.space, v.vni);
    assert forall e :: IsVxlan(t1, e, node, v.vni) <==> e != v.end && IsVxlan(t, e, node, v.vni);
    assert HeldElsewhere(t1, v.end.space, v.vni) <==> HeldElsewhere(t, v.end.space, v.vni) by {
      assert forall e :: IsVxlan(t, e, node, v.vni) && e.space != v.end.space ==> IsVxlan(t1, e, node, v.vni);
    }
    assert HeldElsewhere(t1, v.end.space, v.vni) ==> HasVni(t1, node, v.vni);
    if CanAdd(t1, v, live) {
      AddVxlanKeepsValid(t1, v);
    } else if CanAdd(t2, v, live) {
      AddVxlanKeepsValid(t2, v);
    }
  }

  /** `CreateOrUpdate` establishes its target from any kernel table.  It succeeds exactly when the address
      parses and either the device is already there or the VNI is legal and no other namespace of the
      node holds it.  On success the named interface is a VXLAN device with the requested VNI and VTEP, it
      is the node's only one with that VNI, and nothing else is gone but what it displaced. */
  lemma CreateOrUpdateEstablishes(t: Table, v: VxlanSpec, live: bool)
    requires ValidTable(t)
    ensures var (u, ok) := CreateOrUpdate(t, v, live);
            && ValidTable(u)
            && (ok <==> !v.addr.Unparsable? && (SameVxlan(t, v) || Free(t, v, live)))
            && (ok ==> v.end in u && u[v.end].Vxlan? && u[v.end].vni == v.vni && u[v.end].group == v.group)
            && (ok ==> forall e :: IsVxlan(u, e, v.end.space.node, v.vni) <==> e == v.end)
            && (ok ==> forall e :: e != v.end ==> (e in u <==> e in t && (SameVxlan(t, v) || !Displaced(t, v, e))))
            && (forall e :: e in u && e != v.end ==> e in t && u[e] == t[e])
  {
    if !v.addr.Unparsable? && !SameVxlan(t, v) {
      RebuildOutcome(t, v, live);
    }
    var (u, ok) := CreateOrUpdate(t, v, live);
    if ok {
      assert IsVxlan(u, v.end, v.end.space.node, v.vni);
    }
  }

  /** Repeating a successful call changes nothing. */
  lemma CreateOrUpdateIsIdempotent(t: Table, v: VxlanSpec, live: bool)
    requires ValidTable(t) && CreateOrUpdate(t, v, live).1
    ensures var u := CreateOrUpdate(t, v, live).0; CreateOrUpdate(u, v, live) == (u, true)
  {
  }

  /** The address is what was asked for exactly when the device was not already there, or had it before:
      a changed address on an otherwise equal device is silently kept. */
  lemma AddressIsFreshExactlyWhen(t: Table, v: VxlanSpec, live: bool)
    requires ValidTable(t) && CreateOrUpdate(t, v, live).1
    ensures var u := CreateOrUpdate(t, v, live).0;
            && v.end in u && u[v.end].Vxlan?
            && (u[v.end].addr == v.addr <==> !SameVxlan(t, v) || t[v.end].addr == v.addr)
  {
  }

  // ---- veth pairs ----

  /** One end of a veth pair to be made. */
  datatype VethEnd = VethEnd(end: End, addr: Addr, mac: Addr)

  function AddVeth(t: Table, a: VethEnd, b: VethEnd): Table {
    t[a.end := Veth(b.end, a.addr, a.mac, Qdisc.EMPTY)][b.end := Veth(a.end, b.addr, b.mac, Qdisc.EMPTY)]
  }

  /** The table on which `SetupVeth` makes the pair: a single stale end is removed first. */
  function ClearOneEnd(t: Table, a: VethEnd, b: VethEnd): Table {
    if a.end !in t && b.end in t then Unplug(t, b.end)
    else if a.end in t && b.end !in t then Unplug(t, a.end)
    else t
  }

  /** `SetupVeth`: nothing at all if both names exist, whatever bears them; otherwise the pair is made
      and both ends are shaped. */
  ghost function SetupVeth(t: Table, a: VethEnd, b: VethEnd, props: Qdisc.Props, bypass: bool): (Table, bool) {
    if a.end in t && b.end in t then (t, true) else ShapedPair(ClearOneEnd(t, a, b), a, b, props, bypass)
  }

  /** `CreateVeth`: an unshaped pair if the properties do not parse. */
  ghost function ShapedPair(t: Table, a: VethEnd, b: VethEnd, props: Qdisc.Props, bypass: bool): (Table, bool) {
    var t1 := AddVeth(t, a, b);
    if Qdisc.Plan(props).None? then (t1, false)
    else
      var tree := Qdisc.Wanted(props, bypass);
      (SetTree(SetTree(t1, a.end, tree), b.end, tree), true)
  }

  lemma SetTreeKeepsValid(t: Table, e: End, tree: Qdisc.Tree)
    requires ValidTable(t)
    ensures ValidTable(SetTree(t, e, tree))
  {
    var u := SetTree(t, e, tree);
    forall x, y, node, w | IsVxlan(u, x, node, w) && IsVxlan(u, y, node, w)
      ensures x == y
    {
      assert IsVxlan(t, x, node, w) && IsVxlan(t, y, node, w);
    }
  }

  lemma AddVethKeepsValid(t: Table, a: VethEnd, b: VethEnd)
    requires ValidTable(t) && a.end != b.end && a.end !in t && b.end !in t
    ensures ValidTable(AddVeth(t, a, b))
  {
    var u := AddVeth(t, a, b);
    forall x, y, node, w | IsVxlan(u, x, node, w) && IsVxlan(u, y, node, w)
      ensures x == y
    {
      assert IsVxlan(t, x, node, w) && IsVxlan(t, y, node, w);
    }
  }

  /** The far end of what had the name of one of the ends. */
  predicate OtherEndOf(t: Table, a: VethEnd, b: VethEnd, e: End) {
    || (a.end in t && t[a.end].Veth? && t[a.end].peer == e)
    || (b.end in t && t[b.end].Veth? && t[b.end].peer == e)
  }

  /** `SetupVeth` leaves a properly shaped pair unless both names were taken; then it leaves everything
      as it was, and the pair is right exactly if it was right before. */
  lemma SetupVethOutcome(t: Table, a: VethEnd, b: VethEnd, props: Qdisc.Props, bypass: bool)
    requires ValidTable(t) && a.end != b.end
    ensures var (u, ok) := SetupVeth(t, a, b, props, bypass);
            && ValidTable(u) && a.end in u && b.end in u
            && (ok <==> (a.end in t && b.end in t) || Qdisc.Plan(props).Some?)
            && (a.end in t && b.end in t ==> u == t)
            && (forall e :: e in u && e != a.end && e != b.end ==> e in t && u[e] == t[e])
            && (forall e :: e in t && e !in u ==> OtherEndOf(t, a, b, e))
            && (!(a.end in t && b.end in t) ==> u[a.end].Veth? && u[b.end].Veth?)
            && (ok && !(a.end in t && b.end in t) ==>
                  && u[a.end] == Veth(b.end, a.addr, a.mac, Qdisc.Wanted(props, bypass))
                  && u[b.end] == Veth(a.end, b.addr, b.mac, Qdisc.Wanted(props, bypass)))
  {
    if !(a.end in t && b.end in t) {
      UnplugKeepsValid(t, a.end);
      UnplugKeepsValid(t, b.end);
      var t0 := ClearOneEnd(t, a, b);
      AddVethKeepsValid(t0, a, b);
      if Qdisc.Plan(props).Some? {
        var tree := Qdisc.Wanted(props, bypass);
        SetTreeKeepsValid(AddVeth(t0, a, b), a.end, tree);
        SetTreeKeepsValid(SetTree(AddVeth(t0, a, b), a.end, tree), b.end, tree);
      }
    }
  }
}
