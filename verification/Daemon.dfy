/** The daemon of one node: the kernel it drives, its VNI index (`daemon/vxlan/manager.go`) and the handlers
    that change both (`daemon/kubedtn/handler.go`). */
module Daemon {
  import opened Options
  import opened Net
  import Ids
  import Qdisc

  // ---- node states as values ----

  /** The live namespaces and interfaces of a node, and the namespace the daemon recorded for each VNI. */
  datatype Node = Node(spaces: set<Space>, links: Table, vxlans: map<int, string>)

  ghost predicate ValidNode(n: Node) {
    ValidTable(n.links) && forall e :: e in n.links ==> e.space in n.spaces
  }

  /** Where `Update` first looks for a device to evict: another namespace recorded for the VNI. */
  function Evicted(n: Node, v: VxlanSpec): Table {
    if v.vni in n.vxlans && n.vxlans[v.vni] != v.end.space.ns
    then DropVni(n.links, Space(v.end.space.node, n.vxlans[v.vni]), v.vni)
    else n.links
  }

  /** The locked part of the different-hosts branch of `addLink`, with the faults that its shaping meets. */
  ghost function LocalVxlan(n: Node, v: VxlanSpec, props: Qdisc.Props, bypass: bool, f: Qdisc.Faults): (Node, bool) {
    var (t, ok) := SetupVxlanUnder(n.links, v, v.end.space in n.spaces, props, bypass, f);
    (n.(links := t, vxlans := if ok then n.vxlans[v.vni := v.end.space.ns] else n.vxlans), ok)
  }

  /** The remote `Update`: the same after an eviction.  Its shaping never carries the bypass filter, because
      only `addLink` and `UpdateLinks` put the bypass setting in the context. */
  ghost function RemoteUpdate(n: Node, v: VxlanSpec, props: Qdisc.Props, bypass: bool, f: Qdisc.Faults): (Node, bool) {
    LocalVxlan(n.(links := Evicted(n, v)), v, props, bypass, f)
  }

  /** `delLink`: the interface, then the index entry if it names this namespace.  A kernel that refuses to remove the
      interface does not keep the entry from going. */
  function Deleted(n: Node, e: End, vni: int, refused: bool): Node {
    n.(links := if refused then n.links else Unplug(n.links, e), vxlans := Forget(n.vxlans, vni, e.space.ns))
  }

  function Forget(vxlans: map<int, string>, vni: int, ns: string): map<int, string> {
    if vni in vxlans && vxlans[vni] == ns then vxlans - {vni} else vxlans
  }

  // ---- the classes ----

  datatype Made = Created | FileExists | Refused

  /** The kernel of a node.  If it is `flaky`, any operation on interfaces may fail without effect, and shaping may meet
      any faults. */
  class Kernel {
    const node: string
    const flaky: bool
    var spaces: set<Space>
    var links: Table

    constructor (node: string, flaky: bool, spaces: set<Space>, links: Table)
      ensures this.node == node && this.flaky == flaky && this.spaces == spaces && this.links == links
    {
      this.node, this.flaky, this.spaces, this.links := node, flaky, spaces, links;
    }

    ghost predicate Valid() reads this {
      && ValidTable(links)
      && (forall s :: s in spaces ==> s.node == node)
      && (forall e :: e in links ==> e.space in spaces)
    }

    method RemoveVethLink(e: End) returns (ok: bool)
      requires Valid()
      modifies this`links
      ensures Valid()
      ensures ok ==> e in old(links)
      ensures !flaky && e in old(links) ==> ok
      ensures links == if ok then Unplug(old(links), e) else old(links)
    {
      UnplugKeepsValid(links, e);
      var fault := *;
      if e !in links || (flaky && fault) { return false; }
      links := Unplug(links, e);
      return true;
    }

    method MakeVxLan(v: VxlanSpec) returns (r: Made)
      requires Valid() && v.end !in links && v.end.space.node == node
      modifies this`links
      ensures Valid()
      ensures r.Created? ==> CanAdd(old(links), v, v.end.space in spaces) && links == AddVxlan(old(links), v)
      ensures r.FileExists? ==> v.end.space in spaces && HasVni(old(links), node, v.vni)
      ensures !r.Created? ==> links == old(links)
      ensures !flaky ==> (r.Created? <==> CanAdd(old(links), v, v.end.space in spaces))
      ensures !flaky ==> (r.FileExists? <==> v.end.space in spaces && HasVni(old(links), node, v.vni))
    {
      var fault := *;
      if v.end.space !in spaces || (flaky && fault) { return Refused; }
      if HasVni(links, node, v.vni) { return FileExists; }
      if !Ids.IsVni24(v.vni) { return Refused; }
      AddVxlanKeepsValid(links, v);
      links := AddVxlan(links, v);
      return Created;
    }

    /** `netlink.LinkList` inside a namespace, in some order. */
    method LinkList(s: Space) returns (listing: seq<End>)
      ensures forall e :: e in listing <==> e in links && e.space == s
    {
      var todo := set e | e in links && e.space == s;
      listing := [];
      while todo != {}
        invariant forall e :: e in listing || e in todo <==> e in links && e.space == s
        decreases todo
      {
        var e :| e in todo;
        listing, todo := listing + [e], todo - {e};
      }
    }

    /** `RemoveLinkWithVni`: scans the namespace and deletes the first VXLAN device with the VNI. */
    method RemoveLinkWithVni(s: Space, vni: int) returns (ok: bool)
      requires Valid()
      modifies this`links
      ensures Valid()
      ensures ok ==> s in spaces && links == DropVni(old(links), s, vni)
      ensures !ok ==> links == old(links)
      ensures !flaky && s in spaces ==> ok
    {
      var fault := *;
      if s !in spaces || (flaky && fault) { return false; }
      DropVniKeepsValid(links, s, vni);
      var listing := LinkList(s);
      for i := 0 to |listing|
        invariant links == old(links)
        invariant forall k :: 0 <= k < i ==> !IsVxlan(links, listing[k], s.node, vni)
      {
        if links[listing[i]].Vxlan? && links[listing[i]].vni == vni {
          OnlyOneToDrop(links, s, vni, listing[i]);
          links := links - {listing[i]};
          return true;
        }
      }
      assert DropVni(links, s, vni) == links;
      return true;
    }

    /** `CreateOrUpdate`. */
    method CreateOrUpdate(v: VxlanSpec) returns (ok: bool)
      requires Valid() && v.end.space.node == node
      modifies this`links
      ensures Valid()
      ensures ok ==> Net.CreateOrUpdate(old(links), v, v.end.space in spaces) == (links, true)
      ensures !flaky ==> Net.CreateOrUpdate(old(links), v, v.end.space in spaces) == (links, ok)
      ensures forall e :: e in links && e != v.end ==> e in old(links) && links[e] == old(links)[e]
    {
      if v.addr.Unparsable? { return false; }
      if v.end in links {
        if links[v.end].Vxlan? && links[v.end].vni == v.vni && links[v.end].group == v.group {
          return true;
        }
        var removed := RemoveVethLink(v.end);
        if !removed { return false; }
      }
      UnplugKeepsValid(old(links), v.end);
      assert links == Unplug(old(links), v.end);
      var made := MakeVxLan(v);
      if made.FileExists? {
        var dropped := RemoveLinkWithVni(v.end.space, v.vni);
        if !dropped { return false; }
        made := MakeVxLan(v);
      }
      return made.Created?;
    }

    /** `SetVethQdiscs` on an interface of this kernel.  Without the interface only an empty list goes through. */
    method SetVethQdiscs(e: End, qdiscs: seq<Qdisc.Qdisc>, bypass: bool) returns (ok: bool, ghost f: Qdisc.Faults)
      requires Valid() && Qdisc.Planned(qdiscs)
      modifies this`links
      ensures Valid()
      ensures !flaky ==> f == Qdisc.NO_FAULTS
      ensures e in old(links) && !old(links)[e].Foreign? ==>
                var (tree, done) := Qdisc.Program(Qdisc.Cleared(old(links)[e].tree, f), qdiscs, bypass, f.refused);
                links == SetTree(old(links), e, tree) && ok == done
      ensures e !in old(links) ==> links == old(links) && ok == (qdiscs == [])
      ensures e in old(links) && old(links)[e].Foreign? ==> links == old(links)
    {
      var faults: Qdisc.Faults := *;
      if !flaky { faults := Qdisc.NO_FAULTS; }
      f := faults;
      if e !in links || links[e].Foreign? { return qdiscs == [], f; }
      var (tree, done) := Qdisc.Program(Qdisc.Cleared(links[e].tree, faults), qdiscs, bypass, faults.refused);
      SetTreeKeepsValid(links, e, tree);
      links := SetTree(links, e, tree);
      ok := done;
    }

    /** `SetupVxLan`. */
    method SetupVxLan(v: VxlanSpec, props: Qdisc.Props, bypass: bool) returns (ok: bool, ghost f: Qdisc.Faults)
      requires Valid() && v.end.space.node == node
      modifies this`links
      ensures Valid()
      ensures !flaky ==> f == Qdisc.NO_FAULTS
      ensures ok ==> SetupVxlanUnder(old(links), v, v.end.space in spaces, props, bypass, f) == (links, true)
      ensures !flaky ==> SetupVxlanUnder(old(links), v, v.end.space in spaces, props, bypass, f) == (links, ok)
      ensures forall e :: e in links && e != v.end ==> e in old(links) && links[e] == old(links)[e]
    {
      f := Qdisc.NO_FAULTS;
      CreateOrUpdateEstablishes(links, v, v.end.space in spaces);
      ok := CreateOrUpdate(v);
      if !ok { return; }
      var qdiscs := Qdisc.MakeQdiscs(props);
      if qdiscs.None? { return false, f; }
      Qdisc.PlansAreBuilt(props);
      ok, f := SetVethQdiscs(v.end, qdiscs.value, bypass);
    }

    /** `koko.MakeVeth`: both names have to be free, in live namespaces. */
    method MakeVeth(a: VethEnd, b: VethEnd) returns (ok: bool)
      requires Valid() && a.end != b.end
      modifies this`links
      ensures Valid()
      ensures ok ==> Room(old(links), spaces, a, b) && links == AddVeth(old(links), a, b)
      ensures !ok ==> links == old(links)
      ensures !flaky && Room(old(links), spaces, a, b) ==> ok
    {
      var fault := *;
      if !Room(links, spaces, a, b) || (flaky && fault) { return false; }
      AddVethKeepsValid(links, a, b);
      links := AddVeth(links, a, b);
      return true;
    }

    /** `CreateVeth`: the pair, then its shaping, end by end. */
    method CreateVeth(a: VethEnd, b: VethEnd, props: Qdisc.Props, bypass: bool) returns (ok: bool)
      requires Valid() && a.end != b.end
      modifies this`links
      ensures Valid()
      ensures ok ==> Room(old(links), spaces, a, b) && ShapedPair(old(links), a, b, props, bypass) == (links, true)
      ensures !flaky && Room(old(links), spaces, a, b) ==> ShapedPair(old(links), a, b, props, bypass) == (links, ok)
    {
      ok := MakeVeth(a, b);
      if !ok { return false; }
      var qdiscs := Qdisc.MakeQdiscs(props);
      if qdiscs.None? { return false; }
      Qdisc.PlansAreBuilt(props);
      ghost var f, g;
      ok, f := SetVethQdiscs(a.end, qdiscs.value, bypass);
      FreshShaping(props, bypass, f);
      if !ok { return false; }
      ok, g := SetVethQdiscs(b.end, qdiscs.value, bypass);
      FreshShaping(props, bypass, g);
    }

    /** `SetupVeth`. */
    method SetupVeth(a: VethEnd, b: VethEnd, props: Qdisc.Props, bypass: bool) returns (ok: bool)
      requires Valid() && a.end != b.end
      modifies this`links
      ensures Valid()
      ensures ok ==> Net.SetupVeth(old(links), a, b, props, bypass) == (links, true)
      ensures !flaky && a.end.space in spaces && b.end.space in spaces ==>
                Net.SetupVeth(old(links), a, b, props, bypass) == (links, ok)
    {
      var iExist, pExist := a.end in links, b.end in links;
      if iExist && pExist { return true; }
      UnplugKeepsValid(links, a.end);
      UnplugKeepsValid(links, b.end);
      if !iExist && pExist {
        ok := RemoveVethLink(b.end);
        if !ok { return false; }
      } else if iExist && !pExist {
        ok := RemoveVethLink(a.end);
        if !ok { return false; }
      }
      assert links == ClearOneEnd(old(links), a, b);
      ok := CreateVeth(a, b, props, bypass);
    }
  }

  /** On a new interface there is nothing to clear, so a reported success is always a true one. */
  lemma FreshShaping(props: Qdisc.Props, bypass: bool, f: Qdisc.Faults)
    requires Qdisc.Plan(props).Some?
    ensures Qdisc.Planned(Qdisc.Plan(props).value)
    ensures var (tree, ok) := Qdisc.Program(Qdisc.Cleared(Qdisc.EMPTY, f), Qdisc.Plan(props).value, bypass, f.refused);
            && (ok ==> tree == Qdisc.Wanted(props, bypass))
            && (f == Qdisc.NO_FAULTS ==> ok)
  {
    Qdisc.SuccessIsTrueExactlyWhen(Qdisc.EMPTY, props, bypass, f);
  }

  predicate Room(t: Table, spaces: set<Space>, a: VethEnd, b: VethEnd) {
    a.end !in t && b.end !in t && a.end.space in spaces && b.end.space in spaces
  }

  /** `VxlanManager`: the namespace recorded for each VNI. */
  class VxlanManager {
    var vxlans: map<int, string>

    constructor ()
      ensures vxlans == map[]
    {
      vxlans := map[];
    }

    method Add(vni: int, ns: string)
      modifies this
      ensures vxlans == old(vxlans)[vni := ns]
    {
      vxlans := vxlans[vni := ns];
    }

    method Delete(vni: int)
      modifies this
      ensures vxlans == old(vxlans) - {vni}
    {
      vxlans := vxlans - {vni};
    }

    method Get(vni: int) returns (ns: Option<string>)
      ensures ns == if vni in vxlans then Some(vxlans[vni]) else None
    {
      ns := if vni in vxlans then Some(vxlans[vni]) else None;
    }
  }

  /** The handlers that touch VXLAN devices.  Each runs here without interference, as it does under the
      mutex of its link. */
  class KubeDTN {
    const kernel: Kernel
    const manager: VxlanManager

    constructor (kernel: Kernel)
      ensures this.kernel == kernel && fresh(manager) && manager.vxlans == map[]
    {
      this.kernel := kernel;
      manager := new VxlanManager();
    }

    ghost function State(): Node reads kernel, manager {
      Node(kernel.spaces, kernel.links, manager.vxlans)
    }

    /** `Update`, up to and including the index entry. */
    method Update(v: VxlanSpec, props: Qdisc.Props, bypass: bool) returns (ok: bool, ghost f: Qdisc.Faults)
      requires kernel.Valid() && v.end.space.node == kernel.node
      modifies kernel`links, manager
      ensures kernel.Valid()
      ensures !kernel.flaky ==> f == Qdisc.NO_FAULTS
      ensures ok ==> RemoteUpdate(old(State()), v, props, bypass, f) == (State(), true)
      ensures !kernel.flaky ==> RemoteUpdate(old(State()), v, props, bypass, f) == (State(), ok)
    {
      var recorded := manager.Get(v.vni);
      if recorded.Some? && recorded.value != v.end.space.ns {
        var s := Space(kernel.node, recorded.value);
        var evicted := kernel.RemoveLinkWithVni(s, v.vni);
        assert !evicted && s !in kernel.spaces ==> DropVni(kernel.links, s, v.vni) == kernel.links;
        FailedEvictionIsHarmless(kernel.links, s, v, v.end.space in kernel.spaces);
      }
      ok, f := kernel.SetupVxLan(v, props, bypass);
      if ok { manager.Add(v.vni, v.end.space.ns); }
    }

    /** The locked part of the different-hosts branch of `addLink`: no eviction. */
    method AddVxlanLink(v: VxlanSpec, props: Qdisc.Props, bypass: bool) returns (ok: bool, ghost f: Qdisc.Faults)
      requires kernel.Valid() && v.end.space.node == kernel.node
      modifies kernel`links, manager
      ensures kernel.Valid()
      ensures !kernel.flaky ==> f == Qdisc.NO_FAULTS
      ensures ok ==> LocalVxlan(old(State()), v, props, bypass, f) == (State(), true)
      ensures !kernel.flaky ==> LocalVxlan(old(State()), v, props, bypass, f) == (State(), ok)
    {
      ok, f := kernel.SetupVxLan(v, props, bypass);
      if ok { manager.Add(v.vni, v.end.space.ns); }
    }

    /** `delLink`: a failure to remove the interface is only logged. */
    method DelLink(e: End, vni: int) returns (ghost refused: bool)
      requires kernel.Valid()
      modifies kernel`links, manager
      ensures kernel.Valid()
      ensures refused ==> kernel.flaky && e in old(kernel.links)
      ensures State() == Deleted(old(State()), e, vni, refused)
    {
      refused := e in kernel.links;
      var removed := kernel.RemoveVethLink(e);
      refused := refused && !removed;
      var recorded := manager.Get(vni);
      if recorded.Some? && recorded.value == e.space.ns {
        manager.Delete(vni);
      }
    }
  }

  /** An eviction that failed matters only if there was something to evict, and then the device cannot be
      created either. */
  lemma FailedEvictionIsHarmless(t: Table, s: Space, v: VxlanSpec, live: bool)
    requires ValidTable(t) && s != v.end.space && s.node == v.end.space.node
    ensures Net.CreateOrUpdate(t, v, live).1 ==> DropVni(t, s, v.vni) == t
  {
    CreateOrUpdateEstablishes(t, v, live);
    assert forall e :: e in t && e.space == s && IsVxlan(t, e, s.node, v.vni) ==> HeldElsewhere(t, v.end.space, v.vni);
    if SameVxlan(t, v) {
      assert IsVxlan(t, v.end, s.node, v.vni);
    }
  }

  /** With one device per VNI, dropping the VNI drops exactly that device. */
  lemma OnlyOneToDrop(t: Table, s: Space, vni: int, e: End)
    requires ValidTable(t) && e in t && e.space == s && IsVxlan(t, e, s.node, vni)
    ensures DropVni(t, s, vni) == t - {e}
  {
  }

  // ---- the index covers the kernel ----

  /** The daemon knows the namespace of every VXLAN device on its node. */
  ghost predicate Covers(n: Node) {
    forall e :: e in n.links && n.links[e].Vxlan? ==>
      n.links[e].vni in n.vxlans && n.vxlans[n.links[e].vni] == e.space.ns
  }

  /** One interface name per link and namespace. */
  ghost predicate Named(n: Node, name: (string, int) -> string) {
    forall e :: e in n.links && n.links[e].Vxlan? ==> e.name == name(e.space.ns, n.links[e].vni)
  }

  /** What can happen on a node: the three handlers, veth links coming up, a namespace going away. */
  datatype Op =
    | Local(v: VxlanSpec, props: Qdisc.Props, bypass: bool, f: Qdisc.Faults)
    | Remote(v: VxlanSpec, props: Qdisc.Props, bypass: bool, f: Qdisc.Faults)
    | Del(e: End, vni: int, refused: bool)
    | Pair(a: VethEnd, b: VethEnd, props: Qdisc.Props, bypass: bool)
    | Gone(s: Space)

  /** Removing a namespace removes its interfaces, and the far ends of its veths. */
  function Destroyed(n: Node, s: Space): Node {
    n.(spaces := n.spaces - {s},
       links := map e | e in n.links && e.space != s && !(n.links[e].Veth? && n.links[e].peer.space == s) :: n.links[e])
  }

  /** The effect of an operation and whether it reported success. */
  ghost function Apply(n: Node, op: Op): (Node, bool) {
    match op
    case Local(v, props, bypass, f) => LocalVxlan(n, v, props, bypass, f)
    case Remote(v, props, bypass, f) => RemoteUpdate(n, v, props, bypass, f)
    case Del(e, vni, refused) => (Deleted(n, e, vni, refused), true)
    case Pair(a, b, props, bypass) =>
      var (t, ok) := SetupVeth(n.links, a, b, props, bypass);
      (n.(links := t), ok)
    case Gone(s) => (Destroyed(n, s), true)
  }

  /** Operations stay on the node and use the link's name, and no deletion leaves its own VXLAN device behind. */
  ghost predicate WellNamed(n: Node, op: Op, node: string, name: (string, int) -> string) {
    match op
    case Local(v, _, _, _) => v.end.space.node == node && v.end.name == name(v.end.space.ns, v.vni)
    case Remote(v, _, _, _) => v.end.space.node == node && v.end.name == name(v.end.space.ns, v.vni)
    case Del(e, vni, refused) =>
      && e.space.node == node && e.name == name(e.space.ns, vni)
      && !(refused && IsVxlan(n.links, e, node, vni))
    case Pair(a, b, _, _) => a.end != b.end && a.end.space in n.spaces && b.end.space in n.spaces
    case Gone(_) => true
  }

  ghost predicate Good(n: Node, node: string, name: (string, int) -> string) {
    && ValidNode(n) && Covers(n) && Named(n, name)
    && forall s :: s in n.spaces ==> s.node == node
  }

  lemma LocalKeepsGood(n: Node, v: VxlanSpec, props: Qdisc.Props, bypass: bool, f: Qdisc.Faults,
                       node: string, name: (string, int) -> string)
    requires Good(n, node, name) && v.end.space.node == node && v.end.name == name(v.end.space.ns, v.vni)
    requires LocalVxlan(n, v, props, bypass, f).1
    ensures Good(LocalVxlan(n, v, props, bypass, f).0, node, name)
  {
    var live := v.end.space in n.spaces;
    CreateOrUpdateEstablishes(n.links, v, live);
    var t := Net.CreateOrUpdate(n.links, v, live).0;
    var m := LocalVxlan(n, v, props, bypass, f).0;
    SetTreeKeepsValid(t, v.end, m.links[v.end].tree);
    assert m.links == SetTree(t, v.end, m.links[v.end].tree);
    forall e | e in m.links && m.links[e].Vxlan?
      ensures m.links[e].vni in m.vxlans && m.vxlans[m.links[e].vni] == e.space.ns
      ensures e.name == name(e.space.ns, m.links[e].vni)
    {
      assert m.links[e].vni == v.vni ==> IsVxlan(t, e, node, v.vni);
    }
  }

  lemma EvictionKeepsGood(n: Node, v: VxlanSpec, node: string, name: (string, int) -> string)
    requires Good(n, node, name) && v.end.space.node == node
    ensures Good(n.(links := Evicted(n, v)), node, name)
  {
  }

  lemma DelKeepsGood(n: Node, e: End, vni: int, node: string, name: (string, int) -> string)
    requires Good(n, node, name) && e.space.node == node && e.name == name(e.space.ns, vni)
    ensures Good(Deleted(n, e, vni, false), node, name)
  {
  }

  lemma PairKeepsGood(n: Node, a: VethEnd, b: VethEnd, props: Qdisc.Props, bypass: bool, node: string,
                      name: (string, int) -> string)
    requires Good(n, node, name) && a.end != b.end && a.end.space in n.spaces && b.end.space in n.spaces
    ensures Good(n.(links := SetupVeth(n.links, a, b, props, bypass).0), node, name)
  {
    SetupVethOutcome(n.links, a, b, props, bypass);
  }

  lemma DestroyKeepsGood(n: Node, s: Space, node: string, name: (string, int) -> string)
    requires Good(n, node, name)
    ensures Good(Destroyed(n, s), node, name)
  {
  }

  /** The nodes that a run of successful, well-named operations passes through. */
  ghost predicate Run(nodes: seq<Node>, ops: seq<Op>, node: string, name: (string, int) -> string) {
    && |nodes| == |ops| + 1
    && forall i :: 0 <= i < |ops| ==>
         WellNamed(nodes[i], ops[i], node, name) && Apply(nodes[i], ops[i]) == (nodes[i + 1], true)
  }

  /** In every such run the index covers the kernel, across replacement of interfaces, migration
      between namespaces and deletion. */
  lemma {:induction false} IndexCoversKernel(nodes: seq<Node>, ops: seq<Op>, node: string,
                                             name: (string, int) -> string, k: nat)
    requires Run(nodes, ops, node, name) && Good(nodes[0], node, name) && k <= |ops|
    ensures Good(nodes[k], node, name)
  {
    if k > 0 {
      IndexCoversKernel(nodes, ops, node, name, k - 1);
      var n, op := nodes[k - 1], ops[k - 1];
      assert Apply(n, op) == (nodes[k - 1 + 1], true);
      match op
      case Local(v, props, bypass, f) => LocalKeepsGood(n, v, props, bypass, f, node, name);
      case Remote(v, props, bypass, f) =>
        EvictionKeepsGood(n, v, node, name);
        LocalKeepsGood(n.(links := Evicted(n, v)), v, props, bypass, f, node, name);
      case Del(e, vni, refused) =>
        if refused {
          RefusedDeleteKeepsTheIndexExactlyWhen(n, e, vni, node, name);
        } else {
          DelKeepsGood(n, e, vni, node, name);
        }
      case Pair(a, b, props, bypass) => PairKeepsGood(n, a, b, props, bypass, node, name);
      case Gone(s) => DestroyKeepsGood(n, s, node, name);
    }
  }

  /** What coverage buys: a remote `Update` into a live namespace is never stopped by a VNI conflict,
      whereas `addLink` is, exactly when another namespace of the node still holds the VNI. */
  lemma UpdateIsNeverBlocked(n: Node, v: VxlanSpec, props: Qdisc.Props, bypass: bool)
    requires ValidNode(n) && Covers(n) && v.end.space in n.spaces
    requires !v.addr.Unparsable? && Ids.IsVni24(v.vni) && Qdisc.Plan(props).Some?
    ensures RemoteUpdate(n, v, props, bypass, Qdisc.NO_FAULTS).1
    ensures LocalVxlan(n, v, props, bypass, Qdisc.NO_FAULTS).1 <==> !HeldElsewhere(n.links, v.end.space, v.vni)
  {
    var t := Evicted(n, v);
    if v.vni in n.vxlans {
      DropVniKeepsValid(n.links, Space(v.end.space.node, n.vxlans[v.vni]), v.vni);
    }
    assert !HeldElsewhere(t, v.end.space, v.vni);
    CreateOrUpdateEstablishes(t, v, true);
    CreateOrUpdateEstablishes(n.links, v, true);
    NoFaultsNoDifference(t, v, true, props, bypass);
    NoFaultsNoDifference(n.links, v, true, props, bypass);
    if SameVxlan(n.links, v) {
      assert IsVxlan(n.links, v.end, v.end.space.node, v.vni);
    }
  }

  // ---- why the hypotheses are needed ----

  /** What a deletion does: the interface is gone, with its other end if it is a veth, unless the kernel refuses;
      all else stays; and the index loses the VNI exactly if it is recorded for this namespace. */
  lemma DeletedSpelledOut(n: Node, e: End, vni: int, refused: bool)
    ensures var m := Deleted(n, e, vni, refused);
            && (refused ==> m.links == n.links)
            && (!refused ==> e !in m.links)
            && (!refused && e in n.links && n.links[e].Veth? ==> n.links[e].peer !in m.links)
            && (forall d :: d in m.links ==> d in n.links && m.links[d] == n.links[d])
            && (forall d :: d in n.links && d !in m.links ==>
                  d == e || (e in n.links && n.links[e].Veth? && n.links[e].peer == d))
            && (vni in m.vxlans <==> vni in n.vxlans && n.vxlans[vni] != e.space.ns)
            && (forall v :: v != vni || v in m.vxlans ==> Lookup(m.vxlans, v) == Lookup(n.vxlans, v))
            && m.spaces == n.spaces
  {
  }

  /** A deletion whose removal the kernel refuses keeps the index covering the kernel exactly when the interface is not
      the link's VXLAN device. */
  lemma RefusedDeleteKeepsTheIndexExactlyWhen(n: Node, e: End, vni: int, node: string, name: (string, int) -> string)
    requires Good(n, node, name) && e.space.node == node && e.name == name(e.space.ns, vni)
    ensures Covers(Deleted(n, e, vni, true)) <==> !IsVxlan(n.links, e, node, vni)
  {
    var m := Deleted(n, e, vni, true);
    forall d | d in n.links && n.links[d].Vxlan? && n.links[d].vni == vni && d.space.ns == e.space.ns
      ensures d == e
    {
      assert d.space.node == node;
    }
  }

  /** Where coverage is lost, every later `Update` of the link into another namespace fails. */
  lemma RefusedDeleteBlocksUpdates(n: Node, e: End, w: VxlanSpec, props: Qdisc.Props, bypass: bool, f: Qdisc.Faults)
    requires ValidNode(n) && Covers(n) && IsVxlan(n.links, e, w.end.space.node, w.vni) && w.end.space != e.space
    ensures !RemoteUpdate(Deleted(n, e, w.vni, true), w, props, bypass, f).1
  {
    var m := Deleted(n, e, w.vni, true);
    assert HeldElsewhere(m.links, w.end.space, w.vni);
    assert Evicted(m, w) == m.links;
    CreateOrUpdateEstablishes(m.links, w, w.end.space in m.spaces);
    assert SameVxlan(m.links, w) ==> IsVxlan(m.links, w.end, w.end.space.node, w.vni);
  }

  /** `delLink` takes no mutex.  If a remote `Update` of the same link runs between its two halves, the
      device outlives its index entry, and every later `Update` of that link into another namespace fails. */
  lemma UnlockedDeleteLosesTheIndex(n: Node, v: VxlanSpec, props: Qdisc.Props, f: Qdisc.Faults,
                                    w: VxlanSpec, props': Qdisc.Props, f': Qdisc.Faults)
    requires ValidNode(n)
    requires RemoteUpdate(n.(links := Unplug(n.links, v.end)), v, props, false, f).1
    requires w.vni == v.vni && w.end.space.node == v.end.space.node && w.end.space != v.end.space
    ensures var between := RemoteUpdate(n.(links := Unplug(n.links, v.end)), v, props, false, f).0;
            var after := between.(vxlans := Forget(between.vxlans, v.vni, v.end.space.ns));
            !Covers(after) && !RemoteUpdate(after, w, props', false, f').1
  {
    var start := n.(links := Unplug(n.links, v.end));
    var live := v.end.space in n.spaces;
    UnplugKeepsValid(n.links, v.end);
    if v.vni in n.vxlans {
      DropVniKeepsValid(start.links, Space(v.end.space.node, n.vxlans[v.vni]), v.vni);
    }
    var t := Evicted(start, v);
    CreateOrUpdateEstablishes(t, v, live);
    var u := Net.CreateOrUpdate(t, v, live).0;
    var between := RemoteUpdate(start, v, props, false, f).0;
    SetTreeKeepsValid(u, v.end, between.links[v.end].tree);
    assert between.links == SetTree(u, v.end, between.links[v.end].tree);
    var after := between.(vxlans := Forget(between.vxlans, v.vni, v.end.space.ns));
    assert IsVxlan(after.links, v.end, v.end.space.node, v.vni);
    assert HeldElsewhere(after.links, w.end.space, w.vni);
    assert Evicted(after, w) == after.links;
    CreateOrUpdateEstablishes(after.links, w, w.end.space in after.spaces);
    if SameVxlan(after.links, w) {
      assert IsVxlan(after.links, w.end, v.end.space.node, v.vni);
    }
  }

  lemma LocalKeepsCovers(n: Node, v: VxlanSpec, props: Qdisc.Props, bypass: bool, f: Qdisc.Faults)
    requires ValidNode(n) && Covers(n) && LocalVxlan(n, v, props, bypass, f).1
    requires forall s :: s in n.spaces ==> s.node == v.end.space.node
    ensures var m := LocalVxlan(n, v, props, bypass, f).0;
            && Covers(m) && Lookup(m.vxlans, v.vni) == Some(v.end.space.ns)
            && v.end in m.links && m.links[v.end].Vxlan? && m.links[v.end].vni == v.vni
  {
    var live := v.end.space in n.spaces;
    CreateOrUpdateEstablishes(n.links, v, live);
    ShapingKeepsVnis(n.links, v, live, props, bypass, f);
    var t, m := Net.CreateOrUpdate(n.links, v, live).0, LocalVxlan(n, v, props, bypass, f).0;
    forall e | e in m.links && m.links[e].Vxlan?
      ensures m.links[e].vni in m.vxlans && m.vxlans[m.links[e].vni] == e.space.ns
    {
      assert e in t && t[e].Vxlan? && t[e].vni == m.links[e].vni;
      assert t[e].vni == v.vni ==> e == v.end || IsVxlan(t, e, v.end.space.node, v.vni);
    }
  }

  /** The steps of `delLink` between which an `Update` can run: removal, look into the index, deletion of the entry. */
  datatype Window = AfterRemoval | AfterLook

  /** `delLink` with an `Update` of the same link in one of its windows. */
  ghost function Interleaved(n: Node, e: End, v: VxlanSpec, props: Qdisc.Props, f: Qdisc.Faults, w: Window): Node {
    var removed := n.(links := Unplug(n.links, e));
    var updated := RemoteUpdate(removed, v, props, false, f).0;
    var looked := if w.AfterRemoval? then updated else removed;
    updated.(vxlans := if Lookup(looked.vxlans,
                                 v.vni) == Some(e.space.ns) then updated.vxlans - {v.vni} else updated.vxlans)
  }

  /** Exactly when an interleaving is harmful.  Before the look: if `Update` sets up its device in the namespace
      that the link is being deleted from.  After it: if that namespace was the one recorded, wherever the device goes.
      */
  lemma UnlockedDeleteKeepsTheIndexExactlyWhen(n: Node, e: End, v: VxlanSpec, props: Qdisc.Props, f: Qdisc.Faults,
                                               w: Window)
    requires ValidNode(n) && Covers(n) && e.space.node == v.end.space.node
    requires forall s :: s in n.spaces ==> s.node == v.end.space.node
    requires RemoteUpdate(n.(links := Unplug(n.links, e)), v, props, false, f).1
    ensures Covers(Interleaved(n, e, v, props, f, w)) <==>
            match w
            case AfterRemoval => v.end.space.ns != e.space.ns
            case AfterLook => Lookup(n.vxlans, v.vni) != Some(e.space.ns)
  {
    var start := n.(links := Unplug(n.links, e));
    UnplugKeepsValid(n.links, e);
    if v.vni in n.vxlans {
      DropVniKeepsValid(start.links, Space(v.end.space.node, n.vxlans[v.vni]), v.vni);
    }
    LocalKeepsCovers(start.(links := Evicted(start, v)), v, props, false, f);
  }

  /** An operation that fails keeps the index covering the kernel exactly when it failed before it had its device,
      or the device's namespace was recorded already. */
  lemma FailureKeepsTheIndexExactlyWhen(n: Node, v: VxlanSpec, props: Qdisc.Props, bypass: bool, f: Qdisc.Faults)
    requires ValidNode(n) && Covers(n) && !LocalVxlan(n, v, props, bypass, f).1
    ensures Covers(LocalVxlan(n, v, props, bypass, f).0) <==>
            || v.addr.Unparsable?
            || !(SameVxlan(n.links, v) || Free(n.links, v, v.end.space in n.spaces))
            || Lookup(n.vxlans, v.vni) == Some(v.end.space.ns)
  {
    var live := v.end.space in n.spaces;
    CreateOrUpdateEstablishes(n.links, v, live);
    var (t, made) := Net.CreateOrUpdate(n.links, v, live);
    var m := LocalVxlan(n, v, props, bypass, f).0;
    if made {
      ShapingKeepsVnis(n.links, v, live, props, bypass, f);
      SameVnisSameCover(n.(links := t), m);
      MadeCoversExactlyWhen(n, v, live);
    } else {
      FailedMakeKeepsCover(n, v, live);
    }
  }

  lemma MadeCoversExactlyWhen(n: Node, v: VxlanSpec, live: bool)
    requires ValidNode(n) && Covers(n) && Net.CreateOrUpdate(n.links, v, live).1
    ensures Covers(n.(links := Net.CreateOrUpdate(n.links, v, live).0)) <==>
              Lookup(n.vxlans, v.vni) == Some(v.end.space.ns)
  {
    CreateOrUpdateEstablishes(n.links, v, live);
    var t := Net.CreateOrUpdate(n.links, v, live).0;
    assert v.end in t && t[v.end].Vxlan? && t[v.end].vni == v.vni;
  }

  /** Shaping does not matter to the index. */
  lemma SameVnisSameCover(n: Node, m: Node)
    requires n.vxlans == m.vxlans && n.links.Keys == m.links.Keys
    requires forall e :: e in n.links ==> n.links[e].Vxlan? == m.links[e].Vxlan?
    requires forall e :: e in n.links && n.links[e].Vxlan? ==> n.links[e].vni == m.links[e].vni
    ensures Covers(n) <==> Covers(m)
  {
  }

  lemma FailedMakeKeepsCover(n: Node, v: VxlanSpec, live: bool)
    requires ValidNode(n) && Covers(n) && !Net.CreateOrUpdate(n.links, v, live).1
    ensures Covers(n.(links := Net.CreateOrUpdate(n.links, v, live).0))
  {
    CreateOrUpdateEstablishes(n.links, v, live);
    var t := Net.CreateOrUpdate(n.links, v, live).0;
    assert v.end in t ==> v.end in n.links && t[v.end] == n.links[v.end];
  }

  /** So properties that do not parse, such as the fractional rates that the validation of the custom resource admits,
      leave a device out of the index. */
  lemma FailedShapingLosesTheIndex(n: Node, v: VxlanSpec, props: Qdisc.Props, bypass: bool, f: Qdisc.Faults)
    requires ValidNode(n) && Covers(n) && Lookup(n.vxlans, v.vni) != Some(v.end.space.ns)
    requires !v.addr.Unparsable? && (SameVxlan(n.links, v) || Free(n.links, v, v.end.space in n.spaces))
    requires Qdisc.Plan(props).None?
    ensures var (m, ok) := LocalVxlan(n, v, props, bypass, f); !ok && !Covers(m)
  {
    FailureKeepsTheIndexExactlyWhen(n, v, props, bypass, f);
  }
}
