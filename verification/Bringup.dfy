/** Link bring-up across the cluster (`daemon/kubedtn/handler.go`): every pod's daemon runs `SetupPod`, which
    publishes the pod as alive and then adds its links one by one, calling the peer's daemon for links
    between nodes.  The runs of all pods are interleaved step by step. */
module Bringup {
  import opened Net
  import Ids
  import Qdisc

  // ---- clusters ----

  /** A link as its pod's topology declares it; `peer` is the index of the peer pod. */
  datatype Link = Link(uid: int, peer: nat, localIntf: string, peerIntf: string, localIp: Addr, peerIp: Addr,
                       localMac: Addr, peerMac: Addr, props: Qdisc.Props)

  datatype Pod = Pod(space: Space, links: seq<Link>)

  /** `lag`: a status read may miss earlier writes, as reads through an informer can.
      `hold`: the variant that keeps the link mutex while it calls the peer's daemon. */
  datatype Cluster = Cluster(pods: seq<Pod>, bypass: bool, lag: bool, hold: bool)

  predicate InPod(c: Cluster, p: nat, i: nat) { p < |c.pods| && i < |c.pods[p].links| }

  function LinkOf(c: Cluster, p: nat, i: nat): Link
    requires InPod(c, p, i)
  {
    c.pods[p].links[i]
  }

  predicate IsLink(c: Cluster, p: nat, i: nat) { InPod(c, p, i) && LinkOf(c, p, i).peer < |c.pods| }

  predicate SameHost(c: Cluster, p: nat, i: nat)
    requires IsLink(c, p, i)
  {
    c.pods[p].space.node == c.pods[LinkOf(c, p, i).peer].space.node
  }

  /** Link `j` of pod `q` is the other pod's declaration of link `i` of pod `p`; properties may differ. */
  predicate Twin(c: Cluster, p: nat, i: nat, q: nat, j: nat) {
    && InPod(c, p, i) && InPod(c, q, j) && p != q
    && var l, m := LinkOf(c, p, i), LinkOf(c, q, j);
       && l.peer == q && m.peer == p && l.uid == m.uid
       && l.localIntf == m.peerIntf && l.peerIntf == m.localIntf
       && l.localIp == m.peerIp && l.peerIp == m.localIp
       && l.localMac == m.peerMac && l.peerMac == m.localMac
  }

  ghost predicate LinkFine(l: Link, pods: nat) {
    && l.peer < pods && 0 <= l.uid <= Ids.MAX_UID && Qdisc.Plan(l.props).Some?
    && !l.localIp.Unparsable? && !l.peerIp.Unparsable? && !l.localMac.Unparsable? && !l.peerMac.Unparsable?
  }

  /** Pods sit in namespaces of their own, interface names are unique within a pod, every link is declared by
      both its pods, and a UID names one link. */
  ghost predicate WellFormed(c: Cluster) {
    && (forall p: nat, i: nat :: InPod(c, p, i) ==> LinkFine(LinkOf(c, p, i), |c.pods|))
    && (forall p: nat, q: nat :: p < q < |c.pods| ==> c.pods[p].space != c.pods[q].space)
    && (forall p: nat, i: nat, k: nat :: InPod(c, p, i) && InPod(c, p, k) ==>
          (LinkOf(c, p, i).localIntf == LinkOf(c, p, k).localIntf ==> i == k))
    && (forall p: nat, i: nat :: InPod(c, p, i) ==> exists j: nat :: Twin(c, p, i, LinkOf(c, p, i).peer, j))
    && (forall p: nat, i: nat, q: nat, j: nat :: InPod(c, p, i) && InPod(c, q, j) ==>
          (LinkOf(c, p, i).uid == LinkOf(c, q, j).uid ==> (p == q && i == j) || Twin(c, p, i, q, j)))
  }

  // ---- what a handler works on ----

  /** Whose daemon does the work: the pod's own, or the peer's on its behalf (`Update`). */
  datatype Side = Mine | Theirs

  datatype Mutex = Mutex(node: string, uid: int)

  datatype Slot = Slot(node: string, vni: int)

  function MyEnd(c: Cluster, p: nat, i: nat): End
    requires InPod(c, p, i)
  {
    End(c.pods[p].space, LinkOf(c, p, i).localIntf)
  }

  function PeerEnd(c: Cluster, p: nat, i: nat): End
    requires IsLink(c, p, i)
  {
    End(c.pods[LinkOf(c, p, i).peer].space, LinkOf(c, p, i).peerIntf)
  }

  /** The VXLAN device that `addLink` sets up locally, or asks the peer's daemon for. */
  function Device(c: Cluster, p: nat, i: nat, side: Side): VxlanSpec
    requires IsLink(c, p, i)
  {
    var l := LinkOf(c, p, i);
    match side
    case Mine => VxlanSpec(MyEnd(c, p, i), l.localIp, PeerEnd(c, p, i).space.node, Ids.VniFromUid(l.uid))
    case Theirs => VxlanSpec(PeerEnd(c, p, i), l.peerIp, MyEnd(c, p, i).space.node, Ids.VniFromUid(l.uid))
  }

  /** The mutex taken for that work.  The remote daemon rebuilds the key from the VNI. */
  function MutexOf(c: Cluster, p: nat, i: nat, side: Side): Mutex
    requires IsLink(c, p, i)
  {
    var uid := LinkOf(c, p, i).uid;
    match side
    case Mine => Mutex(MyEnd(c, p, i).space.node, uid)
    case Theirs => Mutex(PeerEnd(c, p, i).space.node, Ids.UidFromVni(Ids.VniFromUid(uid)))
  }

  function SlotOf(v: VxlanSpec): Slot { Slot(v.end.space.node, v.vni) }

  function MyVeth(c: Cluster, p: nat, i: nat): VethEnd
    requires InPod(c, p, i)
  {
    VethEnd(MyEnd(c, p, i), LinkOf(c, p, i).localIp, LinkOf(c, p, i).localMac)
  }

  function PeerVeth(c: Cluster, p: nat, i: nat): VethEnd
    requires IsLink(c, p, i)
  {
    VethEnd(PeerEnd(c, p, i), LinkOf(c, p, i).peerIp, LinkOf(c, p, i).peerMac)
  }

  /** Who shaped an interface last: the link's declaration used, and the side it was done on. */
  datatype Shaper = Shaper(pod: nat, link: nat, side: Side)

  /** The qdisc tree a shaper leaves.  The remote `Update` never installs the bypass filter. */
  ghost function TreeBy(c: Cluster, w: Shaper): Qdisc.Tree {
    if InPod(c, w.pod, w.link) && Qdisc.Plan(LinkOf(c, w.pod, w.link).props).Some?
    then Qdisc.Wanted(LinkOf(c, w.pod, w.link).props, w.side.Mine? && c.bypass)
    else Qdisc.EMPTY
  }

  // ---- states and steps ----

  datatype Stage = Want | Evict | Look | Make | Shape | ShapePeer | Index | Out

  datatype Phase = Read | OnVeth(stage: Stage) | OnVxlan(side: Side, stage: Stage)

  datatype Pc = Start | At(link: nat, phase: Phase) | Done | Failed

  /** `skipped` and `shaper` record history: links passed over because the peer did not look alive, and who
      shaped each interface last. */
  datatype State = State(alive: set<nat>, table: Table, index: map<Slot, string>, locks: map<Mutex, nat>,
                         pcs: seq<Pc>, skipped: set<(nat, nat)>, shaper: map<End, Shaper>)

  /** A pod's run goes on, reads a stale status, or fails. */
  datatype Action = Go | Stale | Crash

  function NextLink(c: Cluster, p: nat, i: nat): Pc
    requires p < |c.pods|
  {
    if i < |c.pods[p].links| then At(i, Read) else Done
  }

  /** What a step does besides locking: where the run goes, and the data it leaves. */
  datatype Work = Work(pc: Pc, table: Table, index: map<Slot, string>, shaper: map<End, Shaper>)

  function Move(s: State, pc: Pc): Work { Work(pc, s.table, s.index, s.shaper) }

  ghost function ShapeEnd(c: Cluster, s: State, pc: Pc, e: End, w: Shaper): Work {
    Work(pc, SetTree(s.table, e, TreeBy(c, w)), s.index, s.shaper[e := w])
  }

  /** `SetupVeth` under the link mutex: look for both names, make the pair, shape both ends. */
  ghost function VethWork(c: Cluster, s: State, p: nat, i: nat, stage: Stage): Work
    requires IsLink(c, p, i)
  {
    var a, b := MyVeth(c, p, i), PeerVeth(c, p, i);
    match stage
    case Want => Move(s, At(i, OnVeth(Look)))
    case Look => Move(s, At(i, OnVeth(if a.end in s.table && b.end in s.table then Out else Make)))
    case Make => Move(s, At(i, OnVeth(Shape))).(table := AddVeth(ClearOneEnd(s.table, a, b), a, b))
    case Shape => ShapeEnd(c, s, At(i, OnVeth(ShapePeer)), a.end, Shaper(p, i, Mine))
    case ShapePeer => ShapeEnd(c, s, At(i, OnVeth(Out)), b.end, Shaper(p, i, Mine))
    case Out => Move(s, NextLink(c, p, i + 1))
    case _ => Move(s, Failed)
  }

  /** The table after the eviction that only the remote `Update` makes. */
  function EvictedTable(s: State, v: VxlanSpec): Table {
    if SlotOf(v) in s.index && s.index[SlotOf(v)] != v.end.space.ns
    then DropVni(s.table, Space(v.end.space.node, s.index[SlotOf(v)]), v.vni) else s.table
  }

  /** `SetupVxLan` and the index entry, under the link mutex of the node where the device lives.  After its own
      side the run calls the peer's daemon, which does the same for the other side. */
  ghost function VxlanWork(c: Cluster, s: State, p: nat, i: nat, side: Side, stage: Stage): Work
    requires IsLink(c, p, i)
  {
    var v := Device(c, p, i, side);
    match stage
    case Want => Move(s, At(i, OnVxlan(side, if side.Mine? then Look else Evict)))
    case Evict => Move(s, At(i, OnVxlan(side, Look))).(table := EvictedTable(s, v))
    case Look => Move(s, At(i, OnVxlan(side, if SameVxlan(s.table, v) then Shape else Make)))
    case Make =>
      var (t, ok) := Rebuild(s.table, v, true);
      Move(s, if ok then At(i, OnVxlan(side, Shape)) else Failed).(table := t)
    case Shape => ShapeEnd(c, s, At(i, OnVxlan(side, Index)), v.end, Shaper(p, i, side))
    case Index => Move(s, At(i, OnVxlan(side, Out))).(index := s.index[SlotOf(v) := v.end.space.ns])
    case Out => Move(s, if side.Mine? then At(i, OnVxlan(Theirs, Want)) else NextLink(c, p, i + 1))
    case _ => Move(s, Failed)
  }

  predicate PcFits(c: Cluster, p: nat, pc: Pc) { pc.At? ==> IsLink(c, p, pc.link) }

  /** The run reads its peer as not alive. */
  predicate ReadsDead(c: Cluster, s: State, p: nat, a: Action) {
    && p < |c.pods| == |s.pcs| && s.pcs[p].At? && s.pcs[p].phase.Read? && IsLink(c, p, s.pcs[p].link)
    && (a.Stale? || (a.Go? && LinkOf(c, p, s.pcs[p].link).peer !in s.alive))
  }

  ghost function WorkOf(c: Cluster, s: State, p: nat, a: Action): Work
    requires p < |c.pods| == |s.pcs| && PcFits(c, p, s.pcs[p])
  {
    if a.Crash? then Move(s, Failed)
    else match s.pcs[p]
    case Start => Move(s, NextLink(c, p, 0))
    case At(i, Read) =>
      Move(s, if ReadsDead(c, s, p, a) then NextLink(c, p, i + 1)
              else At(i, if SameHost(c, p, i) then OnVeth(Want) else OnVxlan(Mine, Want)))
    case At(i, OnVeth(stage)) => VethWork(c, s, p, i, stage)
    case At(i, OnVxlan(side, stage)) => VxlanWork(c, s, p, i, side, stage)
    case _ => Move(s, s.pcs[p])
  }

  /** The mutex of the work at hand. */
  function CurrentMutex(c: Cluster, p: nat, pc: Pc): Mutex
    requires pc.At? && IsLink(c, p, pc.link) && !pc.phase.Read?
  {
    MutexOf(c, p, pc.link, if pc.phase.OnVeth? then Mine else pc.phase.side)
  }

  /** A mutex is taken on leaving `Want` and released on leaving `Out`; a handler that fails returns, which
      releases what it holds.  The `hold` variant keeps its own node's mutex during the call. */
  function LocksAfter(c: Cluster, s: State, p: nat, pc: Pc): map<Mutex, nat>
    requires p < |s.pcs| && PcFits(c, p, s.pcs[p])
  {
    if pc.Failed? then map m | m in s.locks && s.locks[m] != p :: s.locks[m]
    else if !s.pcs[p].At? || s.pcs[p].phase.Read? then s.locks
    else
      var m := CurrentMutex(c, p, s.pcs[p]);
      if s.pcs[p].phase.stage.Want? then s.locks[m := p]
      else if !s.pcs[p].phase.stage.Out? then s.locks
      else if !c.hold || s.pcs[p].phase.OnVeth? then s.locks - {m}
      else if s.pcs[p].phase.side.Mine? then s.locks
      else s.locks - {m, MutexOf(c, p, s.pcs[p].link, Mine)}
  }

  /** A run that wants a mutex waits until it is free. */
  predicate Enabled(c: Cluster, s: State, p: nat, a: Action) {
    && p < |c.pods| == |s.pcs| && PcFits(c, p, s.pcs[p])
    && !s.pcs[p].Done? && !s.pcs[p].Failed?
    && match a
       case Go => s.pcs[p].At? && !s.pcs[p].phase.Read? && s.pcs[p].phase.stage.Want? ==>
           CurrentMutex(c, p, s.pcs[p]) !in s.locks
       case Stale => c.lag && s.pcs[p].At? && s.pcs[p].phase.Read?
       case Crash => true
  }

  ghost function Step(c: Cluster, s: State, p: nat, a: Action): State
    requires Enabled(c, s, p, a)
  {
    var w := WorkOf(c, s, p, a);
    State(if s.pcs[p].Start? && a.Go? then s.alive + {p} else s.alive,
          w.table, w.index, LocksAfter(c, s, p, w.pc), s.pcs[p := w.pc],
          if ReadsDead(c, s, p, a) then s.skipped + {(p, s.pcs[p].link)} else s.skipped,
          w.shaper)
  }

  /** No pod is up yet; the interfaces and index entries of the cluster's links do not exist. */
  ghost predicate Fresh(c: Cluster, table: Table, index: map<Slot, string>) {
    forall p: nat, i: nat :: IsLink(c, p, i) ==>
      && MyEnd(c, p, i) !in table
      && SlotOf(Device(c, p, i, Mine)) !in index
      && !HasVni(table, MyEnd(c, p, i).space.node, Device(c, p, i, Mine).vni)
  }

  function Init(c: Cluster, table: Table, index: map<Slot, string>): State {
    State({}, table, index, map[], seq(|c.pods|, _ => Start), {}, map[])
  }

  datatype Event = Event(pod: nat, act: Action)

  /** A run of the cluster. */
  ghost predicate Run(c: Cluster, states: seq<State>, events: seq<Event>) {
    && |states| == |events| + 1
    && forall k :: 0 <= k < |events| ==> StepAt(c, states, events, k)
  }

  ghost predicate StepAt(c: Cluster, states: seq<State>, events: seq<Event>, k: nat)
    requires k < |events| && k + 1 < |states|
  {
    && Enabled(c, states[k], events[k].pod, events[k].act)
    && states[k + 1] == Step(c, states[k], events[k].pod, events[k].act)
  }
}
