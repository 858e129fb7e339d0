/** What every step of the bring-up protocol keeps. */
module BringupInvariant {
  import opened Net
  import opened Bringup
  import opened Options
  import Ids

  // ---- facts about well-formed clusters ----

  lemma LinksAreFine(c: Cluster, p: nat, i: nat)
    requires WellFormed(c) && InPod(c, p, i)
    ensures IsLink(c, p, i) && LinkFine(LinkOf(c, p, i), |c.pods|)
  {
  }

  /** The twin's own view of a link is this pod's view of the far side. */
  lemma TwinViews(c: Cluster, p: nat, i: nat, q: nat, j: nat)
    requires WellFormed(c) && Twin(c, p, i, q, j)
    ensures Twin(c, q, j, p, i) && IsLink(c, p, i) && IsLink(c, q, j)
    ensures PeerEnd(c, p, i) == MyEnd(c, q, j) != MyEnd(c, p, i)
    ensures PeerVeth(c, p, i) == MyVeth(c, q, j)
    ensures Device(c, p, i, Theirs) == Device(c, q, j, Mine)
    ensures MutexOf(c, p, i, Theirs) == MutexOf(c, q, j, Mine)
    ensures SameHost(c, p, i) == SameHost(c, q, j)
    ensures SameHost(c, p, i) ==> MutexOf(c, p, i, Mine) == MutexOf(c, q, j, Mine)
  {
    LinksAreFine(c, p, i);
    Ids.SupportedUids(LinkOf(c, p, i).uid, 0);
  }

  lemma HasTwin(c: Cluster, p: nat, i: nat) returns (q: nat, j: nat)
    requires WellFormed(c) && InPod(c, p, i)
    ensures Twin(c, p, i, q, j)
  {
    q := LinkOf(c, p, i).peer;
    j :| Twin(c, p, i, q, j);
  }

  lemma EndsAreDistinct(c: Cluster, p: nat, i: nat, q: nat, j: nat)
    requires WellFormed(c) && InPod(c, p, i) && InPod(c, q, j)
    requires MyEnd(c, p, i) == MyEnd(c, q, j)
    ensures p == q && i == j
  {
    assert !(p < q) && !(q < p);
  }

  lemma TwinIsUnique(c: Cluster, p: nat, i: nat, q: nat, j: nat, q': nat, j': nat)
    requires WellFormed(c) && Twin(c, p, i, q, j) && Twin(c, p, i, q', j')
    ensures q == q' && j == j'
  {
    assert LinkOf(c, q, j).localIntf == LinkOf(c, q, j').localIntf;
  }

  /** Two links of the cluster on the same node have the same VNI only if they are one link. */
  lemma VnisAreDistinct(c: Cluster, p: nat, i: nat, q: nat, j: nat)
    requires WellFormed(c) && InPod(c, p, i) && InPod(c, q, j)
    requires Ids.VniFromUid(LinkOf(c, p, i).uid) == Ids.VniFromUid(LinkOf(c, q, j).uid)
    ensures (p == q && i == j) || Twin(c, p, i, q, j)
  {
    LinksAreFine(c, p, i);
    LinksAreFine(c, q, j);
    Ids.SupportedUids(LinkOf(c, p, i).uid, LinkOf(c, q, j).uid);
  }

  /** A mutex belongs to one link, on the node where the work is done. */
  lemma MutexTellsLink(c: Cluster, p: nat, i: nat, side: Side, q: nat, j: nat, side': Side)
    requires WellFormed(c) && InPod(c, p, i) && InPod(c, q, j)
    ensures IsLink(c, p, i) && IsLink(c, q, j)
    ensures MutexOf(c, p, i, side) == MutexOf(c, q, j, side') <==>
            && LinkOf(c, p, i).uid == LinkOf(c, q, j).uid
            && Device(c, p, i, side).end.space.node == Device(c, q, j, side').end.space.node
  {
    LinksAreFine(c, p, i);
    LinksAreFine(c, q, j);
    Ids.SupportedUids(LinkOf(c, p, i).uid, LinkOf(c, q, j).uid);
  }

  ghost predicate PeersKnown(c: Cluster) {
    forall p: nat, i: nat :: InPod(c, p, i) ==> IsLink(c, p, i)
  }

  // ---- control ----

  predicate PcOk(c: Cluster, p: nat, pc: Pc) {
    match pc
    case At(i, Read) => IsLink(c, p, i)
    case At(i, OnVeth(stage)) => IsLink(c, p, i) && SameHost(c, p, i) && !stage.Evict? && !stage.Index?
    case At(i, OnVxlan(side, stage)) =>
      IsLink(c, p, i) && !SameHost(c, p, i) && !stage.ShapePeer? && !(side.Mine? && stage.Evict?)
    case _ => true
  }

  /** A run holds a mutex from the step that takes it to the one that releases it. */
  predicate Owns(c: Cluster, s: State, p: nat, m: Mutex) {
    && p < |s.pcs| && PcFits(c, p, s.pcs[p])
    && match s.pcs[p]
       case At(i, OnVeth(stage)) => !stage.Want? && m == MutexOf(c, p, i, Mine)
       case At(i, OnVxlan(side, stage)) => !stage.Want? && m == MutexOf(c, p, i, side)
       case _ => false
  }

  ghost predicate PcsOk(c: Cluster, s: State) {
    |s.pcs| == |c.pods| && forall p: nat :: p < |s.pcs| ==> PcOk(c, p, s.pcs[p])
  }

  /** A mutex is locked exactly by the one run that is between taking and releasing it. */
  ghost predicate LocksOk(c: Cluster, s: State) {
    forall p: nat, m :: Owns(c, s, p, m) <==> m in s.locks && s.locks[m] == p
  }

  /** A pod is alive from its first step on. */
  ghost predicate AliveOk(s: State) {
    forall p: nat :: p < |s.pcs| ==>
      (s.pcs[p].Start? ==> p !in s.alive) && (s.pcs[p].At? || s.pcs[p].Done? ==> p in s.alive)
  }

  // ---- progress on one link ----

  /** How far a run is on one of its links. */
  datatype Prog = Ahead | In(phase: Phase) | Skipped | Finished | Lost

  function ProgOf(s: State, p: nat, i: nat): Prog
    requires p < |s.pcs|
  {
    match s.pcs[p]
    case Start => Ahead
    case Failed => Lost
    case Done => if (p, i) in s.skipped then Skipped else Finished
    case At(k, phase) =>
      if k < i || (k == i && phase.Read?) then Ahead
      else if k == i then In(phase)
      else if (p, i) in s.skipped then Skipped else Finished
  }

  /** A run records a skip only for links it has passed, and it passes links only once it is alive. */
  ghost predicate SkipsOk(c: Cluster, s: State) {
    forall p: nat, i: nat :: (p, i) in s.skipped && p < |s.pcs| ==>
      p in s.alive && (s.pcs[p].Failed? || s.pcs[p].Done? || (s.pcs[p].At? && i < s.pcs[p].link))
  }

  /** Publishing before reading: without lag the two pods of a link never both skip it. */
  ghost predicate NeverBothSkip(c: Cluster, s: State) {
    !c.lag ==> forall p: nat, i: nat, q: nat, j: nat :: Twin(c, p, i, q, j) ==>
        !((p, i) in s.skipped && (q, j) in s.skipped)
  }

  predicate MadeVeth(x: Prog) {
    x.Finished? || (x.In? && x.phase.OnVeth?
                    && (x.phase.stage.Shape? || x.phase.stage.ShapePeer? || x.phase.stage.Out?))
  }

  predicate ShapingVeth(x: Prog) { AtVeth(x, Shape) || AtVeth(x, ShapePeer) }

  predicate AtVeth(x: Prog, stage: Stage) { x == In(OnVeth(stage)) }

  /** A link within a node, with ends `a` (of `p`) and `b` (of `q`). */
  ghost predicate VethOk(c: Cluster, s: State, p: nat, i: nat, q: nat, j: nat)
    requires Twin(c, p, i, q, j) && p < |s.pcs| && q < |s.pcs|
  {
    var a, b := MyVeth(c, p, i), MyVeth(c, q, j);
    var x, y := ProgOf(s, p, i), ProgOf(s, q, j);
    && (a.end in s.table <==> b.end in s.table)
    && (MadeVeth(x) ==> a.end in s.table)
    && (a.end in s.table ==> MadeVeth(x) || MadeVeth(y) || x.Lost? || y.Lost?)
    && (a.end in s.table ==> s.table[a.end].Veth? && s.table[a.end] == Veth(b.end, a.addr, a.mac, s.table[a.end].tree))
    && (AtVeth(x, Make) ==> a.end !in s.table)
    && (AtVeth(x, ShapePeer) ==>
          && a.end in s.shaper && s.shaper[a.end] == Shaper(p, i, Mine)
          && s.table[a.end].tree == TreeBy(c, s.shaper[a.end]))
    && (a.end in s.table && !x.Lost? && !y.Lost? && !ShapingVeth(x) && !ShapingVeth(y) ==>
          && a.end in s.shaper && b.end in s.shaper && s.shaper[a.end] == s.shaper[b.end]
          && (s.shaper[a.end] == Shaper(p, i, Mine) || s.shaper[a.end] == Shaper(q, j, Mine))
          && s.table[a.end].tree == TreeBy(c, s.shaper[a.end]))
  }

  /** What a run has done to one end of a link between nodes. */
  datatype Touch = Idle | Making | Shaping | Indexing | Settled | Gone

  /** The progress of a run on the end that it works on as the given side. */
  function TouchOf(x: Prog, side: Side): Touch {
    match x
    case Lost => Gone
    case Finished => Settled
    case In(OnVxlan(at, stage)) =>
      if at != side then (if side.Mine? then Settled else Idle)
      else (match stage
            case Make => Making
            case Shape => Shaping
            case Index => Indexing
            case Out => Settled
            case _ => Idle)
    case _ => Idle
  }

  predicate HasMade(a: Touch) { a.Shaping? || a.Indexing? || a.Settled? }

  /** One end of a link between nodes: `a` and `b` are what the runs of its own pod and of the peer have done to
      it, `f`, `w` and `ns` the interface, its last shaper and its index entry. */
  ghost predicate EndOk(c: Cluster, v: VxlanSpec, a: Touch, b: Touch, mine: Shaper, theirs: Shaper,
                        f: Option<Iface>, w: Option<Shaper>, ns: Option<string>) {
    && (HasMade(a) || HasMade(b) ==> f.Some?)
    && (f.Some? ==> HasMade(a) || HasMade(b) || a.Gone? || b.Gone?)
    && (f.Some? ==> f.value.Vxlan? && f.value == Vxlan(v.vni, v.group, v.addr, f.value.tree))
    && (a.Making? || b.Making? ==> f.None?)
    && (f.Some? && !a.Gone? && !b.Gone? && !a.Shaping? && !b.Shaping? ==>
          w.Some? && (w.value == mine || w.value == theirs) && f.value.tree == TreeBy(c, w.value))
    && (ns.Some? ==> ns.value == v.end.space.ns)
    && (a.Settled? || b.Settled? ==> ns.Some?)
  }

  /** The end of `p` on a link between nodes.  It is worked on by `p`'s own run and, through the remote
      `Update`, by that of `q`. */
  ghost predicate VxlanOk(c: Cluster, s: State, p: nat, i: nat, q: nat, j: nat)
    requires Twin(c, p, i, q, j) && p < |s.pcs| && q < |s.pcs|
  {
    var v := Device(c, p, i, Mine);
    EndOk(c, v, TouchOf(ProgOf(s, p, i), Mine), TouchOf(ProgOf(s, q, j), Theirs), Shaper(p, i, Mine),
          Shaper(q, j, Theirs),
          Lookup(s.table, v.end), Lookup(s.shaper, v.end), Lookup(s.index, SlotOf(v)))
  }

  ghost predicate LinkOk(c: Cluster, s: State, p: nat, i: nat, q: nat, j: nat)
    requires Twin(c, p, i, q, j) && p < |s.pcs| && q < |s.pcs|
  {
    if SameHost(c, p, i) then VethOk(c, s, p, i, q, j) else VxlanOk(c, s, p, i, q, j)
  }

  ghost predicate LinksOk(c: Cluster, s: State)
    requires |s.pcs| == |c.pods|
  {
    forall p: nat, i: nat, q: nat, j: nat :: Twin(c, p, i, q, j) ==> LinkOk(c, s, p, i, q, j)
  }

  predicate SameAt(t: Table, u: Table, e: End) { (e in t <==> e in u) && (e in t ==> t[e] == u[e]) }

  ghost predicate IsEnd(c: Cluster, e: End) { exists p: nat, i: nat :: InPod(c, p, i) && MyEnd(c, p, i) == e }

  /** Nothing but the links' own interfaces changes. */
  ghost predicate RestOk(c: Cluster, base: Table, s: State) {
    forall e :: !IsEnd(c, e) ==> SameAt(s.table, base, e)
  }

  ghost predicate Control(c: Cluster, s: State) {
    PcsOk(c, s) && LocksOk(c, s) && AliveOk(s) && SkipsOk(c, s) && NeverBothSkip(c, s)
  }

  ghost predicate Inv(c: Cluster, base: Table, s: State) {
    Control(c, s) && LinksOk(c, s) && RestOk(c, base, s)
  }

  // ---- control is kept ----

  /** The control graph: where a run can go from a program counter, whatever the data. */
  predicate Follows(c: Cluster, p: nat, pc: Pc, next: Pc)
    requires p < |c.pods|
  {
    || next.Failed?
    || match pc
       case Start => next == NextLink(c, p, 0)
       case At(i, Read) =>
         || next == NextLink(c, p, i + 1)
         || (IsLink(c, p, i) && next == At(i, if SameHost(c, p, i) then OnVeth(Want) else OnVxlan(Mine, Want)))
       case At(i, OnVeth(stage)) =>
         (match stage
          case Want => next == At(i, OnVeth(Look))
          case Look => next == At(i, OnVeth(Out)) || next == At(i, OnVeth(Make))
          case Make => next == At(i, OnVeth(Shape))
          case Shape => next == At(i, OnVeth(ShapePeer))
          case ShapePeer => next == At(i, OnVeth(Out))
          case Out => next == NextLink(c, p, i + 1)
          case _ => false)
       case At(i, OnVxlan(side, stage)) =>
         (match stage
          case Want => next == At(i, OnVxlan(side, if side.Mine? then Look else Evict))
          case Evict => next == At(i, OnVxlan(side, Look))
          case Look => next == At(i, OnVxlan(side, Shape)) || next == At(i, OnVxlan(side, Make))
          case Make => next == At(i, OnVxlan(side, Shape))
          case Shape => next == At(i, OnVxlan(side, Index))
          case Index => next == At(i, OnVxlan(side, Out))
          case Out => next == if side.Mine? then At(i, OnVxlan(Theirs, Want)) else NextLink(c, p, i + 1)
          case _ => false)
       case _ => false
  }

  lemma VethFollows(c: Cluster, s: State, p: nat, i: nat, stage: Stage)
    requires IsLink(c, p, i)
    ensures Follows(c, p, At(i, OnVeth(stage)), VethWork(c, s, p, i, stage).pc)
  {
  }

  lemma VxlanFollows(c: Cluster, s: State, p: nat, i: nat, side: Side, stage: Stage)
    requires IsLink(c, p, i)
    ensures Follows(c, p, At(i, OnVxlan(side, stage)), VxlanWork(c, s, p, i, side, stage).pc)
  {
  }

  lemma WorkFollows(c: Cluster, s: State, p: nat, a: Action)
    requires Enabled(c, s, p, a)
    ensures Follows(c, p, s.pcs[p], WorkOf(c, s, p, a).pc)
    ensures a.Crash? ==> WorkOf(c, s, p, a).pc == Failed
  {
    match s.pcs[p]
    case At(i, OnVeth(stage)) => VethFollows(c, s, p, i, stage);
    case At(i, OnVxlan(side, stage)) => VxlanFollows(c, s, p, i, side, stage);
    case _ =>
  }

  lemma FollowsFits(c: Cluster, p: nat, pc: Pc, next: Pc)
    requires p < |c.pods| && PeersKnown(c) && PcOk(c, p, pc) && Follows(c, p, pc, next)
    ensures PcOk(c, p, next)
  {
  }

  /** `s'` is `s` after run `p` moved to `next`, as far as control goes. */
  ghost predicate Moved(c: Cluster, s: State, p: nat, next: Pc, s': State) {
    && PcsOk(c, s) && p < |c.pods| && Follows(c, p, s.pcs[p], next) && PcOk(c, p, next)
    && s'.pcs == s.pcs[p := next] && s'.locks == LocksAfter(c, s, p, next)
  }

  /** How a step changes what its run holds: not at all, by taking a free mutex, or by letting go. */
  lemma OneMutexMoves(c: Cluster, s: State, p: nat, next: Pc, s': State)
    requires !c.hold && LocksOk(c, s) && Moved(c, s, p, next, s')
    requires !next.Failed? && s.pcs[p].At? && !s.pcs[p].phase.Read? && s.pcs[p].phase.stage.Want? ==>
               CurrentMutex(c, p, s.pcs[p]) !in s.locks
    ensures || (s'.locks == s.locks && forall m :: Owns(c, s', p, m) <==> Owns(c, s, p, m))
            || (exists n :: n !in s.locks && s'.locks == s.locks[n := p] && forall m :: Owns(c, s', p, m) <==> m == n)
            || ((forall m :: !Owns(c, s', p, m)) && s'.locks == map m | m in s.locks && s.locks[m] != p :: s.locks[m])
  {
    var pc := s.pcs[p];
    if !next.Failed? && pc.At? && !pc.phase.Read? {
      var n := CurrentMutex(c, p, pc);
      if pc.phase.stage.Want? {
        assert forall m :: Owns(c, s', p, m) <==> m == n;
      } else if pc.phase.stage.Out? {
        assert Owns(c, s, p, n);
        assert forall m :: m in s.locks && s.locks[m] == p ==> Owns(c, s, p, m);
        assert s'.locks == map m | m in s.locks && s.locks[m] != p :: s.locks[m];
      }
    }
  }

  lemma LocksKept(c: Cluster, s: State, p: nat, next: Pc, s': State)
    requires !c.hold && LocksOk(c, s) && Moved(c, s, p, next, s')
    requires !next.Failed? && s.pcs[p].At? && !s.pcs[p].phase.Read? && s.pcs[p].phase.stage.Want? ==>
               CurrentMutex(c, p, s.pcs[p]) !in s.locks
    ensures LocksOk(c, s')
  {
    OneMutexMoves(c, s, p, next, s');
    forall q: nat, m
      ensures Owns(c, s', q, m) <==> m in s'.locks && s'.locks[m] == q
    {
      assert q != p ==> Owns(c, s', q, m) == Owns(c, s, q, m);
      assert Owns(c, s, q, m) <==> m in s.locks && s.locks[m] == q;
      assert Owns(c, s, p, m) <==> m in s.locks && s.locks[m] == p;
    }
  }

  /** Publishing precedes every read, so the reader of a dead peer is read as alive by that peer later. */
  lemma MarksKept(c: Cluster, s: State, p: nat, a: Action, next: Pc, s': State)
    requires WellFormed(c) && PcsOk(c, s) && AliveOk(s) && SkipsOk(c, s) && NeverBothSkip(c, s) && Enabled(c, s, p, a)
    requires Follows(c, p, s.pcs[p], next) && (a.Crash? ==> next.Failed?) && s'.pcs == s.pcs[p := next]
    requires s'.alive == if s.pcs[p].Start? && a.Go? then s.alive + {p} else s.alive
    requires s'.skipped == if ReadsDead(c, s, p, a) then s.skipped + {(p, s.pcs[p].link)} else s.skipped
    requires ReadsDead(c, s, p, a) ==> next == NextLink(c, p, s.pcs[p].link + 1)
    ensures AliveOk(s') && SkipsOk(c, s') && NeverBothSkip(c, s')
  {
    assert AliveOk(s') && SkipsOk(c, s');
    if !c.lag {
      forall q: nat, i: nat, r: nat, j: nat | Twin(c, q, i, r, j)
        ensures !((q, i) in s'.skipped && (r, j) in s'.skipped)
      {
        assert !((q, i) in s.skipped && (r, j) in s.skipped);
        assert LinkOf(c, q, i).peer == r && LinkOf(c, r, j).peer == q;
      }
    }
  }

  lemma StepKeepsControl(c: Cluster, s: State, p: nat, a: Action)
    requires !c.hold && WellFormed(c) && Control(c, s) && Enabled(c, s, p, a)
    ensures Control(c, Step(c, s, p, a))
  {
    var s' := Step(c, s, p, a);
    var next := WorkOf(c, s, p, a).pc;
    WorkFollows(c, s, p, a);
    FollowsFits(c, p, s.pcs[p], next);
    LocksKept(c, s, p, next, s');
    MarksKept(c, s, p, a, next, s');
  }
}
