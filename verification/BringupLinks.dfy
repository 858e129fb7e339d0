/** Every step of the bring-up protocol keeps every link in order. */
module BringupLinks {
  import opened Net
  import opened Bringup
  import opened BringupInvariant
  import opened Options
  import Ids
  import Qdisc

  // ---- links that a step does not work on ----

  predicate SameShaper(s: State, s': State, e: End) {
    (e in s.shaper <==> e in s'.shaper) && (e in s.shaper ==> s.shaper[e] == s'.shaper[e])
  }

  predicate SameSlot(s: State, s': State, k: Slot) {
    (k in s.index <==> k in s'.index) && (k in s.index ==> s.index[k] == s'.index[k])
  }

  /** The data about one end is unchanged. */
  ghost predicate EndKept(c: Cluster, s: State, s': State, p: nat, i: nat)
    requires IsLink(c, p, i)
  {
    && SameAt(s.table, s'.table, MyEnd(c, p, i)) && SameShaper(s, s', MyEnd(c, p, i))
    && SameSlot(s, s', SlotOf(Device(c, p, i, Mine)))
  }

  /** Progress that promises nothing about the link yet. */
  predicate Quiet(x: Prog) { x.Ahead? || x.Skipped? || x == In(OnVeth(Want)) || x == In(OnVxlan(Mine, Want)) }

  predicate Alike(x: Prog, x': Prog) { x' == x || x'.Lost? || (Quiet(x) && Quiet(x')) }

  lemma IdleLinkKept(c: Cluster, s: State, s': State, p: nat, i: nat, q: nat, j: nat)
    requires Twin(c, p, i, q, j) && |s.pcs| == |s'.pcs| == |c.pods|
    requires EndKept(c, s, s', p, i) && EndKept(c, s, s', q, j)
    requires Alike(ProgOf(s, p, i), ProgOf(s', p, i)) && Alike(ProgOf(s, q, j), ProgOf(s', q, j))
    requires LinkOk(c, s, p, i, q, j)
    ensures LinkOk(c, s', p, i, q, j)
  {
    if SameHost(c, p, i) {
      IdleVethKept(c, s, s', p, i, q, j);
    } else {
      IdleVxlanKept(c, s, s', p, i, q, j);
    }
  }

  lemma IdleVethKept(c: Cluster, s: State, s': State, p: nat, i: nat, q: nat, j: nat)
    requires Twin(c, p, i, q, j) && |s.pcs| == |s'.pcs| == |c.pods|
    requires EndKept(c, s, s', p, i) && EndKept(c, s, s', q, j)
    requires Alike(ProgOf(s, p, i), ProgOf(s', p, i)) && Alike(ProgOf(s, q, j), ProgOf(s', q, j))
    requires VethOk(c, s, p, i, q, j)
    ensures VethOk(c, s', p, i, q, j)
  {
  }

  lemma IdleVxlanKept(c: Cluster, s: State, s': State, p: nat, i: nat, q: nat, j: nat)
    requires Twin(c, p, i, q, j) && |s.pcs| == |s'.pcs| == |c.pods|
    requires EndKept(c, s, s', p, i)
    requires Alike(ProgOf(s, p, i), ProgOf(s', p, i)) && Alike(ProgOf(s, q, j), ProgOf(s', q, j))
    requires VxlanOk(c, s, p, i, q, j)
    ensures VxlanOk(c, s', p, i, q, j)
  {
  }

  /** A move of run `p` at link `k` leaves its progress on other links, unless it fails. */
  lemma OtherProgKept(c: Cluster, s: State, s': State, p: nat, next: Pc, r: nat, i: nat)
    requires p < |c.pods| == |s.pcs| && r < |s.pcs| && s'.pcs == s.pcs[p := next]
    requires Follows(c, p, s.pcs[p], next)
    requires s.pcs[p].At? && s'.skipped <= s.skipped + {(p, s.pcs[p].link)} && s.skipped <= s'.skipped
    requires (r, i) != (p, s.pcs[p].link)
    requires InPod(c, r, i)
    ensures Alike(ProgOf(s, r, i), ProgOf(s', r, i))
  {
  }

  /** A step at link `k` of pod `p` touches only the two ends of that link. */
  ghost predicate Local(c: Cluster, s: State, s': State, p: nat, k: nat)
    requires IsLink(c, p, k)
  {
    && (forall e :: e != MyEnd(c, p, k) && e != PeerEnd(c, p, k) ==>
          SameAt(s.table, s'.table, e) && SameShaper(s, s', e))
    && (forall d :: d != SlotOf(Device(c, p, k, Mine)) && d != SlotOf(Device(c, p, k, Theirs)) ==> SameSlot(s, s', d))
  }

  lemma OtherEndKept(c: Cluster, s: State, s': State, p: nat, k: nat, r: nat, i: nat)
    requires WellFormed(c) && IsLink(c, p, k) && IsLink(c, r, i) && Local(c, s, s', p, k)
    requires (r, i) != (p, k) && !Twin(c, p, k, r, i)
    ensures EndKept(c, s, s', r, i)
  {
    var q, j := HasTwin(c, p, k);
    TwinViews(c, p, k, q, j);
    if MyEnd(c, r, i) == MyEnd(c, p, k) { EndsAreDistinct(c, r, i, p, k); }
    if MyEnd(c, r, i) == PeerEnd(c, p, k) { EndsAreDistinct(c, r, i, q, j); }
    if Device(c, r, i, Mine).vni == Device(c, p, k, Mine).vni { VnisAreDistinct(c, p, k, r, i); }
  }

  // ---- a link within a node, worked on ----

  /** The run is inside the locked part of a link within a node. */
  predicate HoldsVeth(x: Prog) { x.In? && x.phase.OnVeth? && !x.phase.stage.Want? }

  /** `s'` is `s` after one step of run `p` on link `i`, as far as that link goes. */
  ghost predicate Worked(s: State, p: nat, i: nat, w: Work, s': State) {
    && p < |s.pcs| && s.pcs[p].At? && s.pcs[p].link == i && (p, i) !in s.skipped
    && s'.pcs == s.pcs[p := w.pc] && s'.skipped == s.skipped
    && s'.table == w.table && s'.shaper == w.shaper && s'.index == w.index
  }

  lemma VethLinkKept(c: Cluster, s: State, s': State, p: nat, i: nat, q: nat, j: nat, stage: Stage)
    requires Twin(c, p, i, q, j) && IsLink(c, p, i) && |s.pcs| == |c.pods| && s.pcs[p] == At(i, OnVeth(stage))
    requires PeerVeth(c, p, i) == MyVeth(c, q, j) && MyEnd(c, p, i) != MyEnd(c, q, j)
    requires Worked(s, p, i, VethWork(c, s, p, i, stage), s') && !s'.pcs[p].Failed?
    requires Twin(c, q, j, p, i) && VethOk(c, s, p, i, q, j) && VethOk(c, s, q, j, p, i)
    requires !stage.Want? ==> !HoldsVeth(ProgOf(s, q, j))
    ensures VethOk(c, s', p, i, q, j) && VethOk(c, s', q, j, p, i)
  {
    assert ProgOf(s', q, j) == ProgOf(s, q, j);
    assert ProgOf(s, p, i) == In(OnVeth(stage));
    match stage
    case Make =>
      assert ClearOneEnd(s.table, MyVeth(c, p, i), PeerVeth(c, p, i)) == s.table;
    case _ =>
  }

  // ---- a link between nodes, worked on ----

  lemma CleanMake(t: Table, v: VxlanSpec)
    requires v.end !in t && !HasVni(t, v.end.space.node, v.vni) && Ids.IsVni24(v.vni)
    ensures Rebuild(t, v, true) == (AddVxlan(t, v), true)
  {
    assert Unplug(t, v.end) == t;
  }

  /** What one stage does to the end it works on. */
  ghost predicate EndMoves(c: Cluster, v: VxlanSpec, mine: Shaper, a: Touch, f: Option<Iface>, w: Option<Shaper>,
                           ns: Option<string>,
                           a': Touch, f': Option<Iface>, w': Option<Shaper>, ns': Option<string>) {
    || (a' == a && f' == f && w' == w && ns' == ns)
    || (a.Idle? && a'.Making? && f.None? && f' == f && w' == w && ns' == ns)
    || (a.Idle? && a'.Shaping? && f.Some? && f' == f && w' == w && ns' == ns)
    || (a.Making? && a'.Shaping? && f' == Some(Vxlan(v.vni, v.group, v.addr, Qdisc.EMPTY)) && w' == w && ns' == ns)
    || (a.Shaping? && a'.Indexing? && f.Some? && f.value.Vxlan? && f' == Some(f.value.(tree := TreeBy(c, mine)))
        && w' == Some(mine) && ns' == ns)
    || (a.Indexing? && a'.Settled? && f' == f && w' == w && ns' == Some(v.end.space.ns))
  }

  /** Whether it is the pod's own run or the peer's that works on the end, the end stays in order, provided the
      other one is not in the middle of making it. */
  lemma EndMoveKeepsOk(c: Cluster, v: VxlanSpec, mine: Shaper, other: Shaper, a: Touch, b: Touch, f: Option<Iface>,
                       w: Option<Shaper>, ns: Option<string>,
                       a': Touch, f': Option<Iface>, w': Option<Shaper>, ns': Option<string>)
    requires EndMoves(c, v, mine, a, f, w, ns, a', f', w', ns') && (a != a' ==> !b.Making? && !b.Shaping?)
    ensures EndOk(c, v, a, b, mine, other, f, w, ns) ==> EndOk(c, v, a', b, mine, other, f', w', ns')
    ensures EndOk(c, v, b, a, other, mine, f, w, ns) ==> EndOk(c, v, b, a', other, mine, f', w', ns')
  {
  }

  /** What the work of a stage comes to when nothing stands in its way: there is nothing to evict, and the
      name and the VNI are free when the device is made. */
  ghost function PlainWork(c: Cluster, s: State, p: nat, i: nat, side: Side, stage: Stage): Work
    requires IsLink(c, p, i)
  {
    var v := Device(c, p, i, side);
    match stage
    case Want => Move(s, At(i, OnVxlan(side, if side.Mine? then Look else Evict)))
    case Evict => Move(s, At(i, OnVxlan(side, Look)))
    case Look => Move(s, At(i, OnVxlan(side, if SameVxlan(s.table, v) then Shape else Make)))
    case Make => Move(s, At(i, OnVxlan(side, Shape))).(table := AddVxlan(s.table, v))
    case Shape => ShapeEnd(c, s, At(i, OnVxlan(side, Index)), v.end, Shaper(p, i, side))
    case Index => Move(s, At(i, OnVxlan(side, Out))).(index := s.index[SlotOf(v) := v.end.space.ns])
    case Out => Move(s, if side.Mine? then At(i, OnVxlan(Theirs, Want)) else NextLink(c, p, i + 1))
    case _ => Move(s, Failed)
  }

  /** The plain work moves the end of its side, and leaves the other side's end alone. */
  lemma PlainWorkMoves(c: Cluster, s: State, s': State, p: nat, i: nat, side: Side, stage: Stage)
    requires IsLink(c, p, i) && p < |s.pcs| && s.pcs[p] == At(i, OnVxlan(side, stage))
    requires Worked(s, p, i, PlainWork(c, s, p, i, side, stage), s') && !s'.pcs[p].Failed?
    requires var f := Lookup(s.table, Device(c, p, i, side).end);
             if f.Some? then SameVxlan(s.table, Device(c, p, i, side)) else !stage.Shape?
    ensures var v := Device(c, p, i, side);
            EndMoves(c, v, Shaper(p, i, side),
                     TouchOf(ProgOf(s, p, i), side), Lookup(s.table, v.end), Lookup(s.shaper, v.end),
                     Lookup(s.index, SlotOf(v)),
                     TouchOf(ProgOf(s', p, i), side), Lookup(s'.table, v.end), Lookup(s'.shaper, v.end),
                     Lookup(s'.index, SlotOf(v)))
  {
    assert ProgOf(s, p, i) == In(OnVxlan(side, stage));
    assert stage.Out? ==> TouchOf(ProgOf(s', p, i), side).Settled?;
  }

  lemma PlainWorkElsewhere(c: Cluster, s: State, s': State, p: nat, i: nat, side: Side, stage: Stage)
    requires IsLink(c, p, i) && p < |s.pcs| && s.pcs[p] == At(i, OnVxlan(side, stage))
    requires Worked(s, p, i, PlainWork(c, s, p, i, side, stage), s') && !s'.pcs[p].Failed?
    ensures TouchOf(ProgOf(s', p, i), Other(side)) == TouchOf(ProgOf(s, p, i), Other(side))
    ensures forall e :: e != Device(c, p, i, side).end ==>
              Lookup(s'.table, e) == Lookup(s.table, e) && Lookup(s'.shaper, e) == Lookup(s.shaper, e)
    ensures forall k :: k != SlotOf(Device(c, p, i, side)) ==> Lookup(s'.index, k) == Lookup(s.index, k)
  {
    assert ProgOf(s, p, i) == In(OnVxlan(side, stage));
  }

  function Other(side: Side): Side { if side.Mine? then Theirs else Mine }

  lemma VxlanLinkKept(c: Cluster, s: State, s': State, p: nat, i: nat, q: nat, j: nat, side: Side, stage: Stage)
    requires Twin(c, p, i, q, j) && IsLink(c, p, i) && IsLink(c, q, j) && !SameHost(c, p, i)
    requires Device(c, p, i, Theirs) == Device(c, q, j, Mine) && Device(c, q, j, Theirs) == Device(c, p, i, Mine)
    requires |s.pcs| == |c.pods| && s.pcs[p] == At(i, OnVxlan(side, stage))
    requires Worked(s, p, i, PlainWork(c, s, p, i, side, stage), s') && !s'.pcs[p].Failed?
    requires Twin(c, q, j, p, i) && VxlanOk(c, s, p, i, q, j) && VxlanOk(c, s, q, j, p, i)
    requires !stage.Want? ==>
               !TouchOf(ProgOf(s, q, j), Other(side)).Making? && !TouchOf(ProgOf(s, q, j), Other(side)).Shaping?
    ensures VxlanOk(c, s', p, i, q, j) && VxlanOk(c, s', q, j, p, i)
  {
    PlainWorkMoves(c, s, s', p, i, side, stage);
    PlainWorkElsewhere(c, s, s', p, i, side, stage);
    assert ProgOf(s', q, j) == ProgOf(s, q, j);
    assert stage.Want? ==> TouchOf(ProgOf(s', p, i), side) == TouchOf(ProgOf(s, p, i), side);
    if side.Mine? {
      MoveKeepsOk(c, s, s', p, i, q, j, Mine);
    } else {
      MoveKeepsOk(c, s, s', p, i, q, j, Theirs);
    }
  }

  /** The run of `p` moves the end that it works on as the given side, and nothing else. */
  ghost predicate MovesOnly(c: Cluster, s: State, s': State, p: nat, i: nat, side: Side)
    requires IsLink(c, p, i) && p < |s.pcs| && p < |s'.pcs|
  {
    var v := Device(c, p, i, side);
    && EndMoves(c, v, Shaper(p, i, side),
                TouchOf(ProgOf(s, p, i), side), Lookup(s.table, v.end), Lookup(s.shaper, v.end),
                Lookup(s.index, SlotOf(v)),
                TouchOf(ProgOf(s', p, i), side), Lookup(s'.table, v.end), Lookup(s'.shaper, v.end),
                Lookup(s'.index, SlotOf(v)))
    && TouchOf(ProgOf(s', p, i), Other(side)) == TouchOf(ProgOf(s, p, i), Other(side))
    && (forall e :: e != v.end ==>
          Lookup(s'.table, e) == Lookup(s.table, e) && Lookup(s'.shaper, e) == Lookup(s.shaper, e))
    && (forall k :: k != SlotOf(v) ==> Lookup(s'.index, k) == Lookup(s.index, k))
  }

  lemma MoveKeepsOk(c: Cluster, s: State, s': State, p: nat, i: nat, q: nat, j: nat, side: Side)
    requires Twin(c, p, i, q, j) && Twin(c, q, j, p, i) && IsLink(c, p, i) && IsLink(c, q, j) && !SameHost(c, p, i)
    requires Device(c, p, i, Theirs) == Device(c, q, j, Mine)
    requires p < |s.pcs| == |s'.pcs| && q < |s.pcs| && ProgOf(s', q, j) == ProgOf(s, q, j)
    requires MovesOnly(c, s, s', p, i, side)
    requires TouchOf(ProgOf(s', p, i), side) != TouchOf(ProgOf(s, p, i), side) ==>
               !TouchOf(ProgOf(s, q, j), Other(side)).Making? && !TouchOf(ProgOf(s, q, j), Other(side)).Shaping?
    requires VxlanOk(c, s, p, i, q, j) && VxlanOk(c, s, q, j, p, i)
    ensures VxlanOk(c, s', p, i, q, j) && VxlanOk(c, s', q, j, p, i)
  {
    var v := Device(c, p, i, side);
    EndMoveKeepsOk(c, v, Shaper(p, i, side), Shaper(q, j, Other(side)),
                   TouchOf(ProgOf(s, p, i), side), TouchOf(ProgOf(s, q, j), Other(side)),
                   Lookup(s.table, v.end), Lookup(s.shaper, v.end), Lookup(s.index, SlotOf(v)),
                   TouchOf(ProgOf(s', p, i), side), Lookup(s'.table, v.end), Lookup(s'.shaper, v.end),
                   Lookup(s'.index, SlotOf(v)));
    assert SlotOf(Device(c, p, i, Mine)) != SlotOf(Device(c, p, i, Theirs));
  }

  // ---- why the plain case is the only one ----

  /** While an end is missing, no device on its node has the link's VNI. */
  lemma VniIsFree(c: Cluster, base: Table, index: map<Slot, string>, s: State, p: nat, i: nat)
    requires WellFormed(c) && Fresh(c, base, index) && |s.pcs| == |c.pods| && LinksOk(c, s) && RestOk(c, base, s)
    requires IsLink(c, p, i) && !SameHost(c, p, i) && MyEnd(c, p, i) !in s.table
    ensures !HasVni(s.table, MyEnd(c, p, i).space.node, Device(c, p, i, Mine).vni)
  {
    var node, vni := MyEnd(c, p, i).space.node, Device(c, p, i, Mine).vni;
    forall e | e in s.table
      ensures !IsVxlan(s.table, e, node, vni)
    {
      if IsEnd(c, e) {
        var q: nat, j: nat :| InPod(c, q, j) && MyEnd(c, q, j) == e;
        OwnVni(c, s, p, i, q, j);
      } else {
        assert SameAt(s.table, base, e);
        assert IsVxlan(s.table, e, node, vni) ==> IsVxlan(base, e, node, vni);
      }
    }
  }

  lemma OwnVni(c: Cluster, s: State, p: nat, i: nat, q: nat, j: nat)
    requires WellFormed(c) && |s.pcs| == |c.pods| && LinksOk(c, s) && IsLink(c, p, i) && !SameHost(c, p, i)
             && InPod(c, q, j)
    requires MyEnd(c, p, i) !in s.table
    ensures !IsVxlan(s.table, MyEnd(c, q, j), MyEnd(c, p, i).space.node, Device(c, p, i, Mine).vni)
  {
    var r, k := HasTwin(c, q, j);
    TwinViews(c, q, j, r, k);
    assert LinkOk(c, s, q, j, r, k);
    if Device(c, q, j, Mine).vni == Device(c, p, i, Mine).vni {
      VnisAreDistinct(c, p, i, q, j);
    }
  }

  /** Under the invariant nothing stands in the way of a stage. */
  lemma WorkIsPlain(c: Cluster, base: Table, index: map<Slot, string>, s: State, p: nat, i: nat, side: Side,
                    stage: Stage)
    requires WellFormed(c) && Fresh(c, base, index) && Inv(c, base, s)
    requires p < |s.pcs| && s.pcs[p] == At(i, OnVxlan(side, stage)) && IsLink(c, p, i)
    ensures VxlanWork(c, s, p, i, side, stage) == PlainWork(c, s, p, i, side, stage)
  {
    assert PcOk(c, p, s.pcs[p]);
    var q, j := HasTwin(c, p, i);
    TwinViews(c, p, i, q, j);
    assert LinkOk(c, s, p, i, q, j) && LinkOk(c, s, q, j, p, i);
    assert ProgOf(s, p, i) == In(OnVxlan(side, stage));
    if stage.Make? {
      var v := Device(c, p, i, side);
      if side.Mine? { VniIsFree(c, base, index, s, p, i); } else { VniIsFree(c, base, index, s, q, j); }
      LinksAreFine(c, p, i);
      Ids.SupportedUids(LinkOf(c, p, i).uid, 0);
      CleanMake(s.table, v);
    }
  }

  /** The link mutex keeps the two runs of a link out of each other's way. */
  lemma VethExclusion(c: Cluster, s: State, p: nat, i: nat, q: nat, j: nat)
    requires WellFormed(c) && PcsOk(c, s) && LocksOk(c, s) && Twin(c, p, i, q, j) && p < |s.pcs| && q < |s.pcs|
    requires s.pcs[p].At? && s.pcs[p].link == i && s.pcs[p].phase.OnVeth? && !s.pcs[p].phase.stage.Want?
    ensures !HoldsVeth(ProgOf(s, q, j))
  {
    TwinViews(c, p, i, q, j);
    var m := MutexOf(c, p, i, Mine);
    assert PcOk(c, p, s.pcs[p]) && PcOk(c, q, s.pcs[q]);
    assert Owns(c, s, p, m);
    assert !Owns(c, s, q, m);
  }

  lemma VxlanExclusion(c: Cluster, s: State, p: nat, i: nat, q: nat, j: nat)
    requires WellFormed(c) && PcsOk(c, s) && LocksOk(c, s) && Twin(c, p, i, q, j) && p < |s.pcs| && q < |s.pcs|
    requires s.pcs[p].At? && s.pcs[p].link == i && s.pcs[p].phase.OnVxlan? && !s.pcs[p].phase.stage.Want?
    ensures var b := TouchOf(ProgOf(s, q, j), Other(s.pcs[p].phase.side)); !b.Making? && !b.Shaping?
  {
    TwinViews(c, p, i, q, j);
    TwinViews(c, q, j, p, i);
    var side := s.pcs[p].phase.side;
    var m := MutexOf(c, p, i, side);
    assert m == MutexOf(c, q, j, Other(side));
    assert PcOk(c, p, s.pcs[p]) && PcOk(c, q, s.pcs[q]);
    assert Owns(c, s, p, m);
    assert !Owns(c, s, q, m);
  }

  // ---- all links together ----

  /** Links that the step does not work on stay in order. */
  lemma BystandersKept(c: Cluster, s: State, s': State, p: nat, i: nat, next: Pc, r: nat, k: nat, t: nat, l: nat)
    requires WellFormed(c) && |s.pcs| == |c.pods| && LinksOk(c, s) && IsLink(c, p, i)
    requires s.pcs[p].At? && s.pcs[p].link == i && Follows(c, p, s.pcs[p], next) && s'.pcs == s.pcs[p := next]
             && s'.skipped == s.skipped
    requires Local(c, s, s', p, i)
    requires Twin(c, r, k, t, l) && (r, k) != (p, i) && (t, l) != (p, i)
    ensures LinkOk(c, s', r, k, t, l)
  {
    TwinViews(c, r, k, t, l);
    if Twin(c, p, i, r, k) {
      TwinViews(c, p, i, r, k);
      TwinIsUnique(c, r, k, t, l, p, i);
    }
    if Twin(c, p, i, t, l) {
      TwinViews(c, p, i, t, l);
      TwinIsUnique(c, t, l, r, k, p, i);
    }
    OtherEndKept(c, s, s', p, i, r, k);
    OtherEndKept(c, s, s', p, i, t, l);
    OtherProgKept(c, s, s', p, next, r, k);
    OtherProgKept(c, s, s', p, next, t, l);
    assert LinkOk(c, s, r, k, t, l);
    IdleLinkKept(c, s, s', r, k, t, l);
  }

  lemma LinkWorkKeepsLinks(c: Cluster, s: State, s': State, p: nat, i: nat, q: nat, j: nat, next: Pc)
    requires WellFormed(c) && |s.pcs| == |c.pods| && LinksOk(c, s) && Twin(c, p, i, q, j) && IsLink(c, p, i)
    requires s.pcs[p].At? && s.pcs[p].link == i && Follows(c, p, s.pcs[p], next) && s'.pcs == s.pcs[p := next]
             && s'.skipped == s.skipped
    requires Local(c, s, s', p, i)
    requires Twin(c, q, j, p, i) && LinkOk(c, s', p, i, q, j) && LinkOk(c, s', q, j, p, i)
    ensures LinksOk(c, s')
  {
    forall r: nat, k: nat, t: nat, l: nat | Twin(c, r, k, t, l)
      ensures LinkOk(c, s', r, k, t, l)
    {
      TwinViews(c, r, k, t, l);
      if (r, k) == (p, i) {
        TwinIsUnique(c, p, i, q, j, t, l);
      } else if (t, l) == (p, i) {
        TwinIsUnique(c, p, i, q, j, r, k);
      } else {
        BystandersKept(c, s, s', p, i, next, r, k, t, l);
      }
    }
  }

  lemma VethStepKeepsLinks(c: Cluster, s: State, s': State, p: nat, i: nat, stage: Stage)
    requires WellFormed(c) && Control(c, s) && LinksOk(c, s) && p < |s.pcs| && s.pcs[p] == At(i, OnVeth(stage))
             && PcOk(c, p, s.pcs[p])
    requires Worked(s, p, i, VethWork(c, s, p, i, stage), s')
    ensures LinksOk(c, s') && Local(c, s, s', p, i)
  {
    var q, j := HasTwin(c, p, i);
    TwinViews(c, p, i, q, j);
    assert LinkOk(c, s, p, i, q, j) && LinkOk(c, s, q, j, p, i);
    if !stage.Want? { VethExclusion(c, s, p, i, q, j); }
    VethFollows(c, s, p, i, stage);
    VethLinkKept(c, s, s', p, i, q, j, stage);
    VethIsLocal(c, s, s', p, i, stage);
    LinkWorkKeepsLinks(c, s, s', p, i, q, j, s'.pcs[p]);
  }

  lemma VethIsLocal(c: Cluster, s: State, s': State, p: nat, i: nat, stage: Stage)
    requires IsLink(c, p, i) && Worked(s, p, i, VethWork(c, s, p, i, stage), s')
    requires stage.Make? ==> MyEnd(c, p, i) !in s.table && PeerEnd(c, p, i) !in s.table
    ensures Local(c, s, s', p, i)
  {
  }

  lemma VxlanStepKeepsLinks(c: Cluster, base: Table, index: map<Slot, string>, s: State, s': State, p: nat, i: nat,
                            side: Side, stage: Stage)
    requires WellFormed(c) && Fresh(c, base, index) && Inv(c, base, s)
    requires p < |s.pcs| && s.pcs[p] == At(i, OnVxlan(side, stage)) && PcOk(c, p, s.pcs[p])
    requires Worked(s, p, i, VxlanWork(c, s, p, i, side, stage), s')
    ensures LinksOk(c, s') && Local(c, s, s', p, i) && !s'.pcs[p].Failed?
  {
    var q, j := HasTwin(c, p, i);
    TwinViews(c, p, i, q, j);
    assert LinkOk(c, s, p, i, q, j) && LinkOk(c, s, q, j, p, i);
    WorkIsPlain(c, base, index, s, p, i, side, stage);
    if !stage.Want? { VxlanExclusion(c, s, p, i, q, j); }
    VxlanFollows(c, s, p, i, side, stage);
    PlainIsLocal(c, s, s', p, i, side, stage);
    TwinViews(c, q, j, p, i);
    VxlanLinkKept(c, s, s', p, i, q, j, side, stage);
    LinkWorkKeepsLinks(c, s, s', p, i, q, j, s'.pcs[p]);
  }

  lemma PlainIsLocal(c: Cluster, s: State, s': State, p: nat, i: nat, side: Side, stage: Stage)
    requires IsLink(c, p, i) && !stage.ShapePeer? && Worked(s, p, i, PlainWork(c, s, p, i, side, stage), s')
    ensures Local(c, s, s', p, i) && !s'.pcs[p].Failed?
  {
  }

  lemma QuietProgKept(c: Cluster, s: State, s': State, p: nat, next: Pc, r: nat, i: nat)
    requires p < |s.pcs| == |c.pods| && Follows(c, p, s.pcs[p], next) && s'.pcs == s.pcs[p := next] && InPod(c, r, i)
    requires next.Failed? || s.pcs[p].Start? || (s.pcs[p].At? && s.pcs[p].phase.Read?)
    requires s'.skipped == if s.pcs[p].At? && next == NextLink(c, p, s.pcs[p].link + 1)
                           then s.skipped + {(p, s.pcs[p].link)} else s.skipped
    ensures Alike(ProgOf(s, r, i), ProgOf(s', r, i))
  {
  }

  /** Steps that touch no data: publishing, reading the peer's status, failing. */
  lemma QuietStepKeepsLinks(c: Cluster, s: State, s': State, p: nat, next: Pc)
    requires WellFormed(c) && |s.pcs| == |c.pods| && LinksOk(c, s) && p < |s.pcs| && Follows(c, p, s.pcs[p], next)
    requires s'.table == s.table && s'.index == s.index && s'.shaper == s.shaper && s'.pcs == s.pcs[p := next]
    requires next.Failed? || s.pcs[p].Start? || (s.pcs[p].At? && s.pcs[p].phase.Read?)
    requires s'.skipped == if s.pcs[p].At? && next == NextLink(c, p, s.pcs[p].link + 1)
                           then s.skipped + {(p, s.pcs[p].link)} else s.skipped
    ensures LinksOk(c, s')
  {
    forall r: nat, k: nat, t: nat, l: nat | Twin(c, r, k, t, l)
      ensures LinkOk(c, s', r, k, t, l)
    {
      LinksAreFine(c, r, k);
      LinksAreFine(c, t, l);
      QuietProgKept(c, s, s', p, next, r, k);
      QuietProgKept(c, s, s', p, next, t, l);
      assert LinkOk(c, s, r, k, t, l);
      IdleLinkKept(c, s, s', r, k, t, l);
    }
  }
}
