/** Schedules that expose a disagreement between the two declarations of a link: between nodes the pod that runs
    last decides how an end is shaped, within a node the pod that runs first. */
module BringupSchedules {
  import opened Net
  import opened Bringup
  import opened BringupInvariant
  import opened BringupLinks
  import opened BringupTheorems
  import opened BringupProgress
  import opened BringupConfluence
  import opened Options
  import Qdisc

  // ---- paths ----

  /** A run from `s` to `t`. */
  ghost predicate Path(c: Cluster, states: seq<State>, events: seq<Event>, s: State, t: State) {
    Run(c, states, events) && states[0] == s && states[|events|] == t
  }

  ghost predicate Reaches(c: Cluster, s: State, t: State) { exists states, events :: Path(c, states, events, s, t) }

  lemma ReachesSelf(c: Cluster, s: State)
    ensures Reaches(c, s, s)
  {
    assert Path(c, [s], [], s, s);
  }

  lemma ReachesNext(c: Cluster, s: State, t: State, p: nat, a: Action)
    requires Reaches(c, s, t) && Enabled(c, t, p, a)
    ensures Reaches(c, s, Step(c, t, p, a))
  {
    var states, events :| Path(c, states, events, s, t);
    var states', events' := states + [Step(c, t, p, a)], events + [Event(p, a)];
    forall k | 0 <= k < |events'| ensures StepAt(c, states', events', k) {
      if k < |events| { assert StepAt(c, states, events, k); }
    }
    assert Path(c, states', events', s, Step(c, t, p, a));
  }

  // ---- one pod at a time ----

  /** What all schedules below start from. */
  ghost predicate Setup(c: Cluster, base: Table, index: map<Slot, string>) {
    !c.hold && !c.lag && WellFormed(c) && Fresh(c, base, index)
  }

  /** The pod is set up, or about to read the status of its first peer. */
  predicate Resting(pc: Pc) { pc.Done? || pc == At(0, Read) }

  /** All pods are published, none has skipped a link, and only `r` may be in the middle of one. */
  ghost predicate Calm(c: Cluster, s: State, r: nat) {
    && r < |c.pods| == |s.pcs| && s.skipped == {}
    && (forall p: nat :: p < |c.pods| ==> p in s.alive && !s.pcs[p].Failed? && !s.pcs[p].Start?)
    && (forall p: nat :: p < |c.pods| && p != r ==> Resting(s.pcs[p]))
  }

  lemma SoloIsEnabled(c: Cluster, s: State, r: nat)
    requires PcsOk(c, s) && LocksOk(c, s) && r < |c.pods| && !s.pcs[r].Done? && !s.pcs[r].Failed?
    requires forall p: nat :: p < |c.pods| && p != r ==> Resting(s.pcs[p])
    ensures Enabled(c, s, r, Go)
  {
    assert PcOk(c, r, s.pcs[r]);
    assert forall m :: m in s.locks ==> Owns(c, s, s.locks[m], m);
    assert forall m :: m in s.locks ==> s.locks[m] == r;
  }

  lemma SoloStep(c: Cluster, base: Table, index: map<Slot, string>, s: State, r: nat)
    requires Setup(c, base, index) && Inv(c, base, s) && Calm(c, s, r) && Enabled(c, s, r, Go)
    ensures Calm(c, Step(c, s, r, Go), r)
    ensures forall p: nat :: p < |c.pods| && p != r ==> Step(c, s, r, Go).pcs[p] == s.pcs[p]
  {
    assert PcOk(c, r, s.pcs[r]);
    SoloNeverFails(c, base, index, s, r);
    WorkFollows(c, s, r, Go);
  }

  lemma SoloNeverFails(c: Cluster, base: Table, index: map<Slot, string>, s: State, r: nat)
    requires Setup(c, base, index) && Inv(c, base, s) && Enabled(c, s, r, Go)
    ensures !Step(c, s, r, Go).pcs[r].Failed?
  {
    StepKeepsLinks(c, base, index, s, r, Go);
  }

  /** Between nodes, both ends that `r` has shaped bear its mark. */
  ghost predicate Marked(c: Cluster, s: State, r: nat)
    requires r < |s.pcs|
  {
    forall k: nat :: IsLink(c, r, k) && !SameHost(c, r, k) ==>
      MarkedAs(c, s, r, k, Mine) && MarkedAs(c, s, r, k, Theirs)
  }

  ghost predicate MarkedAs(c: Cluster, s: State, r: nat, k: nat, side: Side)
    requires r < |s.pcs| && IsLink(c, r, k)
  {
    var a := TouchOf(ProgOf(s, r, k), side);
    a.Indexing? || a.Settled? ==> Lookup(s.shaper, Device(c, r, k, side).end) == Some(Shaper(r, k, side))
  }

  lemma SoloStepMarks(c: Cluster, base: Table, index: map<Slot, string>, s: State, r: nat)
    requires Setup(c, base, index) && Inv(c, base, s) && Calm(c, s, r) && !s.pcs[r].Done? && Enabled(c, s, r, Go)
    requires Marked(c, s, r) && r < |Step(c, s, r, Go).pcs|
    ensures Marked(c, Step(c, s, r, Go), r)
  {
    var s' := Step(c, s, r, Go);
    assert PcOk(c, r, s.pcs[r]);
    WorkFollows(c, s, r, Go);
    if s.pcs[r].phase.Read? {
      WorkOfQuietStep(c, s, r, Go);
      QuietStepMarks(c, s, s', r, s'.pcs[r]);
    } else {
      LinkStepKeepsLinks(c, base, index, s, r);
      LinkStepMarks(c, base, index, s, s', r);
    }
  }

  lemma QuietStepMarks(c: Cluster, s: State, s': State, r: nat, next: Pc)
    requires r < |s.pcs| == |c.pods| && s.pcs[r].At? && s.pcs[r].phase.Read? && Follows(c, r, s.pcs[r], next)
             && !next.Failed?
    requires s'.pcs == s.pcs[r := next] && s'.shaper == s.shaper && Marked(c, s, r)
    requires s'.skipped ==
             if next == NextLink(c, r, s.pcs[r].link + 1) then s.skipped + {(r, s.pcs[r].link)} else s.skipped
    ensures Marked(c, s', r)
  {
    forall k: nat | IsLink(c, r, k) && !SameHost(c, r, k)
      ensures MarkedAs(c, s', r, k, Mine) && MarkedAs(c, s', r, k, Theirs)
    {
      assert MarkedAs(c, s, r, k, Mine) && MarkedAs(c, s, r, k, Theirs);
    }
  }

  lemma LinkStepMarks(c: Cluster, base: Table, index: map<Slot, string>, s: State, s': State, r: nat)
    requires Setup(c, base, index) && Inv(c, base, s) && Calm(c, s, r) && Enabled(c, s, r, Go)
             && s' == Step(c, s, r, Go)
    requires s.pcs[r].At? && !s.pcs[r].phase.Read? && !s'.pcs[r].Failed? && Local(c, s, s', r, s.pcs[r].link)
    requires Follows(c, r, s.pcs[r], s'.pcs[r]) && Marked(c, s, r)
    ensures Marked(c, s', r)
  {
    forall k: nat | IsLink(c, r, k) && !SameHost(c, r, k)
      ensures MarkedAs(c, s', r, k, Mine) && MarkedAs(c, s', r, k, Theirs)
    {
      assert MarkedAs(c, s, r, k, Mine) && MarkedAs(c, s, r, k, Theirs);
      if s.pcs[r].link != k {
        ElsewhereKept(c, s, s', r, s'.pcs[r], k);
      } else {
        StepHere(c, base, index, s, s', r, k);
      }
    }
  }

  lemma ElsewhereKept(c: Cluster, s: State, s': State, r: nat, next: Pc, k: nat)
    requires WellFormed(c) && r < |s.pcs| == |c.pods| && s.pcs[r].At? && s.pcs[r].link != k && IsLink(c, r, k)
             && IsLink(c, r, s.pcs[r].link)
    requires Follows(c, r, s.pcs[r], next) && !next.Failed? && s'.pcs == s.pcs[r := next] && s'.skipped == s.skipped
    requires Local(c, s, s', r, s.pcs[r].link)
    ensures ProgOf(s', r, k) == ProgOf(s, r, k)
    ensures Lookup(s'.shaper, MyEnd(c, r, k)) == Lookup(s.shaper, MyEnd(c, r, k))
    ensures Lookup(s'.shaper, PeerEnd(c, r, k)) == Lookup(s.shaper, PeerEnd(c, r, k))
  {
    FarEndsDiffer(c, r, s.pcs[r].link, k);
    OtherProgKept(c, s, s', r, next, r, k);
    assert SameShaper(s, s', MyEnd(c, r, k)) && SameShaper(s, s', PeerEnd(c, r, k));
  }

  /** Different links of a pod have different far ends. */
  lemma FarEndsDiffer(c: Cluster, r: nat, i: nat, k: nat)
    requires WellFormed(c) && IsLink(c, r, i) && IsLink(c, r, k) && i != k
    ensures MyEnd(c, r, k) != MyEnd(c, r, i) && MyEnd(c, r, k) != PeerEnd(c, r, i)
    ensures PeerEnd(c, r, k) != MyEnd(c, r, i) && PeerEnd(c, r, k) != PeerEnd(c, r, i)
  {
  }

  lemma StepHere(c: Cluster, base: Table, index: map<Slot, string>, s: State, s': State, r: nat, k: nat)
    requires Setup(c, base, index) && Inv(c, base, s) && Calm(c, s, r) && Enabled(c, s, r, Go)
             && s' == Step(c, s, r, Go)
    requires s.pcs[r].At? && !s.pcs[r].phase.Read? && s.pcs[r].link == k && IsLink(c, r, k) && !SameHost(c, r, k)
             && !s'.pcs[r].Failed?
    requires MarkedAs(c, s, r, k, Mine) && MarkedAs(c, s, r, k, Theirs)
    ensures MarkedAs(c, s', r, k, Mine) && MarkedAs(c, s', r, k, Theirs)
  {
    assert PcOk(c, r, s.pcs[r]);
    var side, stage := s.pcs[r].phase.side, s.pcs[r].phase.stage;
    var q, j := HasTwin(c, r, k);
    TwinViews(c, r, k, q, j);
    assert LinkOk(c, s, r, k, q, j) && LinkOk(c, s, q, j, r, k);
    assert ProgOf(s, r, k) == In(OnVxlan(side, stage));
    WorkIsPlain(c, base, index, s, r, k, side, stage);
    PlainWorkMoves(c, s, s', r, k, side, stage);
    PlainWorkElsewhere(c, s, s', r, k, side, stage);
  }

  // ---- within a node the first pod decides ----

  /** The pair of link `k` of `p` was made and shaped by `p`, which is set up, and the peer is not about to change
      that. */
  ghost predicate Pinned(c: Cluster, s: State, p: nat, k: nat) {
    && p < |s.pcs| == |c.pods| && IsLink(c, p, k) && SameHost(c, p, k) && ProgOf(s, p, k).Finished?
    && Lookup(s.shaper, MyEnd(c, p, k)) == Some(Shaper(p, k, Mine))
    && forall q: nat, j: nat :: Twin(c, p, k, q, j) ==> Harmless(ProgOf(s, q, j))
  }

  predicate Harmless(x: Prog) { !AtVeth(x, Make) && !AtVeth(x, Shape) && !AtVeth(x, ShapePeer) }

  lemma PinKept(c: Cluster, base: Table, index: map<Slot, string>, s: State, r: nat, p: nat, k: nat)
    requires Setup(c, base, index) && Inv(c, base, s) && Calm(c, s, r) && Enabled(c, s, r, Go) && Pinned(c, s, p, k)
             && r != p
    ensures Pinned(c, Step(c, s, r, Go), p, k)
  {
    var s' := Step(c, s, r, Go);
    var q, j := HasTwin(c, p, k);
    WorkFollows(c, s, r, Go);
    if s.pcs[r].phase.Read? {
      WorkOfQuietStep(c, s, r, Go);
      PinKeptByRead(c, s, s', r, s'.pcs[r], q, j);
    } else {
      LinkStepKeepsLinks(c, base, index, s, r);
      assert LinkOk(c, s, p, k, q, j);
      PinKeptByWork(c, s, s', r, s.pcs[r].link, p, k, q, j);
    }
    PinFromTwin(c, s', p, k, q, j);
  }

  lemma PinFromTwin(c: Cluster, s: State, p: nat, k: nat, q: nat, j: nat)
    requires WellFormed(c) && p < |s.pcs| == |c.pods| && IsLink(c, p, k) && SameHost(c, p, k)
             && ProgOf(s, p, k).Finished?
    requires Lookup(s.shaper, MyEnd(c, p, k)) == Some(Shaper(p, k, Mine)) && Twin(c, p, k, q, j)
             && Harmless(ProgOf(s, q, j))
    ensures Pinned(c, s, p, k)
  {
    forall q': nat, j': nat | Twin(c, p, k, q', j') ensures q' == q && j' == j { TwinIsUnique(c, p, k, q, j, q', j'); }
  }

  lemma PinKeptByRead(c: Cluster, s: State, s': State, r: nat, next: Pc, q: nat, j: nat)
    requires r < |s.pcs| == |c.pods| && q < |s.pcs| && s.pcs[r].At? && s.pcs[r].phase.Read?
             && Follows(c, r, s.pcs[r], next)
    requires s'.pcs == s.pcs[r := next] && Harmless(ProgOf(s, q, j))
    ensures Harmless(ProgOf(s', q, j))
  {
  }

  lemma PinKeptByWork(c: Cluster, s: State, s': State, r: nat, i: nat, p: nat, k: nat, q: nat, j: nat)
    requires WellFormed(c) && PcsOk(c, s) && Enabled(c, s, r, Go) && s' == Step(c, s, r, Go) && r != p
    requires s.pcs[r].At? && !s.pcs[r].phase.Read? && s.pcs[r].link == i && IsLink(c, r, i) && Local(c, s, s', r, i)
    requires Follows(c, r, s.pcs[r], s'.pcs[r]) && !s'.pcs[r].Failed?
    requires Twin(c, p, k, q, j) && IsLink(c, p, k) && Pinned(c, s, p, k) && VethOk(c, s, p, k, q, j)
    ensures Lookup(s'.shaper, MyEnd(c, p, k)) == Some(Shaper(p, k, Mine)) && Harmless(ProgOf(s', q, j))
  {
    TwinViews(c, p, k, q, j);
    if (r, i) == (q, j) {
      assert PcOk(c, r, s.pcs[r]);
      PinKeptByPeer(c, s, s', q, j, p, k, s.pcs[r].phase.stage);
    } else {
      PinKeptByOthers(c, s, s', r, i, p, k, q, j, s'.pcs[r]);
    }
  }

  /** The peer finds both names and leaves the pair alone. */
  lemma PinKeptByPeer(c: Cluster, s: State, s': State, q: nat, j: nat, p: nat, k: nat, stage: Stage)
    requires IsLink(c, q, j) && q < |s.pcs| && s.pcs[q] == At(j, OnVeth(stage)) && Harmless(In(OnVeth(stage)))
             && !stage.Evict? && !stage.Index?
    requires s'.pcs == s.pcs[q := VethWork(c, s, q, j, stage).pc] && s'.shaper == VethWork(c, s, q, j, stage).shaper
    requires MyEnd(c, q, j) in s.table && PeerEnd(c, q, j) in s.table
    ensures s'.shaper == s.shaper && Harmless(ProgOf(s', q, j))
  {
  }

  lemma PinKeptByOthers(c: Cluster, s: State, s': State, r: nat, i: nat, p: nat, k: nat, q: nat, j: nat, next: Pc)
    requires WellFormed(c) && |s.pcs| == |c.pods| && IsLink(c, r, i) && IsLink(c, p, k) && Twin(c, p, k, q, j)
             && (r, i) != (q, j) && r != p
    requires s.pcs[r].At? && s.pcs[r].link == i && Local(c, s, s', r, i)
    requires Follows(c, r, s.pcs[r], next) && s'.pcs == s.pcs[r := next] && s'.skipped == s.skipped
    requires Harmless(ProgOf(s, q, j))
    ensures Lookup(s'.shaper, MyEnd(c, p, k)) == Lookup(s.shaper, MyEnd(c, p, k)) && Harmless(ProgOf(s', q, j))
  {
    if Twin(c, r, i, p, k) {
      TwinViews(c, r, i, p, k);
      TwinIsUnique(c, p, k, q, j, r, i);
    }
    OtherEndKept(c, s, s', r, i, p, k);
    OtherProgKept(c, s, s', r, next, q, j);
  }

  /** Only `r` has shaped anything. */
  ghost predicate OnlyShaper(s: State, r: nat) { forall e :: e in s.shaper ==> s.shaper[e].pod == r }

  lemma OnlyShaperKept(c: Cluster, s: State, r: nat)
    requires PcsOk(c, s) && Enabled(c, s, r, Go) && OnlyShaper(s, r)
    ensures OnlyShaper(Step(c, s, r, Go), r)
  {
    match s.pcs[r]
    case At(i, OnVeth(stage)) => VethShaper(c, s, r, i, stage);
    case At(i, OnVxlan(side, stage)) => VxlanShaper(c, s, r, i, side, stage);
    case _ =>
  }

  lemma VethShaper(c: Cluster, s: State, r: nat, i: nat, stage: Stage)
    requires IsLink(c, r, i)
    ensures var w := VethWork(c, s, r, i, stage); forall e :: e in w.shaper ==>
              (e in s.shaper && w.shaper[e] == s.shaper[e]) || w.shaper[e].pod == r
  {
  }

  lemma VxlanShaper(c: Cluster, s: State, r: nat, i: nat, side: Side, stage: Stage)
    requires IsLink(c, r, i)
    ensures var w := VxlanWork(c, s, r, i, side, stage); forall e :: e in w.shaper ==>
              (e in s.shaper && w.shaper[e] == s.shaper[e]) || w.shaper[e].pod == r
  {
  }

  // ---- running pods to the end ----

  /** A state that some run from the fresh start reaches. */
  ghost predicate Reached(c: Cluster, base: Table, index: map<Slot, string>, s: State) {
    Setup(c, base, index) && Reaches(c, Init(c, base, index), s)
  }

  lemma ReachedIsInOrder(c: Cluster, base: Table, index: map<Slot, string>, s: State)
    requires Reached(c, base, index, s)
    ensures Inv(c, base, s)
  {
    var states, events :| Path(c, states, events, Init(c, base, index), s);
    EveryStateIsInOrder(c, base, index, states, events, |events|);
  }

  /** What a schedule keeps track of while pod `r` runs: `r`'s marks, the pin of link `k` of `p`, and whether
      `r` is the only shaper. */
  datatype Tracks = Tracks(pinned: bool, only: bool)

  ghost predicate Tracked(c: Cluster, s: State, r: nat, p: nat, k: nat, x: Tracks) {
    && r < |s.pcs| && Marked(c, s, r)
    && (x.pinned ==> r != p && Pinned(c, s, p, k))
    && (x.only ==> OnlyShaper(s, r))
  }

  lemma SoloStepTracks(c: Cluster, base: Table, index: map<Slot, string>, s: State, r: nat, p: nat, k: nat,
                       x: Tracks) returns (t: State)
    requires Reached(c, base, index, s) && Calm(c, s, r) && Tracked(c, s, r, p, k, x) && !s.pcs[r].Done?
    ensures Reached(c, base, index, t) && Calm(c, t, r) && Tracked(c, t, r, p, k, x)
    ensures forall p: nat :: p < |c.pods| && p != r ==> t.pcs[p] == s.pcs[p]
    ensures PcOk(c, r, s.pcs[r]) && PcOk(c, r, t.pcs[r]) && Left(c, r, t.pcs[r]) < Left(c, r, s.pcs[r])
  {
    ReachedIsInOrder(c, base, index, s);
    SoloIsEnabled(c, s, r);
    t := Step(c, s, r, Go);
    SoloStep(c, base, index, s, r);
    SoloStepMarks(c, base, index, s, r);
    ReachesNext(c, Init(c, base, index), s, r, Go);
    ReachedIsInOrder(c, base, index, t);
    if x.pinned { PinKept(c, base, index, s, r, p, k); }
    if x.only { OnlyShaperKept(c, s, r); }
    WorkFollows(c, s, r, Go);
    EveryMoveCounts(c, r, s.pcs[r], t.pcs[r]);
  }

  /** Run pod `r` alone until it is set up. */
  lemma SoloRun(c: Cluster, base: Table, index: map<Slot, string>, s: State, r: nat, p: nat, k: nat,
                x: Tracks) returns (t: State)
    requires Reached(c, base, index, s) && Calm(c, s, r) && Tracked(c, s, r, p, k, x)
    ensures Reached(c, base, index, t) && Calm(c, t, r) && Tracked(c, t, r, p, k, x) && t.pcs[r].Done?
    ensures forall p: nat :: p < |c.pods| && p != r ==> t.pcs[p] == s.pcs[p]
    decreases if PcOk(c, r, s.pcs[r]) then Left(c, r, s.pcs[r]) else 0
  {
    t := s;
    if !s.pcs[r].Done? {
      t := SoloStepTracks(c, base, index, s, r, p, k, x);
      t := SoloRun(c, base, index, t, r, p, k, x);
    }
  }

  /** The pod has not started on its links. */
  predicate AtFirst(c: Cluster, s: State, p: nat) { p < |c.pods| == |s.pcs| && s.pcs[p] == NextLink(c, p, 0) }

  /** All pods are published, and each has either not started on its links or is set up. */
  ghost predicate Queued(c: Cluster, s: State) {
    && |s.pcs| == |c.pods| && s.skipped == {}
    && forall p: nat :: p < |c.pods| ==> p in s.alive && (s.pcs[p].Done? || AtFirst(c, s, p))
  }

  lemma FreshPodIsMarked(c: Cluster, s: State, r: nat)
    requires AtFirst(c, s, r)
    ensures Marked(c, s, r)
  {
  }

  /** Publish the first `n` pods. */
  lemma PublishAll(c: Cluster, base: Table, index: map<Slot, string>, n: nat) returns (s: State)
    requires Setup(c, base, index) && n <= |c.pods|
    ensures Reached(c, base, index, s) && |s.pcs| == |c.pods| && s.skipped == {} && s.shaper == map[]
    ensures forall p: nat :: p < n ==> s.pcs[p] == NextLink(c, p, 0) && p in s.alive
    ensures forall p: nat :: n <= p < |c.pods| ==> s.pcs[p].Start?
  {
    if n == 0 {
      s := Init(c, base, index);
      ReachesSelf(c, s);
    } else {
      var s0 := PublishAll(c, base, index, n - 1);
      s := PublishOne(c, base, index, s0, n - 1);
    }
  }

  lemma PublishOne(c: Cluster, base: Table, index: map<Slot, string>, s: State, p: nat) returns (t: State)
    requires Reached(c, base, index, s) && p < |c.pods| == |s.pcs| && s.pcs[p].Start?
    ensures Reached(c, base, index, t) && t.shaper == s.shaper && t.skipped == s.skipped
    ensures t.pcs == s.pcs[p := NextLink(c, p, 0)] && t.alive == s.alive + {p}
  {
    WorkOfQuietStep(c, s, p, Go);
    ReachesNext(c, Init(c, base, index), s, p, Go);
    t := Step(c, s, p, Go);
  }

  /** Run the first `n` pods except `last`, one after the other. */
  lemma RunPods(c: Cluster, base: Table, index: map<Slot, string>, s: State, n: nat, last: nat, k: nat,
                pinned: bool) returns (t: State)
    requires Reached(c, base, index, s) && Queued(c, s) && n <= |c.pods| && last < |c.pods|
             && (pinned ==> Pinned(c, s, last, k))
    ensures Reached(c, base, index, t) && Queued(c, t) && t.pcs[last] == s.pcs[last]
            && (pinned ==> Pinned(c, t, last, k))
    ensures forall r: nat :: r < n && r != last ==> t.pcs[r].Done?
  {
    t := s;
    if n > 0 {
      t := RunPods(c, base, index, s, n - 1, last, k, pinned);
      if n - 1 != last && !t.pcs[n - 1].Done? {
        t := RunPod(c, base, index, t, n - 1, last, k, pinned);
      }
    }
  }

  lemma RunPod(c: Cluster, base: Table, index: map<Slot, string>, s: State, r: nat, last: nat, k: nat,
               pinned: bool) returns (t: State)
    requires Reached(c, base, index, s) && Queued(c, s) && r < |c.pods| && r != last && last < |c.pods|
    requires !s.pcs[r].Done? && (pinned ==> Pinned(c, s, last, k))
    ensures Reached(c, base, index, t) && Queued(c, t) && t.pcs[r].Done? && (pinned ==> Pinned(c, t, last, k))
    ensures forall p: nat :: p < |c.pods| && p != r ==> t.pcs[p] == s.pcs[p]
  {
    FreshPodIsMarked(c, s, r);
    t := SoloRun(c, base, index, s, r, last, k, Tracks(pinned, false));
  }

  // ---- the two kinds of schedule ----

  /** Between nodes: with `p` running last, both ends of its links bear its mark. */
  lemma LastPodDecides(c: Cluster, base: Table, index: map<Slot, string>, p: nat) returns (t: State)
    requires Setup(c, base, index) && p < |c.pods|
    ensures Reached(c, base, index, t) && AllDone(c, t) && t.skipped == {} && Marked(c, t, p)
  {
    t := PublishAll(c, base, index, |c.pods|);
    t := RunPods(c, base, index, t, |c.pods|, p, 0, false);
    FreshPodIsMarked(c, t, p);
    t := SoloRun(c, base, index, t, p, 0, 0, Tracks(false, false));
  }

  /** Within a node: with `p` running first, the pair of each of its links is shaped by it. */
  lemma FirstPodDecides(c: Cluster, base: Table, index: map<Slot, string>, p: nat, k: nat) returns (t: State)
    requires Setup(c, base, index) && IsLink(c, p, k) && SameHost(c, p, k)
    ensures Reached(c, base, index, t) && AllDone(c, t)
    ensures Lookup(t.shaper, MyEnd(c, p, k)) == Some(Shaper(p, k, Mine))
  {
    t := PublishAll(c, base, index, |c.pods|);
    FreshPodIsMarked(c, t, p);
    t := SoloRun(c, base, index, t, p, 0, 0, Tracks(false, true));
    PinAfterFirst(c, base, index, t, p, k);
    t := RunPods(c, base, index, t, |c.pods|, p, k, true);
  }

  lemma PinAfterFirst(c: Cluster, base: Table, index: map<Slot, string>, s: State, p: nat, k: nat)
    requires Reached(c, base, index, s) && Calm(c, s, p) && IsLink(c, p, k) && SameHost(c, p, k) && s.pcs[p].Done?
             && OnlyShaper(s, p)
    requires forall q: nat :: q < |c.pods| && q != p ==> AtFirst(c, s, q)
    ensures Pinned(c, s, p, k)
  {
    ReachedIsInOrder(c, base, index, s);
    var q, j := HasTwin(c, p, k);
    TwinViews(c, p, k, q, j);
    assert LinkOk(c, s, p, k, q, j);
    assert AtFirst(c, s, q);
    PinFromTwin(c, s, p, k, q, j);
  }

  /** The final tree of an end is the one its last shaper leaves. */
  lemma FinalTree(c: Cluster, base: Table, index: map<Slot, string>, s: State, p: nat, i: nat, q: nat, j: nat)
    requires Reached(c, base, index, s) && AllDone(c, s) && Twin(c, p, i, q, j)
    ensures MyEnd(c, p, i) in s.table && !s.table[MyEnd(c, p, i)].Foreign? && MyEnd(c, p, i) in s.shaper
    ensures s.table[MyEnd(c, p, i)].tree == TreeBy(c, s.shaper[MyEnd(c, p, i)])
    ensures c.pods[p].space.node == c.pods[q].space.node ==>
              Lookup(s.shaper, MyEnd(c, p, i)) == Lookup(s.shaper, MyEnd(c, q, j))
  {
    ReachedIsInOrder(c, base, index, s);
    TwinViews(c, p, i, q, j);
    assert LinkOk(c, s, p, i, q, j);
    assert !((p, i) in s.skipped && (q, j) in s.skipped);
  }

  /** Non-confluence: if the two declarations of some link shape it differently, two schedules of the same cluster
      from the same start both complete and end with different interfaces. */
  lemma DisagreementShows(c: Cluster, base: Table, index: map<Slot, string>, p: nat, i: nat, q: nat, j: nat)
    returns (t: State, u: State)
    requires Setup(c, base, index) && Twin(c, p, i, q, j) && !AgreedOn(c, p, i, q, j)
    ensures Reached(c, base, index, t) && Reached(c, base, index, u) && AllDone(c, t) && AllDone(c, u)
    ensures t.table != u.table
  {
    TwinViews(c, p, i, q, j);
    var e := MyEnd(c, p, i);
    if SameHost(c, p, i) {
      t := FirstPodShapes(c, base, index, p, i);
      u := FirstPodShapes(c, base, index, q, j);
    } else {
      t := LastPodShapes(c, base, index, p, i);
      u := LastPodShapes(c, base, index, q, j);
    }
    assert t.table[e].tree != u.table[e].tree;
  }

  /** What an end of a link is shaped as. */
  ghost predicate EndShaped(t: Table, e: End, props: Qdisc.Props, bypass: bool) {
    e in t && !t[e].Foreign? && Shaped(t[e].tree, props, bypass)
  }

  /** Between nodes there is a complete schedule, with `p` running last, in which its declaration of a link shapes both
      ends: its own with the bypass setting, the far one without. */
  lemma LastPodShapes(c: Cluster, base: Table, index: map<Slot, string>, p: nat, i: nat) returns (t: State)
    requires Setup(c, base, index) && IsLink(c, p, i) && !SameHost(c, p, i)
    ensures Reached(c, base, index, t) && AllDone(c, t)
    ensures EndShaped(t.table, MyEnd(c, p, i), LinkOf(c, p, i).props, c.bypass)
    ensures EndShaped(t.table, PeerEnd(c, p, i), LinkOf(c, p, i).props, false)
  {
    var q, j := HasTwin(c, p, i);
    TwinViews(c, p, i, q, j);
    t := LastPodDecides(c, base, index, p);
    DoneIsMarked(c, base, index, t, p, i);
    FinalTree(c, base, index, t, p, i, q, j);
    FinalTree(c, base, index, t, q, j, p, i);
    ShaperShapes(c, p, i);
  }

  /** Within a node there is one, with `p` running first, in which its declaration shapes both ends with the bypass
      setting. */
  lemma FirstPodShapes(c: Cluster, base: Table, index: map<Slot, string>, p: nat, i: nat) returns (t: State)
    requires Setup(c, base, index) && IsLink(c, p, i) && SameHost(c, p, i)
    ensures Reached(c, base, index, t) && AllDone(c, t)
    ensures EndShaped(t.table, MyEnd(c, p, i), LinkOf(c, p, i).props, c.bypass)
    ensures EndShaped(t.table, PeerEnd(c, p, i), LinkOf(c, p, i).props, c.bypass)
  {
    var q, j := HasTwin(c, p, i);
    TwinViews(c, p, i, q, j);
    t := FirstPodDecides(c, base, index, p, i);
    FinalTree(c, base, index, t, p, i, q, j);
    FinalTree(c, base, index, t, q, j, p, i);
    ShaperShapes(c, p, i);
  }

  /** The outcome is independent of the schedule exactly when both declarations of every link shape it alike. */
  lemma ConfluentExactlyWhenAgreed(c: Cluster, base: Table, index: map<Slot, string>)
    requires Setup(c, base, index)
    ensures Agreed(c) <==>
            forall t, u ::
              Reached(c, base, index, t) && Reached(c, base, index, u) && AllDone(c, t) && AllDone(c, u) ==>
              t.table == u.table
  {
    if Agreed(c) {
      forall t, u | Reached(c, base, index, t) && Reached(c, base, index, u) && AllDone(c, t) && AllDone(c, u)
        ensures t.table == u.table
      {
        var states, events :| Path(c, states, events, Init(c, base, index), t);
        var states', events' :| Path(c, states', events', Init(c, base, index), u);
        AgreedClustersConverge(c, base, index, states, events, states', events');
      }
    } else {
      var p: nat, i: nat, q: nat, j: nat :| Twin(c, p, i, q, j) && !AgreedOn(c, p, i, q, j);
      var t, u := DisagreementShows(c, base, index, p, i, q, j);
    }
  }

  lemma DoneIsMarked(c: Cluster, base: Table, index: map<Slot, string>, s: State, r: nat, k: nat)
    requires Reached(c, base, index, s) && AllDone(c, s) && s.skipped == {} && IsLink(c, r, k) && !SameHost(c, r, k)
             && Marked(c, s, r)
    ensures Lookup(s.shaper, MyEnd(c, r, k)) == Some(Shaper(r, k, Mine))
    ensures Lookup(s.shaper, PeerEnd(c, r, k)) == Some(Shaper(r, k, Theirs))
  {
    assert MarkedAs(c, s, r, k, Mine) && MarkedAs(c, s, r, k, Theirs);
  }
}
