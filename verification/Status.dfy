/** The topology object at the API server, and its writers: the daemon publishes where the pod lives
    (`daemon/kubedtn/handler.go`), the controller records which links are in place
    (`controllers/topology_controller.go`).  Both write the whole status; a write that carries a stale resource version
    is refused. */
module Status {
  import opened Options
  import opened Reconcile

  datatype Alive = Alive(srcIp: string, netNs: string)

  datatype Object = Object(version: nat, spec: Links, alive: Alive, links: Links)

  /** Every version that the server ever stored, the current one last, and the copies that the writers hold.  A daemon's
      copy is the informer's cached object itself: handlers share it and change it in place. */
  datatype World = World(history: seq<Object>, daemons: map<nat, Object>, controllers: map<nat, Object>)

  predicate Started(w: World) { w.history != [] }

  function Current(w: World): Object
    requires Started(w)
  {
    w.history[|w.history| - 1]
  }

  datatype Event =
    | Edit(spec: Links)                          // a user changes the spec
    | DaemonReads(slot: nat, version: nat)       // the informer delivers some version, however old
    | DaemonMarks(slot: nat, alive: Alive)       // `SetAlive` assigns `SrcIP` and `NetNs`
    | DaemonWrites(slot: nat)                    // `UpdateStatus`
    | DaemonFinalizes(slot: nat)                 // `Update`, for the finalizers
    | ControllerReads(slot: nat, version: nat)
    | ControllerCopies(slot: nat)                // `Status.Links = Spec.Links`
    | ControllerWrites(slot: nat)                // `Status().Update`

  /** The server stores a new version. */
  function Store(w: World, o: Object): World
    requires Started(w)
  {
    w.(history := w.history + [o.(version := |w.history|)])
  }

  /** Whether the server accepts the event's write; `checked` is whether it compares versions. */
  predicate Accepted(w: World, e: Event, checked: bool)
    requires Started(w)
  {
    match e
    case DaemonWrites(i) => i in w.daemons && (checked ==> w.daemons[i].version == Current(w).version)
    case DaemonFinalizes(i) => i in w.daemons && (checked ==> w.daemons[i].version == Current(w).version)
    case ControllerWrites(i) => i in w.controllers && (checked ==> w.controllers[i].version == Current(w).version)
    case _ => false
  }

  /** A write of the status replaces all of it; a write of the object leaves the status alone. */
  function Next(w: World, e: Event, checked: bool): (r: World)
    requires Started(w)
    ensures Started(r)
  {
    match e
    case Edit(spec) => Store(w, Current(w).(spec := spec))
    case DaemonReads(i, v) => if v < |w.history| then w.(daemons := w.daemons[i := w.history[v]]) else w
    case DaemonMarks(i, alive) =>
      if i in w.daemons then w.(daemons := w.daemons[i := w.daemons[i].(alive := alive)]) else w
    case DaemonWrites(i) =>
      if !Accepted(w, e, checked) then w
      else Store(w, Current(w).(alive := w.daemons[i].alive, links := w.daemons[i].links))
    case DaemonFinalizes(i) =>
      if Accepted(w, e, checked) then Store(w, Current(w).(spec := w.daemons[i].spec)) else w
    case ControllerReads(i, v) => if v < |w.history| then w.(controllers := w.controllers[i := w.history[v]]) else w
    case ControllerCopies(i) =>
      if i !in w.controllers then w
      else w.(controllers := w.controllers[i := w.controllers[i].(links := w.controllers[i].spec)])
    case ControllerWrites(i) =>
      if !Accepted(w, e, checked) then w
      else Store(w, Current(w).(alive := w.controllers[i].alive, links := w.controllers[i].links))
  }

  function Run(first: Object, events: seq<Event>, checked: bool): (w: World)
    ensures Started(w)
  {
    if events == [] then World([first.(version := 0)], map[], map[])
    else Next(Run(first, events[..|events| - 1], checked), events[|events| - 1], checked)
  }

  // ---- what the last successful write of each side said ----

  function LastAlive(first: Object, events: seq<Event>, checked: bool): Alive {
    if events == [] then first.alive
    else
      var w, e := Run(first, events[..|events| - 1], checked), events[|events| - 1];
      if e.DaemonWrites? && Accepted(w, e, checked) then w.daemons[e.slot].alive
      else LastAlive(first, events[..|events| - 1], checked)
  }

  function LastLinks(first: Object, events: seq<Event>, checked: bool): Links {
    if events == [] then first.links
    else
      var w, e := Run(first, events[..|events| - 1], checked), events[|events| - 1];
      if e.ControllerWrites? && Accepted(w, e, checked) then w.controllers[e.slot].links
      else LastLinks(first, events[..|events| - 1], checked)
  }

  // ---- the invariant ----

  /** A copy belongs to a version of the object.  The daemon never touches the rest of it, nor does the controller. */
  predicate DaemonCopy(w: World, o: Object) {
    o.version < |w.history| && o.links == w.history[o.version].links && o.spec == w.history[o.version].spec
  }

  predicate ControllerCopy(w: World, o: Object) {
    o.version < |w.history| && o.alive == w.history[o.version].alive && o.spec == w.history[o.version].spec
  }

  ghost predicate Consistent(w: World) {
    && Started(w)
    && (forall v :: 0 <= v < |w.history| ==> w.history[v].version == v)
    && (forall i :: i in w.daemons ==> DaemonCopy(w, w.daemons[i]))
    && (forall i :: i in w.controllers ==> ControllerCopy(w, w.controllers[i]))
  }

  lemma NextKeepsConsistent(w: World, e: Event)
    requires Consistent(w)
    ensures Consistent(Next(w, e, true))
  {
  }

  lemma {:induction false} EveryRunIsConsistent(first: Object, events: seq<Event>)
    ensures Consistent(Run(first, events, true))
  {
    if events != [] {
      EveryRunIsConsistent(first, events[..|events| - 1]);
      NextKeepsConsistent(Run(first, events[..|events| - 1], true), events[|events| - 1]);
    }
  }

  // ---- no lost update ----

  /** An accepted write brings the writer's own part, and leaves the other one as it is. */
  lemma WritesOwnPart(w: World, e: Event)
    requires Consistent(w)
    ensures var o, r := Current(w), Current(Next(w, e, true));
            && r.alive == (if e.DaemonWrites? && Accepted(w, e, true) then w.daemons[e.slot].alive else o.alive)
            && r.links == (if e.ControllerWrites? && Accepted(w, e, true) then w.controllers[e.slot].links else o.links)
  {
  }

  /** In every interleaving of edits, reads of any age, changes in place and writes, the stored status holds the last
      successful daemon write and the last successful controller write. */
  lemma {:induction false} NoLostUpdate(first: Object, events: seq<Event>)
    ensures Current(Run(first, events, true)).alive == LastAlive(first, events, true)
    ensures Current(Run(first, events, true)).links == LastLinks(first, events, true)
  {
    if events != [] {
      NoLostUpdate(first, events[..|events| - 1]);
      EveryRunIsConsistent(first, events[..|events| - 1]);
      WritesOwnPart(Run(first, events[..|events| - 1], true), events[|events| - 1]);
    }
  }

  // ---- writes of fresh copies succeed ----

  /** In any reached world, a daemon that reads the current version, marks it and writes it before anything else happens
      succeeds, and its values are stored. */
  lemma FreshDaemonWriteSucceeds(w: World, i: nat, alive: Alive)
    requires Consistent(w)
    ensures var now := Current(w);
            var marked := Next(Next(w, DaemonReads(i, now.version), true), DaemonMarks(i, alive), true);
            && Accepted(marked, DaemonWrites(i), true)
            && Current(Next(marked, DaemonWrites(i), true)) == now.(version := now.version + 1, alive := alive)
  {
    assert Current(w).version == |w.history| - 1;
  }

  /** A controller that reads the current version, copies its spec and writes it before anything else happens
      succeeds, and the recorded links are the spec's. */
  lemma FreshControllerWriteSucceeds(w: World, i: nat)
    requires Consistent(w)
    ensures var now := Current(w);
            var copied := Next(Next(w, ControllerReads(i, now.version), true), ControllerCopies(i), true);
            && Accepted(copied, ControllerWrites(i), true)
            && Current(Next(copied, ControllerWrites(i), true)) == now.(version := now.version + 1, links := now.spec)
  {
    assert Current(w).version == |w.history| - 1;
  }

  /** A write is accepted exactly if its copy is of the current version. */
  lemma AcceptedExactlyWhenFresh(w: World, i: nat)
    requires Consistent(w)
    ensures Accepted(w, DaemonWrites(i), true) <==> i in w.daemons && w.daemons[i].version + 1 == |w.history|
    ensures Accepted(w, ControllerWrites(i), true) <==>
            i in w.controllers && w.controllers[i].version + 1 == |w.history|
  {
  }

  /** No version of the object changes more than one writer's part. */
  predicate OneWriter(a: Object, b: Object) {
    || (a.alive == b.alive && a.links == b.links)
    || (a.spec == b.spec && a.links == b.links)
    || (a.spec == b.spec && a.alive == b.alive)
  }

  lemma {:induction false} EveryVersionHasOneWriter(first: Object, events: seq<Event>, v: nat)
    requires v + 1 < |Run(first, events, true).history|
    ensures var h := Run(first, events, true).history; OneWriter(h[v], h[v + 1])
  {
    var w, e := Run(first, events[..|events| - 1], true), events[|events| - 1];
    EveryRunIsConsistent(first, events[..|events| - 1]);
    if v + 1 < |w.history| {
      EveryVersionHasOneWriter(first, events[..|events| - 1], v);
    } else {
      if e.DaemonWrites? { assert DaemonCopy(w, w.daemons[e.slot]); }
      if e.ControllerWrites? { assert ControllerCopy(w, w.controllers[e.slot]); }
    }
  }

  /** The finalizer write, which sends a whole object, never undoes an edit of the spec. */
  lemma FinalizersKeepTheSpec(first: Object, events: seq<Event>, i: nat)
    ensures Current(Run(first, events + [DaemonFinalizes(i)], true)).spec == Current(Run(first, events, true)).spec
  {
    assert (events + [DaemonFinalizes(i)])[..|events|] == events;
    EveryRunIsConsistent(first, events);
    var w := Run(first, events, true);
    if i in w.daemons { assert DaemonCopy(w, w.daemons[i]); }
  }

  /** The version check is needed: a controller that read before the pod came up would wipe out where it lives.  The
      check refuses this write; without it the daemon's write is lost. */
  lemma BlindWritesLoseTheDaemonsWrite(spec: Links, up: Alive)
    requires up != Alive("", "")
    ensures var first := Object(0, spec, Alive("", ""), None);
            && !Accepted(Run(first, Race(up), true), ControllerWrites(0), true)
            && LastAlive(first, Race(up) + [ControllerWrites(0)], false) == up
            && Current(Run(first, Race(up) + [ControllerWrites(0)], false)).alive == Alive("", "")
  {
    var first := Object(0, spec, Alive("", ""), None);
    RaceOutcome(first, up, true);
    RaceOutcome(first, up, false);
    assert (Race(up) + [ControllerWrites(0)])[..|Race(up)|] == Race(up);
  }

  /** The controller reads, the daemon publishes, the controller prepares its write. */
  function Race(up: Alive): seq<Event> {
    [ControllerReads(0, 0), DaemonReads(0, 0), DaemonMarks(0, up)] + [DaemonWrites(0), ControllerCopies(0)]
  }

  lemma RaceOutcome(first: Object, up: Alive, checked: bool)
    requires first.version == 0
    ensures var w := Run(first, Race(up), checked);
            && w.history == [first, first.(version := 1, alive := up)]
            && 0 in w.controllers && w.controllers[0] == first.(links := first.spec)
            && LastAlive(first, Race(up), checked) == up
  {
    var e1 := [ControllerReads(0, 0)];
    var e2 := e1 + [DaemonReads(0, 0)];
    var e3 := e2 + [DaemonMarks(0, up)];
    var e4 := e3 + [DaemonWrites(0)];
    var e5 := e4 + [ControllerCopies(0)];
    assert e1[..0] == [] && e2[..1] == e1 && e3[..2] == e2 && e4[..3] == e3 && e5[..4] == e4 && Race(up) == e5;
    assert Run(first, [], checked) == World([first], map[], map[]);
    assert Run(first, e1, checked) == World([first], map[], map[0 := first]);
    assert Run(first, e2, checked) == World([first], map[0 := first], map[0 := first]);
    assert Run(first, e3, checked) == World([first], map[0 := first.(alive := up)], map[0 := first]);
    assert Run(first, e4, checked).history == [first, first.(version := 1, alive := up)];
  }
}
