/** The reconciler of one pod's topology: what it does to the pod's interfaces, attempt by attempt, wherever an attempt
    is cut short (`controllers/topology_controller.go`, with the daemon's batch handlers in
    `daemon/kubedtn/handler.go`). */
module Reconcile {
  import opened Options
  import opened Diff
  import Ids
  import Qdisc

  // ---- the pod's surroundings ----

  /** Where a peer pod is found: not up yet, on this host, or on another one. */
  datatype Host = Dead | ThisHost | OtherHost(ip: string)

  /** What stays fixed over the attempts: the peers' places, the bypass setting and the parser of the netem texts. */
  datatype Env = Env(hosts: map<string, Host>, bypass: bool, netem: seq<string> -> Qdisc.NetemFields)

  datatype Kind = Macvlan(parent: string) | Veth | Vxlan(vni: int, vtep: string)

  /** An interface in the pod: the link it was made for, what it is, and its qdiscs. */
  datatype Entry = Entry(id: Identity, kind: Kind, tree: Qdisc.Tree)

  type Cell = Option<Entry>

  /** The pod's link interfaces by name. */
  type Table = map<string, Entry>

  const PHYSICAL := "physical/"

  /** What `addLink` makes of a link: an error if there is no such peer, nothing if it is not alive, else an
      interface. */
  datatype Task = NoPeer | Wait | Make(kind: Kind)

  function TaskOf(e: Env, id: Identity): Task {
    if id.peerPod == "localhost" then Make(Macvlan(id.peerIntf))
    else if PHYSICAL <= id.peerPod then Make(Vxlan(Ids.VniFromUid(id.uid), id.peerPod[|PHYSICAL|..]))
    else if id.peerPod !in e.hosts then NoPeer
    else match e.hosts[id.peerPod]
      case Dead => Wait
      case ThisHost => Make(Veth)
      case OtherHost(ip) => Make(Vxlan(Ids.VniFromUid(id.uid), ip))
  }

  function PropsOf(e: Env, l: Link): Qdisc.Props { Qdisc.Props(e.netem(l.properties.netem), l.properties.rate) }

  /** The qdisc tree that a link asks for; `None` if its properties do not parse. */
  ghost function TreeFor(e: Env, l: Link): Option<Qdisc.Tree> {
    var plan := Qdisc.Plan(PropsOf(e, l));
    if plan.None? then None else Some(Qdisc.Wanted(PropsOf(e, l), e.bypass))
  }

  /** What an interface occupies besides its name, and no two can have at once: a veth its far end in the peer pod, a
      VXLAN its VNI. */
  datatype Handle = FarEnd(pod: string, intf: string) | Vni(vni: int)

  function HandleFor(id: Identity, kind: Kind): Option<Handle> {
    match kind
    case Macvlan(_) => None
    case Veth => Some(FarEnd(id.peerPod, id.peerIntf))
    case Vxlan(vni, _) => Some(Vni(vni))
  }

  /** The handle that an interface has, and the one that a link needs. */
  function HandleOf(entry: Entry): Option<Handle> { HandleFor(entry.id, entry.kind) }

  function Needs(e: Env, id: Identity): Option<Handle> {
    if TaskOf(e, id).Make? then HandleFor(id, TaskOf(e, id).kind) else None
  }

  /** An interface of another name has the handle. */
  predicate HeldElsewhere(t: Table, h: Option<Handle>, name: string) {
    h.Some? && exists m :: m in t && m != name && HandleOf(t[m]) == h
  }

  /** The table without such interfaces. */
  function Without(t: Table, h: Option<Handle>, name: string): Table {
    map m | m in t && (m == name || h.None? || HandleOf(t[m]) != h) :: t[m]
  }

  // ---- one operation ----

  /** How an operation ends: well, before it did anything, after clearing the name (and perhaps the interface that
      has the handle) but before making the interface, while shaping, when all was done but the reply got lost, or with
      an error that the code ignores (a refused removal, a refused clearing of qdiscs). */
  datatype Fault = Fine | Before | Cleared(other: bool) | Midway(tree: Qdisc.Tree) | Late | Ignored(tree: Qdisc.Tree)

  /** What is left under the name, whether the operation reports success, and whether an interface of another name
      that had the handle is gone. */
  datatype Outcome = Outcome(cell: Cell, ok: bool, clears: bool)

  /** `MakeQdiscs` and `SetVethQdiscs` on an existing interface. */
  ghost function Shape(e: Env, entry: Entry, l: Link, f: Fault, clears: bool): Outcome {
    if TreeFor(e, l).None? then Outcome(Some(entry), false, clears)
    else match f
      case Midway(tree) => Outcome(Some(entry.(tree := tree)), false, clears)
      case Ignored(tree) => Outcome(Some(entry.(tree := tree)), true, clears)
      case _ => Outcome(Some(entry.(tree := TreeFor(e, l).value)), !f.Late?, clears)
  }

  /** The interface is a veth to the given far end, or a VXLAN with the given VNI. */
  predicate Holds(cell: Cell, h: Option<Handle>) { cell.Some? && h.Some? && HandleOf(cell.value) == h }

  /** `addLink`, where `held` is whether an interface of another name has the handle.  A macvlan is made if its name
      is free, and never shaped.  For a veth, nothing is done if both its names exist, whatever bears the near one; else
      a single existing end is removed, which takes its other end along, and the pair is made.  A VXLAN that exists is
      kept, address and all, if it has the right VNI and VTEP; else it is made anew, at the cost of one that has the
      VNI.  It is shaped in either case. */
  ghost function AddOutcome(e: Env, cell: Cell, held: bool, l: Link, f: Fault): Outcome {
    if f.Before? then Outcome(cell, false, false)
    else match TaskOf(e, l.id)
      case NoPeer => Outcome(cell, false, false)
      case Wait => Outcome(cell, !f.Late?, false)
      case Make(Macvlan(parent)) =>
        if cell.Some? then Outcome(cell, false, false)
        else Outcome(Some(Entry(l.id, Macvlan(parent), Qdisc.EMPTY)), !f.Late?, false)
      case Make(Veth) =>
        if cell.Some? && (held || Holds(cell, Needs(e, l.id))) then Outcome(cell, !f.Late?, false)
        else if f.Cleared? then Outcome(None, false, f.other)
        else Shape(e, Entry(l.id, Veth, Qdisc.EMPTY), l, f, true)
      case Make(Vxlan(vni, vtep)) =>
        if cell.Some? && cell.value.kind == Vxlan(vni, vtep) then Shape(e, cell.value, l, f, false)
        else if f.Cleared? then Outcome(None, false, f.other)
        else Shape(e, Entry(l.id, Vxlan(vni, vtep), Qdisc.EMPTY), l, f, true)
  }

  /** `delLink`. */
  function DelOutcome(cell: Cell, f: Fault): Outcome {
    if f.Before? || f.Midway? then Outcome(cell, false, false)
    else if f.Ignored? then Outcome(cell, true, false)
    else Outcome(None, !f.Late?, false)
  }

  /** One turn of the loop in `UpdateLinks`.  Without an interface, only an empty list of qdiscs goes through. */
  ghost function UpdateOutcome(e: Env, cell: Cell, l: Link, f: Fault): Outcome {
    if f.Before? then Outcome(cell, false, false)
    else if cell.None? then Outcome(None, Qdisc.Plan(PropsOf(e, l)) == Some([]) && !f.Late?, false)
    else Shape(e, cell.value, l, f, false)
  }

  datatype Op = Del | Add | Update

  ghost function OutcomeOf(e: Env, op: Op, cell: Cell, held: bool, l: Link, f: Fault): Outcome {
    match op
    case Del => DelOutcome(cell, f)
    case Add => AddOutcome(e, cell, held, l, f)
    case Update => UpdateOutcome(e, cell, l, f)
  }

  function Put(t: Table, name: string, cell: Cell): Table {
    if cell.Some? then t[name := cell.value] else t - {name}
  }

  datatype Progress = Progress(table: Table, ok: bool)

  /** What an operation does to the pod's interfaces. */
  ghost function Operate(e: Env, op: Op, t: Table, l: Link, f: Fault): Progress {
    var name, h := l.id.localIntf, Needs(e, l.id);
    var o := OutcomeOf(e, op, Lookup(t, name), HeldElsewhere(t, h, name), l, f);
    Progress(Put(if o.clears then Without(t, h, name) else t, name, o.cell), o.ok)
  }

  // ---- batches and attempts ----

  /** A batch of operations of one kind, up to the first that fails. */
  ghost function Batch(e: Env, op: Op, t: Table, links: seq<Link>, faults: nat -> Fault): Progress
    decreases |links|
  {
    if links == [] then Progress(t, true)
    else
      var n := |links| - 1;
      var before := Batch(e, op, t, links[..n], faults);
      if !before.ok then before else Operate(e, op, before.table, links[n], faults(n))
  }

  lemma {:induction false} BatchStops(e: Env, op: Op, t: Table, links: seq<Link>, faults: nat -> Fault, i: nat)
    requires i <= |links| && !Batch(e, op, t, links[..i], faults).ok
    ensures Batch(e, op, t, links, faults) == Batch(e, op, t, links[..i], faults)
    decreases |links|
  {
    if i == |links| {
      assert links[..i] == links;
    } else {
      var n := |links| - 1;
      assert links[..n][..i] == links[..i];
      BatchStops(e, op, t, links[..n], faults, i);
    }
  }

  /** A list in the API: possibly not set at all. */
  type Links = Option<seq<Link>>

  function Items(links: Links): seq<Link> { if links.Some? then links.value else [] }

  datatype State = State(spec: Links, status: Links, table: Table)

  /** What befalls one attempt: a fault for every operation, whether the status gets written, and the spec that a
      user may have put in place by then. */
  datatype Fate = Fate(del: nat -> Fault, add: nat -> Fault, update: nat -> Fault, written: bool, edit: Option<Links>)

  /** The three batches, up to the first failure. */
  ghost function Batches(e: Env, t: Table, d: Delta, f: Fate): Progress {
    var one := Batch(e, Del, t, d.del, f.del);
    if !one.ok then one
    else
      var two := Batch(e, Add, one.table, d.add, f.add);
      if !two.ok then two else Batch(e, Update, two.table, d.changed, f.update)
  }

  datatype Attempted = Attempted(state: State, ok: bool)

  /** One call of `Reconcile`. */
  ghost function Attempt(e: Env, s: State, f: Fate): Attempted {
    if s.status == s.spec then Attempted(s, true)
    else
      var p := if s.status.None? then Progress(s.table, true)
               else Batches(e, s.table, DeltaOf(s.status.value, Items(s.spec)), f);
      if !p.ok then Attempted(s.(table := p.table), false)
      else Attempted(Written(s.(table := p.table), f), f.written)
  }

  /** The status write copies whichever spec is there when it happens. */
  function Written(s: State, f: Fate): State {
    var spec := if f.edit.Some? then f.edit.value else s.spec;
    s.(spec := spec, status := if f.written then spec else s.status)
  }

  // ---- the code ----

  class Topology {
    const e: Env
    var spec: Links
    var status: Links
    var table: Table

    constructor (e: Env, s: State)
      ensures this.e == e && Now() == s
    {
      this.e := e;
      spec, status, table := s.spec, s.status, s.table;
    }

    ghost function Now(): State reads this { State(spec, status, table) }

    /** Programs the qdiscs of an interface that exists. */
    method SetQdiscs(l: Link, f: Fault, ghost clears: bool) returns (ok: bool)
      requires l.id.localIntf in table
      modifies this`table
      ensures var o := Shape(e, old(table)[l.id.localIntf], l, f, clears);
              table == Put(old(table), l.id.localIntf, o.cell) && ok == o.ok
    {
      var name := l.id.localIntf;
      var plan := Qdisc.MakeQdiscs(PropsOf(e, l));
      if plan.None? {
        assert table == Put(table, name, Some(table[name]));
        return false;
      }
      Qdisc.ForgetsHistory(table[name].tree, PropsOf(e, l), e.bypass);
      var tree := match f
        case Midway(t) => t
        case Ignored(t) => t
        case _ => Qdisc.Program(Qdisc.EMPTY, plan.value, e.bypass, {}).0;
      table := table[name := table[name].(tree := tree)];
      return !f.Midway? && !f.Late?;
    }

    method AddLink(l: Link, f: Fault) returns (ok: bool)
      modifies this`table
      ensures Progress(table, ok) == Operate(e, Add, old(table), l, f)
    {
      var name, h := l.id.localIntf, Needs(e, l.id);
      assert Put(table, name, Lookup(table, name)) == table;
      if f.Before? { return false; }
      match TaskOf(e, l.id) {
        case NoPeer => return false;
        case Wait => return !f.Late?;
        case Make(kind) =>
          match kind {
            case Macvlan(_) =>
              if name in table { return false; }
              table := table[name := Entry(l.id, kind, Qdisc.EMPTY)];
              return !f.Late?;
            case Veth =>
              var iExist := name in table;
              var pExist := exists m :: m in table && HandleOf(table[m]) == h;
              if iExist && pExist { return !f.Late?; }
              ok := Make(l, kind, f);
            case Vxlan(_, _) =>
              if name in table && table[name].kind == kind {
                ok := SetQdiscs(l, f, false);
                return;
              }
              ok := Make(l, kind, f);
          }
      }
    }

    /** Clears the name and the handle, makes the interface and shapes it. */
    method Make(l: Link, kind: Kind, f: Fault) returns (ok: bool)
      requires TaskOf(e, l.id) == Task.Make(kind)
      modifies this`table
      ensures var name, h := l.id.localIntf, Needs(e, l.id);
              var o := if f.Cleared? then Outcome(None, false, f.other)
                       else Shape(e, Entry(l.id, kind, Qdisc.EMPTY), l, f, true);
              table == Put(if o.clears then Without(old(table), h, name) else old(table), name, o.cell) && ok == o.ok
    {
      var name, h := l.id.localIntf, Needs(e, l.id);
      if f.Cleared? {
        table := (if f.other then Without(table, h, name) else table) - {name};
        return false;
      }
      table := Without(table, h, name)[name := Entry(l.id, kind, Qdisc.EMPTY)];
      ok := SetQdiscs(l, f, true);
    }

    method DelLink(l: Link, f: Fault) returns (ok: bool)
      modifies this`table
      ensures Progress(table, ok) == Operate(e, Del, old(table), l, f)
    {
      assert Put(table, l.id.localIntf, Lookup(table, l.id.localIntf)) == table;
      if f.Before? || f.Midway? { return false; }
      if f.Ignored? { return true; }
      table := table - {l.id.localIntf};
      return !f.Late?;
    }

    method UpdateLink(l: Link, f: Fault) returns (ok: bool)
      modifies this`table
      ensures Progress(table, ok) == Operate(e, Update, old(table), l, f)
    {
      assert Put(table, l.id.localIntf, Lookup(table, l.id.localIntf)) == table;
      if f.Before? { return false; }
      if l.id.localIntf in table {
        ok := SetQdiscs(l, f, false);
      } else {
        var plan := Qdisc.MakeQdiscs(PropsOf(e, l));
        ok := plan == Some([]) && !f.Late?;
      }
    }

    method RunBatch(op: Op, links: seq<Link>, faults: nat -> Fault) returns (ok: bool)
      modifies this`table
      ensures Progress(table, ok) == Batch(e, op, old(table), links, faults)
    {
      for i := 0 to |links|
        invariant Progress(table, true) == Batch(e, op, old(table), links[..i], faults)
      {
        assert links[..i + 1][..i] == links[..i];
        match op {
          case Del => ok := DelLink(links[i], faults(i));
          case Add => ok := AddLink(links[i], faults(i));
          case Update => ok := UpdateLink(links[i], faults(i));
        }
        if !ok {
          BatchStops(e, op, old(table), links, faults, i + 1);
          return;
        }
      }
      assert links[..|links|] == links;
      return true;
    }

    method Reconcile(f: Fate) returns (ok: bool)
      modifies this
      ensures Attempted(Now(), ok) == Attempt(e, old(Now()), f)
    {
      if status == spec { return true; }
      if status.Some? {
        var add, del, changed := CalcDiff(status.value, Items(spec));
        ok := RunBatch(Del, del, f.del);
        if !ok { return; }
        ok := RunBatch(Add, add, f.add);
        if !ok { return; }
        ok := RunBatch(Update, changed, f.update);
        if !ok { return; }
      }
      if f.edit.Some? { spec := f.edit.value; }
      if f.written { status := spec; }
      return f.written;
    }
  }
}
