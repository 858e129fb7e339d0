/** Traffic shaping on one interface: the qdisc list built from link properties, and the code that
    clears and reprograms the interface's qdisc tree (`common/qdisc.go`). */
module Qdisc {
  import opened Options
  import Rate

  /** The netem fields of `LinkProperties`, taken together: all at their defaults, all parsed
      (`params` stands for their values, 0 for all-zero), or at least one unparsable. */
  datatype NetemFields = Unset | Parsed(params: nat) | Malformed

  datatype Props = Props(netem: NetemFields, rate: string)

  datatype Qdisc = Netem(params: nat) | Tbf(rate: nat, burst: nat)

  /** What is installed on an interface.  The token bucket is a child of netem and the
      redirect-disabling filter hangs off clsact, so neither exists without its parent. */
  datatype Tree = Tree(netem: Option<nat>, tbf: Option<(nat, nat)>, clsact: bool, filter: bool)

  predicate WellFormed(t: Tree) {
    && (t.tbf.Some? ==> t.netem.Some?)
    && (t.filter ==> t.clsact)
  }

  const EMPTY := Tree(None, None, false, false)

  // ---- the plan ----

  /** The qdiscs that a set of properties asks for; `None` if a field does not parse. */
  ghost function Plan(p: Props): Option<seq<Qdisc>> {
    if p.netem.Unset? && p.rate == "" then Some([])
    else if p.netem.Malformed? || Rate.Meaning(p.rate).None? then None
    else
      var rate := Rate.Meaning(p.rate).value;
      var netem := Netem(if p.netem.Unset? then 0 else p.netem.params);
      Some(if rate == 0 then [netem] else [netem, Tbf(rate, Rate.TbfBurst(rate))])
  }

  /** `MakeQdiscs`. */
  method MakeQdiscs(p: Props) returns (r: Option<seq<Qdisc>>)
    ensures r == Plan(p)
  {
    if p.netem.Unset? && p.rate == "" { return Some([]); }
    if p.netem.Malformed? { return None; }
    var qdiscs := [Netem(if p.netem.Unset? then 0 else p.netem.params)];
    var rate := Rate.ParseRate(p.rate);
    if rate.None? { return None; }
    if rate.value != 0 {
      qdiscs := qdiscs + [Tbf(rate.value, Rate.TbfBurst(rate.value))];
    }
    assert rate.value != 0 ==>
             qdiscs == [Netem(if p.netem.Unset? then 0 else p.netem.params),
                        Tbf(rate.value, Rate.TbfBurst(rate.value))];
    return Some(qdiscs);
  }

  /** The tree that the properties and the bypass setting call for, with no history in it: netem at
      the root iff anything is set, a token bucket below it iff the rate is nonzero, the
      redirect-disabling filter iff anything is set and the bypass is on. */
  ghost function Wanted(p: Props, bypass: bool): Tree
    requires Plan(p).Some?
  {
    if p.netem.Unset? && p.rate == "" then EMPTY
    else
      var rate := Rate.Meaning(p.rate).value;
      Tree(Some(if p.netem.Unset? then 0 else p.netem.params),
           if rate == 0 then None else Some((rate, Rate.TbfBurst(rate))),
           bypass, bypass)
  }

  /** The wanted tree, part by part, for properties of which something is set. */
  lemma WantedSpelledOut(p: Props, bypass: bool)
    requires Plan(p).Some?
    ensures var t := Wanted(p, bypass);
            var rate := Rate.Meaning(p.rate);
            if p.netem == Unset && p.rate == "" then
              t.netem == None && t.tbf == None && !t.clsact && !t.filter
            else
              && t.netem == Some(if p.netem.Parsed? then p.netem.params else 0) && rate.Some?
              && (t.tbf.Some? <==> rate != Some(0))
              && (t.tbf.Some? ==> t.tbf.value.0 == rate.value && t.tbf.value.1 >= 5000)
              && (t.clsact <==> bypass) && (t.filter <==> bypass)
  {
  }

  /** Properties ask for no tree exactly when a field does not parse. */
  lemma PlanExistsExactlyWhen(p: Props)
    ensures Plan(p).Some? <==> !p.netem.Malformed? && Rate.Meaning(p.rate).Some?
  {
    if p.rate == "" { Rate.EmptyMeansNoLimit(); }
  }

  // ---- the kernel's side ----

  datatype Kind = RootNetem | ChildTbf | Clsact

  predicate Has(t: Tree, k: Kind) {
    match k
    case RootNetem => t.netem.Some?
    case ChildTbf => t.tbf.Some?
    case Clsact => t.clsact
  }

  /** Deleting a qdisc takes along what hangs off it. */
  function Without(t: Tree, k: Kind): Tree {
    match k
    case RootNetem => t.(netem := None, tbf := None)
    case ChildTbf => t.(tbf := None)
    case Clsact => t.(clsact := false, filter := false)
  }

  /** The additions that programming makes, one kernel call or `tc` command each. */
  datatype Addition = AddNetem | AddTbf | AddClsact | AddFilter

  /** What goes wrong: the qdiscs cannot be listed at all, some cannot be deleted, some additions are refused. */
  datatype Faults = Faults(unlisted: bool, stuck: set<Kind>, refused: set<Addition>)

  const NO_FAULTS := Faults(false, {}, {})

  /** A listing of the tree, in whatever order the kernel reports it. */
  predicate Lists(t: Tree, listing: seq<Kind>) {
    forall k :: k in listing <==> Has(t, k)
  }

  /** What clearing leaves: nothing that could be deleted, in any listing order. */
  function Cleared(t: Tree, f: Faults): Tree {
    if f.unlisted then t
    else
      var t1 :=
        if RootNetem !in f.stuck then Without(t, RootNetem)
        else if ChildTbf !in f.stuck then Without(t, ChildTbf)
        else t;
      if Clsact in f.stuck then t1 else Without(t1, Clsact)
  }

  class Interface {
    var tree: Tree

    constructor (t: Tree)
      ensures tree == t
    {
      tree := t;
    }

    /** `netlink.QdiscDel`. */
    method QdiscDel(k: Kind, stuck: set<Kind>) returns (ok: bool)
      modifies this
      ensures ok <==> k !in stuck && old(Has(tree, k))
      ensures tree == if ok then Without(old(tree), k) else old(tree)
    {
      ok := k !in stuck && Has(tree, k);
      if ok { tree := Without(tree, k); }
    }

    /** `ClearVethQdiscs`: deletes every netem, tbf and clsact it is shown.  A failed deletion, such as
        that of a token bucket that already went with its parent, is only logged. */
    method ClearVethQdiscs(listing: seq<Kind>, f: Faults) returns (ok: bool)
      requires WellFormed(tree) && Lists(tree, listing)
      modifies this
      ensures ok <==> !f.unlisted
      ensures tree == Cleared(old(tree), f) && WellFormed(tree)
    {
      if f.unlisted { return false; }
      ghost var before := tree;
      for i := 0 to |listing|
        invariant WellFormed(tree)
        invariant tree.netem == if RootNetem in listing[..i] && RootNetem !in f.stuck then None else before.netem
        invariant tree.tbf == if tree.netem.None?
                  || (ChildTbf in listing[..i] && ChildTbf !in f.stuck) then None else before.tbf
        invariant tree.clsact == (before.clsact && !(Clsact in listing[..i] && Clsact !in f.stuck))
        invariant tree.filter == (before.filter && !(Clsact in listing[..i] && Clsact !in f.stuck))
      {
        assert listing[..i + 1] == listing[..i] + [listing[i]];
        var deleted := QdiscDel(listing[i], f.stuck);
      }
      assert listing[..|listing|] == listing;
      return true;
    }

    /** `SetVethQdiscs`, with the errors of `ClearVethQdiscs` ignored as in the code.  Adding netem fails over an
        existing root, adding clsact over an existing one, and any addition may be refused. */
    method SetVethQdiscs(qdiscs: seq<Qdisc>, bypass: bool, listing: seq<Kind>, f: Faults) returns (ok: bool)
      requires WellFormed(tree) && Lists(tree, listing)
      requires Planned(qdiscs)
      modifies this
      ensures WellFormed(tree)
      ensures (tree, ok) == Program(Cleared(old(tree), f), qdiscs, bypass, f.refused)
    {
      var cleared := ClearVethQdiscs(listing, f);
      if |qdiscs| == 0 { return true; }
      for i := 0 to |qdiscs|
        invariant i == 0 ==> tree == Cleared(old(tree), f)
        invariant i > 0 ==> Cleared(old(tree), f).netem.None? && AddNetem !in f.refused
        invariant i == 1 ==> tree == WithNetem(Cleared(old(tree), f), qdiscs)
        invariant i == 2 ==> AddTbf !in f.refused && tree == WithTbf(WithNetem(Cleared(old(tree), f), qdiscs), qdiscs)
      {
        match qdiscs[i]
        case Netem(params) =>
          if tree.netem.Some? || AddNetem in f.refused { return false; }
          tree := tree.(netem := Some(params));
        case Tbf(rate, burst) =>
          if AddTbf in f.refused { return false; }
          tree := tree.(tbf := Some((rate, burst)));
      }
      if bypass {
        if tree.clsact || AddClsact in f.refused { return false; }
        tree := tree.(clsact := true);
        if AddFilter in f.refused { return false; }
        tree := tree.(filter := true);
      }
      return true;
    }
  }

  /** The lists that `MakeQdiscs` builds: a netem, possibly followed by a token bucket. */
  predicate Planned(qdiscs: seq<Qdisc>) {
    qdiscs == [] || (qdiscs[0].Netem? && |qdiscs| <= 2 && (|qdiscs| == 2 ==> qdiscs[1].Tbf?))
  }

  function WithNetem(t: Tree, qdiscs: seq<Qdisc>): Tree
    requires Planned(qdiscs) && qdiscs != []
  {
    t.(netem := Some(qdiscs[0].params), tbf := None)
  }

  function WithTbf(t: Tree, qdiscs: seq<Qdisc>): Tree
    requires Planned(qdiscs)
  {
    if |qdiscs| == 2 then t.(tbf := Some((qdiscs[1].rate, qdiscs[1].burst))) else t
  }

  /** Programming a list over what clearing left: the tree, and whether all additions went through. */
  function Program(left: Tree, qdiscs: seq<Qdisc>, bypass: bool, refused: set<Addition>): (Tree, bool)
    requires Planned(qdiscs)
  {
    if qdiscs == [] then (left, true)
    else if left.netem.Some? || AddNetem in refused then (left, false)
    else if |qdiscs| == 2 && AddTbf in refused then (WithNetem(left, qdiscs), false)
    else
      var t := WithTbf(WithNetem(left, qdiscs), qdiscs);
      if !bypass then (t, true)
      else if t.clsact || AddClsact in refused then (t, false)
      else if AddFilter in refused then (t.(clsact := true), false)
      else (t.(clsact := true, filter := true), true)
  }

  // ---- what programming guarantees ----

  lemma PlansAreBuilt(p: Props)
    requires Plan(p).Some?
    ensures Planned(Plan(p).value)
  {
  }

  /** History is forgotten: without faults, from any tree and listing order, programming succeeds and
      leaves the wanted tree. */
  lemma ForgetsHistory(before: Tree, p: Props, bypass: bool)
    requires Plan(p).Some?
    ensures Planned(Plan(p).value) && Cleared(before, NO_FAULTS) == EMPTY
    ensures Program(Cleared(before, NO_FAULTS), Plan(p).value, bypass, {}) == (Wanted(p, bypass), true)
  {
  }

  /** The kind of qdisc is there and clearing does not get rid of it. */
  predicate Stale(before: Tree, f: Faults, k: Kind) { Has(before, k) && (f.unlisted || k in f.stuck) }

  /** A stale qdisc is where a new one has to go. */
  predicate Obstructed(before: Tree, f: Faults, bypass: bool) {
    Stale(before, f, RootNetem) || (bypass && Stale(before, f, Clsact))
  }

  /** Some addition that the list calls for is refused. */
  predicate Refuses(f: Faults, qdiscs: seq<Qdisc>, bypass: bool) {
    || AddNetem in f.refused || (|qdiscs| == 2 && AddTbf in f.refused)
    || (bypass && (AddClsact in f.refused || AddFilter in f.refused))
  }

  /** With faults, success is reported exactly for an empty list, or if neither a stale root nor, with the bypass on, a
      stale clsact is in the way and no addition is refused.  The success is a true one exactly when nothing stale stays
      behind: for an empty list anything is, for a shaped one a clsact that nobody asked for. */
  lemma SuccessIsTrueExactlyWhen(before: Tree, p: Props, bypass: bool, f: Faults)
    requires WellFormed(before) && Plan(p).Some?
    ensures Planned(Plan(p).value)
    ensures var qdiscs := Plan(p).value;
            var (after, ok) := Program(Cleared(before, f), qdiscs, bypass, f.refused);
            && (ok <==> qdiscs == [] || !(Obstructed(before, f, bypass) || Refuses(f, qdiscs, bypass)))
            && (ok ==> (after == Wanted(p, bypass) <==>
                        if qdiscs == [] then !Stale(before, f, RootNetem) && !Stale(before, f, Clsact)
                        else bypass || !Stale(before, f, Clsact)))
  {
  }

  /** Such false successes happen: the properties are dropped, listing fails, and the old limit stays. */
  lemma IgnoredClearErrorKeepsOldShaping(before: Tree, bypass: bool)
    requires WellFormed(before) && before != EMPTY
    ensures var dropped, f := Props(Unset, ""), Faults(true, {}, {});
            && Plan(dropped) == Some([])
            && Program(Cleared(before, f), [], bypass, {}) == (before, true)
            && before != Wanted(dropped, bypass)
  {
  }
}
