/** The difference between the links a topology had and the links it is to have
    (`controllers/topology_controller.go`). */
module Diff {
  import opened Options

  /** The texts of `LinkProperties`: those that go into netem, in their order, and the rate. */
  datatype Properties = Properties(netem: seq<string>, rate: string)

  /** What makes two links the same link: every field but the properties. */
  datatype Identity = Identity(
    localIntf: string, localIp: string, localMac: string,
    peerIntf: string, peerIp: string, peerMac: string, peerPod: string, uid: int)

  datatype Link = Link(id: Identity, properties: Properties)

  /** `EqualWithoutProperties`. */
  predicate EqualWithoutProperties(a: Link, b: Link) {
    && a.id.localIntf == b.id.localIntf && a.id.localIp == b.id.localIp && a.id.localMac == b.id.localMac
    && a.id.peerIntf == b.id.peerIntf && a.id.peerIp == b.id.peerIp && a.id.peerMac == b.id.peerMac
    && a.id.peerPod == b.id.peerPod && a.id.uid == b.id.uid
  }

  /** No field is forgotten. */
  lemma EqualWithoutPropertiesIsIdentity(a: Link, b: Link)
    ensures EqualWithoutProperties(a, b) <==> b == a.(properties := b.properties)
  {
  }

  // ---- what the diff is to be ----

  /** The first of `links` that is the same link as `l`. */
  function Find(links: seq<Link>, l: Link): Option<Link> {
    if links == [] then None
    else
      var earlier := Find(links[..|links| - 1], l);
      if earlier.None? && EqualWithoutProperties(l, links[|links| - 1]) then Some(links[|links| - 1]) else earlier
  }

  /** The links of `here` that `there` lacks. */
  function Missing(here: seq<Link>, there: seq<Link>): seq<Link> {
    if here == [] then []
    else
      var l := here[|here| - 1];
      Missing(here[..|here| - 1], there) + if Find(there, l).None? then [l] else []
  }

  /** The new version of every old link whose properties are to change, in the old order. */
  function Changed(before: seq<Link>, after: seq<Link>): seq<Link> {
    if before == [] then []
    else
      Changed(before[..|before| - 1], after) + ChangeOf(before[|before| - 1], after)
  }

  function ChangeOf(l: Link, after: seq<Link>): seq<Link> {
    var found := Find(after, l);
    if found.Some? && found.value.properties != l.properties then [found.value] else []
  }

  lemma {:induction false} FindIsStable(links: seq<Link>, j: nat, l: Link)
    requires j <= |links| && Find(links[..j], l).Some?
    ensures Find(links, l) == Find(links[..j], l)
  {
    if j == |links| {
      assert links[..j] == links;
    } else {
      var n := |links| - 1;
      assert links[..n][..j] == links[..j];
      FindIsStable(links[..n], j, l);
    }
  }

  // ---- the code ----

  method Search(links: seq<Link>, l: Link) returns (found: Option<Link>)
    ensures found == Find(links, l)
  {
    for j := 0 to |links|
      invariant Find(links[..j], l).None?
    {
      assert links[..j + 1][..j] == links[..j];
      if EqualWithoutProperties(l, links[j]) {
        FindIsStable(links, j + 1, l);
        return Some(links[j]);
      }
    }
    assert links[..|links|] == links;
    return None;
  }

  /** `CalcDiff`. */
  method CalcDiff(before: seq<Link>, after: seq<Link>) returns (add: seq<Link>, del: seq<Link>, changed: seq<Link>)
    ensures add == Missing(after, before) && del == Missing(before, after) && changed == Changed(before, after)
  {
    add, del, changed := [], [], [];
    for i := 0 to |before|
      invariant del == Missing(before[..i], after) && changed == Changed(before[..i], after)
    {
      assert before[..i + 1][..i] == before[..i];
      var found := Search(after, before[i]);
      if found.Some? {
        if before[i].properties != found.value.properties { changed := changed + [found.value]; }
      } else {
        del := del + [before[i]];
      }
    }
    assert before[..|before|] == before;
    for i := 0 to |after|
      invariant add == Missing(after[..i], before)
    {
      assert after[..i + 1][..i] == after[..i];
      var found := Search(before, after[i]);
      if found.None? { add := add + [after[i]]; }
    }
    assert after[..|after|] == after;
  }

  // ---- what the results contain ----

  predicate Distinct(links: seq<Link>) {
    forall i, j :: 0 <= i < j < |links| ==> links[i].id != links[j].id
  }

  lemma {:induction false} FindSpec(links: seq<Link>, l: Link)
    ensures Find(links, l).Some? ==> Find(links, l).value in links && Find(links, l).value.id == l.id
    ensures Find(links, l).None? ==> forall m :: m in links ==> m.id != l.id
  {
    if links != [] {
      FindSpec(links[..|links| - 1], l);
      assert links == links[..|links| - 1] + [links[|links| - 1]];
    }
  }

  ghost predicate Has(links: seq<Link>, id: Identity) {
    exists l :: l in links && l.id == id
  }

  lemma {:induction false} MissingSpec(here: seq<Link>, there: seq<Link>)
    ensures forall l :: l in Missing(here, there) <==> l in here && !Has(there, l.id)
    ensures Distinct(here) ==> Distinct(Missing(here, there))
  {
    if here != [] {
      var n := |here| - 1;
      MissingSpec(here[..n], there);
      FindSpec(there, here[n]);
      assert here == here[..n] + [here[n]];
      if Distinct(here) {
        assert forall l :: l in Missing(here[..n], there) ==> l.id != here[n].id;
      }
    }
  }

  lemma ChangedSpec(before: seq<Link>, after: seq<Link>)
    requires Distinct(after)
    ensures forall l :: l in Changed(before, after) <==>
              l in after && exists o :: o in before && o.id == l.id && o.properties != l.properties
    ensures Distinct(before) ==> Distinct(Changed(before, after))
  {
    ChangedMembers(before, after);
    if Distinct(before) { ChangedIsDistinct(before, after); }
  }

  lemma {:induction false} ChangedMembers(before: seq<Link>, after: seq<Link>)
    requires Distinct(after)
    ensures forall l :: l in Changed(before, after) <==>
              l in after && exists o :: o in before && o.id == l.id && o.properties != l.properties
  {
    if before != [] {
      var n := |before| - 1;
      ChangedMembers(before[..n], after);
      assert before == before[..n] + [before[n]];
      ChangeOfSpec(before[n], after);
    }
  }

  lemma {:induction false} ChangedIsDistinct(before: seq<Link>, after: seq<Link>)
    requires Distinct(after) && Distinct(before)
    ensures Distinct(Changed(before, after))
  {
    if before != [] {
      var n := |before| - 1;
      ChangedIsDistinct(before[..n], after);
      ChangedMembers(before[..n], after);
      ChangeOfSpec(before[n], after);
      assert forall l :: l in Changed(before[..n], after) ==> l.id != before[n].id;
    }
  }

  lemma ChangeOfSpec(o: Link, after: seq<Link>)
    requires Distinct(after)
    ensures forall l :: l in ChangeOf(o, after) <==> l in after && o.id == l.id && o.properties != l.properties
  {
    FindSpec(after, o);
  }

  // ---- links as a map ----

  /** A list of links as a map from identity to properties. */
  function ById(links: seq<Link>): map<Identity, Properties> {
    if links == [] then map[]
    else ById(links[..|links| - 1])[links[|links| - 1].id := links[|links| - 1].properties]
  }

  lemma {:induction false} ByIdSpec(links: seq<Link>)
    ensures forall id :: id in ById(links) <==> Has(links, id)
    ensures Distinct(links) ==> forall l :: l in links ==> l.id in ById(links) && ById(links)[l.id] == l.properties
  {
    if links != [] {
      ByIdSpec(links[..|links| - 1]);
      assert links == links[..|links| - 1] + [links[|links| - 1]];
    }
  }

  /** A delta between two lists of links. */
  datatype Delta = Delta(add: seq<Link>, del: seq<Link>, changed: seq<Link>)

  /** The old links without the deleted ones, with the added ones, and with the changed ones replaced. */
  function Apply(m: map<Identity, Properties>, d: Delta): map<Identity, Properties>
  {
    (m - ById(d.del).Keys) + ById(d.add) + ById(d.changed)
  }

  function DeltaOf(before: seq<Link>, after: seq<Link>): Delta {
    Delta(Missing(after, before), Missing(before, after), Changed(before, after))
  }

  /** The three results tell apart, without overlap, exactly the identities at which the lists differ. */
  lemma DiffIsAPartition(before: seq<Link>, after: seq<Link>, id: Identity)
    requires Distinct(before) && Distinct(after)
    ensures Has(DeltaOf(before, after).add, id) <==> id in ById(after) && id !in ById(before)
    ensures Has(DeltaOf(before, after).del, id) <==> id in ById(before) && id !in ById(after)
    ensures Has(DeltaOf(before, after).changed, id) <==>
            id in ById(before) && id in ById(after) && ById(before)[id] != ById(after)[id]
  {
    MissingSpec(after, before);
    MissingSpec(before, after);
    ChangedSpec(before, after);
    ByIdSpec(before);
    ByIdSpec(after);
    var d := DeltaOf(before, after);
    if id in ById(before) && id in ById(after) {
      var o :| o in before && o.id == id;
      var l :| l in after && l.id == id;
      assert ById(before)[id] == o.properties && ById(after)[id] == l.properties;
      if o.properties != l.properties { assert l in d.changed; }
    } else if id in ById(after) {
      var l :| l in after && l.id == id;
      assert l in d.add;
    } else if id in ById(before) {
      var o :| o in before && o.id == id;
      assert o in d.del;
    }
  }

  // ---- the diff as a patch ----

  /** The properties that the first link of an identity declares. */
  function FirstOf(links: seq<Link>, id: Identity): Option<Properties> {
    if links == [] then None
    else
      var earlier, l := FirstOf(links[..|links| - 1], id), links[|links| - 1];
      if earlier.None? && l.id == id then Some(l.properties) else earlier
  }

  lemma {:induction false} FirstIsFound(links: seq<Link>, l: Link)
    ensures FirstOf(links, l.id) == if Find(links, l).Some? then Some(Find(links, l).value.properties) else None
  {
    if links != [] { FirstIsFound(links[..|links| - 1], l); }
  }

  lemma {:induction false} FirstSpec(links: seq<Link>, id: Identity)
    ensures FirstOf(links, id).Some? <==> Has(links, id)
    ensures Distinct(links) ==> FirstOf(links, id) == Lookup(ById(links), id)
  {
    if links != [] {
      var n := |links| - 1;
      FirstSpec(links[..n], id);
      ByIdSpec(links[..n]);
      assert links == links[..n] + [links[n]];
    }
  }

  /** Additions keep the last version of a link, like the list they are taken from. */
  lemma {:induction false} MissingById(here: seq<Link>, there: seq<Link>, id: Identity)
    ensures Lookup(ById(Missing(here, there)), id) == if Has(there, id) then None else Lookup(ById(here), id)
  {
    if here != [] {
      var n := |here| - 1;
      MissingById(here[..n], there, id);
      FindSpec(there, here[n]);
      ByIdOfAppend(Missing(here[..n], there), here[n]);
    }
  }

  lemma ByIdOfAppend(links: seq<Link>, l: Link)
    ensures ById(links + [l]) == ById(links)[l.id := l.properties]
    ensures ById(links + []) == ById(links)
  {
    assert (links + [l])[..|links|] == links && links + [] == links;
  }

  /** Some old version of a link differs from its first new one. */
  ghost predicate Outdated(before: seq<Link>, id: Identity, first: Option<Properties>) {
    first.Some? && exists o :: o in before && o.id == id && o.properties != first.value
  }

  lemma ChangeOfIs(o: Link, after: seq<Link>)
    ensures var first := FirstOf(after, o.id);
            ChangeOf(o, after) == if first.Some? && first.value != o.properties then [Link(o.id, first.value)] else []
  {
    FirstIsFound(after, o);
    FindSpec(after, o);
  }

  lemma ChangedStep(before: seq<Link>, after: seq<Link>, first: Option<Properties>)
    requires before != [] && first == FirstOf(after, before[|before| - 1].id)
    ensures var o, earlier := before[|before| - 1], Changed(before[..|before| - 1], after);
            ById(Changed(before, after)) ==
            if first.Some? && first.value != o.properties then ById(earlier)[o.id := first.value] else ById(earlier)
  {
    var o, earlier := before[|before| - 1], Changed(before[..|before| - 1], after);
    ChangeOfIs(o, after);
    if first.Some? && first.value != o.properties {
      assert Changed(before, after) == earlier + [Link(o.id, first.value)];
      ByIdOfAppend(earlier, Link(o.id, first.value));
    } else {
      assert Changed(before, after) == earlier;
    }
  }

  lemma OutdatedStep(before: seq<Link>, id: Identity, first: Option<Properties>)
    requires before != []
    ensures var o := before[|before| - 1];
            Outdated(before, id, first) <==>
            Outdated(before[..|before| - 1], id, first) || (first.Some? && o.id == id && o.properties != first.value)
  {
    assert before == before[..|before| - 1] + [before[|before| - 1]];
  }

  /** Changes bring the first version of a link, if any old version differs from it. */
  lemma {:induction false} ChangedById(before: seq<Link>, after: seq<Link>, id: Identity, first: Option<Properties>)
    requires first == FirstOf(after, id)
    ensures Lookup(ById(Changed(before, after)), id) == if Outdated(before, id, first) then first else None
  {
    if before != [] {
      var o := before[|before| - 1];
      ChangedById(before[..|before| - 1], after, id, first);
      ChangedStep(before, after, FirstOf(after, o.id));
      OutdatedStep(before, id, first);
    }
  }

  lemma {:induction false} LastIsDeclared(links: seq<Link>, id: Identity)
    ensures Lookup(ById(links), id).Some? ==>
              exists l :: l in links && l.id == id && Lookup(ById(links), id) == Some(l.properties)
  {
    if links != [] {
      LastIsDeclared(links[..|links| - 1], id);
      assert links == links[..|links| - 1] + [links[|links| - 1]];
    }
  }

  /** What the patched list declares for an identity: for a link that stays the first new version, else the last one. */
  lemma PatchAt(before: seq<Link>, after: seq<Link>, id: Identity)
    ensures Lookup(Apply(ById(before), DeltaOf(before, after)), id) ==
            if Has(before, id) then FirstOf(after, id) else Lookup(ById(after), id)
  {
    MissingById(after, before, id);
    MissingById(before, after, id);
    ChangedById(before, after, id, FirstOf(after, id));
    FirstSpec(after, id);
    ByIdSpec(before);
    LastIsDeclared(before, id);
  }

  /** Exactly when the diff of any two lists is a correct patch: if no link that stays has a first and a last new
      version that differ. */
  lemma DiffIsAPatchExactlyWhen(before: seq<Link>, after: seq<Link>)
    ensures Apply(ById(before), DeltaOf(before, after)) == ById(after) <==>
            forall id :: Has(before, id) ==> FirstOf(after, id) == Lookup(ById(after), id)
  {
    var r := Apply(ById(before), DeltaOf(before, after));
    forall id ensures Lookup(r, id) == if Has(before, id) then FirstOf(after, id) else Lookup(ById(after), id) {
      PatchAt(before, after, id);
    }
    if forall id :: Has(before, id) ==> FirstOf(after, id) == Lookup(ById(after), id) {
      forall id ensures Lookup(r, id) == Lookup(ById(after), id) {}
      SameLookups(r, ById(after));
    }
  }

  /** So with distinct links the diff is always a correct patch. */
  lemma DiffIsAPatch(before: seq<Link>, after: seq<Link>)
    requires Distinct(after)
    ensures Apply(ById(before), DeltaOf(before, after)) == ById(after)
  {
    forall id ensures FirstOf(after, id) == Lookup(ById(after), id) { FirstSpec(after, id); }
    DiffIsAPatchExactlyWhen(before, after);
  }

  /** And a later version of a link that stays goes unseen: the patched list keeps the first one. */
  lemma DuplicatesGoUnseen(before: seq<Link>, after: seq<Link>, id: Identity)
    requires Has(before, id) && FirstOf(after, id) != Lookup(ById(after), id)
    ensures Apply(ById(before), DeltaOf(before, after)) != ById(after)
    ensures Lookup(Apply(ById(before), DeltaOf(before, after)), id) == FirstOf(after, id)
  {
    PatchAt(before, after, id);
  }

  /** Nothing is left to do exactly when the two lists hold the same links, in whatever order. */
  lemma DiffIsEmptyExactlyWhen(before: seq<Link>, after: seq<Link>)
    requires Distinct(before) && Distinct(after)
    ensures DeltaOf(before, after) == Delta([], [], []) <==> forall l :: l in before <==> l in after
    ensures (forall l :: l in before <==> l in after) <==> ById(before) == ById(after)
  {
    if DeltaOf(before, after) == Delta([], [], []) {
      EmptyDiffKeepsMap(before, after);
    }
    if ById(before) == ById(after) {
      SameMapSameLinks(before, after);
      SameMapSameLinks(after, before);
    }
    if forall l :: l in before <==> l in after {
      SameLinksEmptyDiff(before, after);
      EmptyDiffKeepsMap(before, after);
    }
  }

  lemma EmptyDiffKeepsMap(before: seq<Link>, after: seq<Link>)
    requires Distinct(before) && Distinct(after) && DeltaOf(before, after) == Delta([], [], [])
    ensures ById(before) == ById(after)
  {
    DiffIsAPatch(before, after);
    assert ById([]) == map[];
  }

  lemma SameMapSameLinks(before: seq<Link>, after: seq<Link>)
    requires Distinct(before) && Distinct(after) && ById(before) == ById(after)
    ensures forall l :: l in before ==> l in after
  {
    ByIdSpec(before);
    ByIdSpec(after);
    forall l | l in before ensures l in after {
      assert l.id in ById(after);
      var m :| m in after && m.id == l.id;
      assert m.properties == l.properties;
    }
  }

  lemma SameLinksEmptyDiff(before: seq<Link>, after: seq<Link>)
    requires Distinct(before) && Distinct(after) && forall l :: l in before <==> l in after
    ensures DeltaOf(before, after) == Delta([], [], [])
  {
    var d := DeltaOf(before, after);
    MissingSpec(after, before);
    MissingSpec(before, after);
    ChangedSpec(before, after);
    NothingIn(d.add);
    NothingIn(d.del);
    NothingIn(d.changed);
  }

  lemma NothingIn<T>(s: seq<T>)
    requires forall x :: x !in s
    ensures s == []
  {
    if s != [] { HasFirst(s); }
  }

  lemma HasFirst<T>(s: seq<T>)
    requires s != []
    ensures exists x :: x in s
  {
    assert s[0] in s;
  }

  // ---- counting ----

  lemma {:induction false} CountIsKeys(links: seq<Link>)
    requires Distinct(links)
    ensures |ById(links).Keys| == |links|
  {
    if links != [] {
      var n := |links| - 1;
      CountIsKeys(links[..n]);
      ByIdSpec(links[..n]);
      assert links[n].id !in ById(links[..n]);
      assert ById(links).Keys == ById(links[..n]).Keys + {links[n].id};
    }
  }

  lemma Sizes<T>(b: set<T>, a: set<T>, del: set<T>, add: set<T>)
    requires forall x :: x in del <==> x in b && x !in a
    requires forall x :: x in add <==> x in a && x !in b
    ensures |b| - |del| + |add| == |a|
  {
    assert b == del + b * a && a == add + b * a;
  }

  /** The counts balance. */
  lemma CountsBalance(before: seq<Link>, after: seq<Link>)
    requires Distinct(before) && Distinct(after)
    ensures |before| - |DeltaOf(before, after).del| + |DeltaOf(before, after).add| == |after|
  {
    var d := DeltaOf(before, after);
    MissingSpec(after, before);
    MissingSpec(before, after);
    CountIsKeys(before);
    CountIsKeys(after);
    CountIsKeys(d.add);
    CountIsKeys(d.del);
    ByIdSpec(before);
    ByIdSpec(after);
    ByIdSpec(d.add);
    ByIdSpec(d.del);
    forall id ensures (Has(d.del, id) <==> Has(before, id) && !Has(after, id))
      && (Has(d.add, id) <==> Has(after, id) && !Has(before, id)) {
      DiffIsAPartition(before, after, id);
    }
    Sizes(ById(before).Keys, ById(after).Keys, ById(d.del).Keys, ById(d.add).Keys);
  }

  // ---- along a chain of specs ----

  /** A spec and its successors. */
  datatype Chain = Only(spec: seq<Link>) | Then(earlier: Chain, spec: seq<Link>)

  function First(c: Chain): seq<Link> { if c.Only? then c.spec else First(c.earlier) }

  predicate AllDistinct(c: Chain) { Distinct(c.spec) && (c.Then? ==> AllDistinct(c.earlier)) }

  /** Applying, one after the other, the diffs between neighbours in the chain. */
  function ApplyChain(m: map<Identity, Properties>, c: Chain): map<Identity, Properties> {
    if c.Only? then m else Apply(ApplyChain(m, c.earlier), DeltaOf(c.earlier.spec, c.spec))
  }

  lemma {:induction false} ChainReaches(m: map<Identity, Properties>, c: Chain)
    requires AllDistinct(c) && m == ById(First(c))
    ensures ApplyChain(m, c) == ById(c.spec)
  {
    if c.Then? {
      ChainReaches(m, c.earlier);
      DiffIsAPatch(c.earlier.spec, c.spec);
    }
  }

  lemma {:induction false} FirstIsDistinct(c: Chain)
    requires AllDistinct(c)
    ensures Distinct(First(c))
  {
    if c.Then? { FirstIsDistinct(c.earlier); }
  }

  /** Diffs compose: a chain of them does what the one diff between its two ends does. */
  lemma DiffsCompose(c: Chain)
    requires AllDistinct(c)
    ensures ApplyChain(ById(First(c)), c) == Apply(ById(First(c)), DeltaOf(First(c), c.spec))
  {
    ChainReaches(ById(First(c)), c);
    FirstIsDistinct(c);
    DiffIsAPatch(First(c), c.spec);
  }
}
