/** The bypass over whole runs: it delivers what TCP would deliver, keeps its pairs, and leaves shaped traffic to
    the stack. */
module BypassRuns {
  import opened Options
  import opened Bypass

  // ---- events on a host ----

  /** What happens to the sockets and packets of a host.  Sockets are named by tuple and identity; any insertion into
      a map may find it full. */
  datatype Event =
    | Connect(t: Tuple, sock: Sock, room: Room)
    | Accept(t: Tuple, sock: Sock, room: Room)
    | Close(t: Tuple)
    | Send(t: Tuple, msg: nat)
    | Egress(t: Tuple)

  /** A message and the local socket that received it, if it stayed on the host. */
  datatype Delivery = Delivery(t: Tuple, msg: nat, to: Option<Sock>)

  /** The maps, the established sockets, and the messages delivered so far. */
  datatype World = World(maps: Maps, socks: map<Tuple, Sock>, log: seq<Delivery>)

  const EMPTY := World(Maps(map[], map[], map[]), map[], [])

  /** Ordinary TCP: the socket at the other end of the connection. */
  function TcpTarget(w: World, t: Tuple): Option<Sock> { Lookup(w.socks, Reverse(t)) }

  /** The bypass: where the verdict sends the message, or TCP if it passes. */
  function BypassTarget(w: World, t: Tuple): Option<Sock> {
    match VerdictOn(w.maps, t)
    case Pass => TcpTarget(w, t)
    case Redirect(sock) => Some(sock)
  }

  /** One event on a host with the bypass installed.  The kernel drops a closed socket from the socket hash. */
  function Next(w: World, e: Event): World {
    match e
    case Connect(t, sock, r) => w.(maps := ActiveEst(w.maps, t, sock, r), socks := w.socks[t := sock])
    case Accept(t, sock, r) => w.(maps := PassiveEst(w.maps, t, sock, r), socks := w.socks[t := sock])
    case Close(t) => w.(maps := Closed(w.maps, t).(redir := w.maps.redir - {t}), socks := w.socks - {t})
    case Send(t, msg) => w.(maps := Sent(w.maps, t), log := w.log + [Delivery(t, msg, BypassTarget(w, t))])
    case Egress(t) => w.(maps := Egressed(w.maps, t))
  }

  /** The same event on a host without the bypass. */
  function PlainNext(w: World, e: Event): World {
    match e
    case Connect(t, sock, _) => w.(socks := w.socks[t := sock])
    case Accept(t, sock, _) => w.(socks := w.socks[t := sock])
    case Close(t) => w.(socks := w.socks - {t})
    case Send(t, msg) => w.(log := w.log + [Delivery(t, msg, TcpTarget(w, t))])
    case Egress(t) => w
  }

  function Run(events: seq<Event>): World {
    if events == [] then EMPTY else Next(Run(events[..|events| - 1]), events[|events| - 1])
  }

  function PlainRun(events: seq<Event>): World {
    if events == [] then EMPTY else PlainNext(PlainRun(events[..|events| - 1]), events[|events| - 1])
  }

  // ---- the fast path refines the slow path ----

  /** Events that can happen without address translation when a client's address and port are in at most one
      connection at a time: a client connects from an address that no live socket uses, and a server accepts a
      client whose only live socket, if it is on this host, is the one connected to it. */
  ghost predicate Legal(socks: map<Tuple, Sock>, e: Event) {
    match e
    case Connect(t, _, _) => forall u :: u in socks ==> u.local != t.local
    case Accept(t, _, _) => t !in socks && forall u :: u in socks && u.local == t.remote ==> u == Reverse(t)
    case Close(_) => true
    case Send(t, _) => t in socks
    case Egress(_) => true
  }

  ghost predicate LegalRun(events: seq<Event>) {
    forall n :: 0 <= n < |events| ==> Legal(Run(events[..n]).socks, events[n])
  }

  /** Recorded destinations belong to live connections, proxy entries lead to the reverse tuple, and the socket hash
      holds live sockets only. */
  ghost predicate Faithful(w: World) {
    && (forall a :: a in w.maps.active ==> Tuple(a, w.maps.active[a]) in w.socks)
    && (forall k :: k in w.maps.proxy ==> w.maps.proxy[k].tuple == Reverse(k))
    && (forall k :: k in w.maps.redir ==> k in w.socks && w.socks[k] == w.maps.redir[k])
  }

  lemma AcceptKeepsFaithful(w: World, t: Tuple, sock: Sock, r: Room)
    requires Faithful(w) && Legal(w.socks, Accept(t, sock, r))
    ensures Faithful(Next(w, Accept(t, sock, r)))
  {
    if t.remote in w.maps.active {
      assert Tuple(t.remote, w.maps.active[t.remote]) in w.socks;
      assert ClientTuple(w.maps, t) == Reverse(t);
    }
  }

  lemma ConnectKeepsFaithful(w: World, t: Tuple, sock: Sock, r: Room)
    requires Faithful(w) && Legal(w.socks, Connect(t, sock, r))
    ensures Faithful(Next(w, Connect(t, sock, r)))
  {
  }

  lemma CloseKeepsFaithful(w: World, t: Tuple)
    requires Faithful(w)
    ensures Faithful(Next(w, Close(t)))
  {
  }

  lemma StepKeepsFaithful(w: World, e: Event)
    requires Faithful(w) && Legal(w.socks, e)
    ensures Faithful(Next(w, e))
  {
    match e
    case Connect(t, sock, r) => ConnectKeepsFaithful(w, t, sock, r);
    case Accept(t, sock, r) => AcceptKeepsFaithful(w, t, sock, r);
    case Close(t) => CloseKeepsFaithful(w, t);
    case Send(_, _) =>
    case Egress(_) =>
  }

  lemma FaithfulTargets(w: World, t: Tuple)
    requires Faithful(w)
    ensures BypassTarget(w, t) == TcpTarget(w, t)
  {
  }

  /** Fast path refines slow path: in every legal run every message reaches, exactly once, the socket that TCP would
      have delivered it to; in particular the logs of the two hosts are the same. */
  lemma {:induction false} BypassDeliversLikeTcp(events: seq<Event>)
    requires LegalRun(events)
    ensures Faithful(Run(events))
    ensures Run(events).log == PlainRun(events).log && Run(events).socks == PlainRun(events).socks
  {
    if events != [] {
      var n := |events| - 1;
      var before := events[..n];
      forall k | 0 <= k < n ensures Legal(Run(before[..k]).socks, before[k]) { assert before[..k] == events[..k]; }
      BypassDeliversLikeTcp(before);
      StepKeepsFaithful(Run(before), events[n]);
      if events[n].Send? { FaithfulTargets(Run(before), events[n].t); }
    }
  }

  const AMPLE := Room(true, true, true, true)

  /** The hypothesis is needed.  If a client's address is in two connections, to a server elsewhere and to a local one,
      its messages to the far server are handed to the local one. */
  lemma SharedAddressMisdelivers(client: Addr, far: Addr, near: Addr)
    requires client.ip != far.ip && client.ip != ENVOY_IP && far.ip != ENVOY_IP && far != near && client != far
             && client != near
    ensures var events := [Connect(Tuple(client, far), 1, AMPLE), Connect(Tuple(client, near), 3, AMPLE),
                           Accept(Tuple(near, client), 2, AMPLE),
                           Send(Tuple(client, far), 7), Send(Tuple(client, far), 8)];
            var bypassed, plain := Run(events).log, PlainRun(events).log;
            |bypassed| == |plain| == 2 && bypassed[1].to == Some(2) && plain[1].to == None
  {
    var e := [Connect(Tuple(client, far), 1, AMPLE), Connect(Tuple(client, near), 3, AMPLE),
              Accept(Tuple(near, client), 2, AMPLE), Send(Tuple(client, far), 7), Send(Tuple(client, far), 8)];
    assert e[..5] == e;
    Unrolled(e);
    SharedAddressEntry(client, far, near);
    var w, p := Run(e[..3]), PlainRun(e[..3]);
    assert Run(e[..4]) == w.(maps := Sent(w.maps, Tuple(client, far)), log := Run(e[..4]).log);
    assert PlainRun(e[..4]).socks == p.socks;
  }

  /** The entry that the local server's connection leaves points the client's messages to the far server at itself. */
  lemma SharedAddressEntry(client: Addr, far: Addr, near: Addr)
    requires client.ip != far.ip && client.ip != ENVOY_IP && far != near && client != far && client != near
    ensures var c, d := Connect(Tuple(client, far), 1, AMPLE), Connect(Tuple(client, near), 3, AMPLE);
            var a := Accept(Tuple(near, client), 2, AMPLE);
            var w, p := Next(Next(Next(EMPTY, c), d), a), PlainNext(PlainNext(PlainNext(EMPTY, c), d), a);
            && w.log == p.log == [] && Tuple(far, client) !in p.socks
            && Lookup(w.maps.proxy, Tuple(client, far)) == Some(Entry(Tuple(near, client), Init))
            && Lookup(w.maps.redir, Tuple(near, client)) == Some(2)
  {
    var c, d := Connect(Tuple(client, far), 1, AMPLE), Connect(Tuple(client, near), 3, AMPLE);
    assert Lookup(Next(Next(EMPTY, c), d).maps.active, client) == Some(far);
  }

  lemma Unrolled(e: seq<Event>)
    requires |e| == 5
    ensures Run(e[..1]) == Next(EMPTY, e[0]) && Run(e[..2]) == Next(Run(e[..1]), e[1])
            && Run(e[..3]) == Next(Run(e[..2]), e[2])
    ensures Run(e[..4]) == Next(Run(e[..3]), e[3]) && Run(e[..5]) == Next(Run(e[..4]), e[4])
    ensures PlainRun(e[..1]) == PlainNext(EMPTY, e[0]) && PlainRun(e[..2]) == PlainNext(PlainRun(e[..1]), e[1])
    ensures PlainRun(e[..3]) == PlainNext(PlainRun(e[..2]), e[2])
    ensures PlainRun(e[..4]) == PlainNext(PlainRun(e[..3]), e[3])
            && PlainRun(e[..5]) == PlainNext(PlainRun(e[..4]), e[4])
  {
    assert e[..1][..0] == [] && e[..2][..1] == e[..1] && e[..3][..2] == e[..2] && e[..4][..3] == e[..3]
           && e[..5][..4] == e[..4];
  }

  // ---- pairs, with address translation allowed ----

  /** In all runs: each entry shares an address with its key, and recorded connections never start at 127.0.0.6 or
      stay on one IP address. */
  ghost predicate Linked(m: Maps) {
    && (forall k :: k in m.proxy ==> m.proxy[k].tuple.remote == k.local || m.proxy[k].tuple.local == k.remote)
    && (forall a :: a in m.active ==> a.ip != ENVOY_IP && a.ip != m.active[a].ip)
  }

  lemma StepKeepsLinked(w: World, e: Event)
    requires Linked(w.maps)
    ensures Linked(Next(w, e).maps)
  {
  }

  lemma {:induction false} ProxyEntriesAreLinked(events: seq<Event>)
    ensures Linked(Run(events).maps)
  {
    if events != [] {
      ProxyEntriesAreLinked(events[..|events| - 1]);
      StepKeepsLinked(Run(events[..|events| - 1]), events[|events| - 1]);
    }
  }

  /** Entries whose partner is present point back at each other. */
  ghost predicate Mutual(m: Maps) {
    forall k :: k in m.proxy && m.proxy[k].tuple in m.proxy ==> m.proxy[m.proxy[k].tuple].tuple == k
  }

  /** The pair of tuples that the event at position `n` records, if it records one. */
  function PairAt(events: seq<Event>, n: nat): Option<(Tuple, Tuple)>
    requires n < |events|
  {
    var m, e := Run(events[..n]).maps, events[n];
    if e.Accept? && e.t.remote in m.active then Some((e.t, ClientTuple(m, e.t))) else None
  }

  predicate Within(t: Tuple, pair: (Tuple, Tuple)) { t == pair.0 || t == pair.1 }

  /** A tuple is re-established only after both ends of its earlier connection were closed. */
  ghost predicate ReopensClosed(events: seq<Event>) {
    forall i: nat, n: nat, t :: i < n < |events| && PairAt(events, i).Some? && PairAt(events, n).Some?
                                && Within(t, PairAt(events, i).value) && Within(t, PairAt(events, n).value) ==>
      ClosedBetween(events, i, n, PairAt(events, i).value.0) && ClosedBetween(events, i, n, PairAt(events, i).value.1)
  }

  ghost predicate ClosedBetween(events: seq<Event>, i: nat, n: nat, t: Tuple) {
    exists k :: i < k < n <= |events| && events[k] == Close(t)
  }

  /** An entry was recorded with its key's pair at position `i`, and its key was not closed since. */
  ghost predicate Stems(events: seq<Event>, n: nat, i: nat, k: Tuple, v: Tuple) {
    && i < n <= |events| && PairAt(events, i).Some?
      && (PairAt(events, i).value == (k, v) || PairAt(events, i).value == (v, k))
    && !ClosedBetween(events, i, n, k)
  }

  /** Every entry stems from such a position. */
  lemma {:induction false} EntriesStem(events: seq<Event>, n: nat, k: Tuple) returns (i: nat)
    requires n <= |events| && k in Run(events[..n]).maps.proxy
    ensures Stems(events, n, i, k, Run(events[..n]).maps.proxy[k].tuple)
  {
    assert n > 0 && events[..n][..n - 1] == events[..n - 1];
    EntryOrigin(Run(events[..n - 1]), events[n - 1], k);
    if PairAt(events, n - 1).Some? && Within(k, PairAt(events, n - 1).value) {
      i := n - 1;
    } else {
      i := EntriesStem(events, n - 1, k);
      StillStems(events, n, i, k, Run(events[..n - 1]).maps.proxy[k].tuple);
    }
  }

  lemma StillStems(events: seq<Event>, n: nat, i: nat, k: Tuple, v: Tuple)
    requires 0 < n <= |events| && Stems(events, n - 1, i, k, v) && events[n - 1] != Close(k)
    ensures Stems(events, n, i, k, v)
  {
  }

  /** An entry is written together with its partner's by the passive callback, or else it was there before. */
  lemma EntryOrigin(w: World, e: Event, k: Tuple)
    requires k in Next(w, e).maps.proxy
    ensures var v := Next(w, e).maps.proxy[k].tuple;
            if e.Accept? && e.t.remote in w.maps.active && k == e.t then v == ClientTuple(w.maps, e.t)
            else if e.Accept? && e.t.remote in w.maps.active && k == ClientTuple(w.maps, e.t) then v == e.t
            else k in w.maps.proxy && w.maps.proxy[k].tuple == v && e != Close(k)
  {
  }

  /** The tuple is neither a key nor a value of the proxy map. */
  ghost predicate Unused(m: Maps, t: Tuple) { t !in m.proxy && forall k :: k in m.proxy ==> m.proxy[k].tuple != t }

  lemma ReopenedIsUnused(events: seq<Event>, n: nat, t: Tuple)
    requires ReopensClosed(events) && n < |events| && PairAt(events, n).Some? && Within(t, PairAt(events, n).value)
    ensures Unused(Run(events[..n]).maps, t)
  {
    var m := Run(events[..n]).maps;
    forall k | k in m.proxy ensures k != t && m.proxy[k].tuple != t {
      var i := EntriesStem(events, n, k);
      assert Within(k, PairAt(events, i).value) && Within(m.proxy[k].tuple, PairAt(events, i).value);
    }
  }

  lemma StepKeepsMutual(w: World, e: Event)
    requires Mutual(w.maps)
    requires e.Accept? && e.t.remote in w.maps.active ==>
               Unused(w.maps, e.t) && Unused(w.maps, ClientTuple(w.maps, e.t))
    ensures Mutual(Next(w, e).maps)
  {
  }

  /** If tuples are re-established only after both ends closed, entries whose partner is present are mutual. */
  lemma {:induction false} ProxyPairsAreMutual(events: seq<Event>, n: nat)
    requires ReopensClosed(events) && n <= |events|
    ensures Mutual(Run(events[..n]).maps)
  {
    if n > 0 {
      ProxyPairsAreMutual(events, n - 1);
      assert events[..n][..n - 1] == events[..n - 1];
      if PairAt(events, n - 1).Some? {
        ReopenedIsUnused(events, n - 1, PairAt(events, n - 1).value.0);
        ReopenedIsUnused(events, n - 1, PairAt(events, n - 1).value.1);
      }
      StepKeepsMutual(Run(events[..n - 1]), events[n - 1]);
    }
  }

  // ---- shaped traffic is never redirected ----

  /** What has happened to a tuple since the bypass last recorded its connection. */
  datatype History = Unknown | Since(sent: bool, egressed: bool)

  /** The event records the tuple's connection anew: the passive callback writes its entry. */
  predicate Records(m: Maps, e: Event, t: Tuple) {
    && e.Accept? && e.t.remote in m.active
    && ((t == e.t && (e.room.proxyVal || t in m.proxy))
        || (t == ClientTuple(m, e.t) && (e.room.proxyKey || t in m.proxy)))
  }

  /** One event's effect on the history of a tuple. */
  function Extend(h: History, m: Maps, e: Event, t: Tuple): History {
    if Records(m, e, t) then Since(false, false)
    else if e == Close(t) || h.Unknown? then Unknown
    else if e.Send? && e.t == t && !ViaEnvoy(t) then h.(sent := true)
    else if e == Egress(t) then h.(egressed := true)
    else h
  }

  /** The history of a tuple, read off the events; the maps decide only whether a connection is recorded. */
  function HistoryOf(events: seq<Event>, t: Tuple): History {
    if events == [] then Unknown
    else Extend(HistoryOf(events[..|events| - 1], t), Run(events[..|events| - 1]).maps, events[|events| - 1], t)
  }

  predicate Tells(m: Maps, t: Tuple, h: History) {
    && (t in m.proxy <==> h.Since?)
    && (t in m.proxy ==> m.proxy[t].flag == if h.egressed then Disabled else if h.sent then Enabled else Init)
  }

  lemma StepTells(w: World, e: Event, t: Tuple, h: History)
    requires Tells(w.maps, t, h)
    ensures Tells(Next(w, e).maps, t, Extend(h, w.maps, e, t))
  {
  }

  /** The flag of a proxy entry is exactly its history: disabled once a packet went out, else enabled once a message was
      sent, else initial.  So `Disabled` lasts until the connection is recorded anew, and a redirect is always
      preceded by a message that was passed. */
  lemma {:induction false} FlagTellsHistory(events: seq<Event>, t: Tuple)
    ensures Tells(Run(events).maps, t, HistoryOf(events, t))
  {
    if events != [] {
      FlagTellsHistory(events[..|events| - 1], t);
      StepTells(Run(events[..|events| - 1]), events[|events| - 1], t, HistoryOf(events[..|events| - 1], t));
    }
  }

  /** The message at position `n` is redirected through the proxy map. */
  predicate RedirectedAt(events: seq<Event>, n: nat) {
    && n < |events| && events[n].Send? && !ViaEnvoy(events[n].t)
    && VerdictOn(Run(events[..n]).maps, events[n].t).Redirect?
  }

  /** Exactly when a message is redirected: a message was sent on the recorded connection before, no packet of it
      was seen at the egress filter, and the socket hash holds the other end. */
  lemma RedirectedExactlyWhen(events: seq<Event>, n: nat)
    requires n < |events| && events[n].Send? && !ViaEnvoy(events[n].t)
    ensures RedirectedAt(events, n) <==>
            && HistoryOf(events[..n], events[n].t) == Since(true, false) && events[n].t in Run(events[..n]).maps.proxy
            && Run(events[..n]).maps.proxy[events[n].t].tuple in Run(events[..n]).maps.redir
  {
    FlagTellsHistory(events[..n], events[n].t);
  }

  /** A sent but not egressed history stems from a message after which no packet went out. */
  lemma {:induction false} SentWithoutEgress(events: seq<Event>, n: nat, t: Tuple) returns (i: nat)
    requires n <= |events| && HistoryOf(events[..n], t) == Since(true, false)
    ensures i < n && events[i].Send? && events[i].t == t
    ensures forall k :: i < k < n ==> events[k] != Egress(t)
  {
    assert n > 0 && events[..n][..n - 1] == events[..n - 1];
    if events[n - 1].Send? && events[n - 1].t == t {
      i := n - 1;
    } else {
      i := SentWithoutEgress(events, n - 1, t);
    }
  }

  /** A packet of every message that was passed to the stack passes the egress filter before the next message. */
  ghost predicate PassedIsSeen(events: seq<Event>, t: Tuple) {
    forall i: nat, j: nat ::
      i < j < |events| && events[i].Send? && events[i].t == t && events[j].Send? && events[j].t == t
        && !RedirectedAt(events, i) ==>
      exists k :: i < k < j && events[k] == Egress(t)
  }

  /** Shaping is never bypassed: on such a tuple no message of any run is redirected through the proxy map. */
  lemma {:induction false} ShapedTrafficIsNeverRedirected(events: seq<Event>, t: Tuple, n: nat)
    requires PassedIsSeen(events, t) && n < |events| && events[n].Send? && events[n].t == t
    ensures !RedirectedAt(events, n)
    decreases n
  {
    if RedirectedAt(events, n) {
      RedirectedExactlyWhen(events, n);
      var i := SentWithoutEgress(events, n, t);
      ShapedTrafficIsNeverRedirected(events, t, i);
    }
  }

  /** The hypothesis is needed: of two messages with no packet in between, the second one skips the shaping. */
  lemma UnseenPacketsAreRedirected(events: seq<Event>, t: Tuple, a: nat, b: nat)
    requires HistoryOf(events, t) == Since(false, false) && !ViaEnvoy(t) && t in Run(events).maps.proxy
    requires Run(events).maps.proxy[t].tuple in Run(events).maps.redir
    ensures RedirectedAt(events + [Send(t, a), Send(t, b)], |events| + 1)
  {
    var all := events + [Send(t, a), Send(t, b)];
    FlagTellsHistory(events, t);
    assert all[..|events|] == events;
    assert all[..|events| + 1] == events + [Send(t, a)];
    assert (events + [Send(t, a)])[..|events|] == events;
    assert Run(all[..|events| + 1]) == Next(Run(events), Send(t, a));
  }
}
