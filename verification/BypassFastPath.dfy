/** The fast path is taken: once both ends of a connection are recorded, all its messages but the first of each end go
    straight to the other end's socket. */
module BypassFastPath {
  import opened Options
  import opened Bypass
  import opened BypassRuns

  /** 127.0.0.6 as the programs read it: the first byte lowest. */
  lemma EnvoyAddress()
    ensures ENVOY_IP == 127 + 0x100 * 0 + 0x1_0000 * 0 + 0x100_0000 * 6
  {
  }

  /** Events that leave a connection of client `t.local` alone: neither end is closed, re-established or seen at the
      egress filter, and the client's address is in no other connection. */
  predicate LeavesAlone(e: Event, t: Tuple) {
    match e
    case Connect(u, _, _) => u.local != t.local && u != Reverse(t)
    case Accept(u, _, _) => u.remote != t.local && u != t
    case Close(u) => u.local != t.local && u != Reverse(t)
    case Send(_, _) => true
    case Egress(u) => u != t && u != Reverse(t)
  }

  /** A connection that the bypass handles, and not by the special case of 127.0.0.6. */
  predicate Ordinary(t: Tuple) { t.local.ip != t.remote.ip && !ViaEnvoy(t) }

  /** No record of a connection from the client, nor of the reverse one. */
  predicate Unrecorded(m: Maps, t: Tuple) { t.local !in m.active && Lookup(m.active, t.remote) != Some(t.local) }

  // ---- the client's end ----

  predicate ClientKnown(m: Maps, t: Tuple, client: Sock) {
    && Lookup(m.active, t.local) == Some(t.remote) && Lookup(m.active, t.remote) != Some(t.local)
    && Lookup(m.redir, t) == Some(client)
  }

  lemma ConnectIsKnown(w: World, t: Tuple, client: Sock, r: Room)
    requires Ordinary(t) && Unrecorded(w.maps, t) && r.active && r.redir
    ensures ClientKnown(Next(w, Connect(t, client, r)).maps, t, client)
  {
  }

  lemma ClientStaysKnown(w: World, e: Event, t: Tuple, client: Sock)
    requires ClientKnown(w.maps, t, client) && LeavesAlone(e, t)
    ensures ClientKnown(Next(w, e).maps, t, client)
  {
  }

  lemma {:induction false} ClientKnownAt(events: seq<Event>, a: nat, n: nat, t: Tuple, client: Sock, r: Room)
    requires a < n <= |events| && events[a] == Connect(t, client, r) && r.active && r.redir
    requires Ordinary(t) && Unrecorded(Run(events[..a]).maps, t)
    requires forall k :: a < k < n ==> LeavesAlone(events[k], t)
    ensures ClientKnown(Run(events[..n]).maps, t, client)
  {
    assert events[..n][..n - 1] == events[..n - 1];
    if n == a + 1 {
      ConnectIsKnown(Run(events[..a]), t, client, r);
    } else {
      ClientKnownAt(events, a, n - 1, t, client, r);
      ClientStaysKnown(Run(events[..n - 1]), events[n - 1], t, client);
    }
  }

  // ---- both ends ----

  /** Both ends are recorded; `sent` and `answered` are whether each of them has sent a message since. */
  predicate BothKnown(m: Maps, t: Tuple, client: Sock, server: Sock, sent: bool, answered: bool) {
    && Unrecorded(m, t)
    && Lookup(m.redir, t) == Some(client) && Lookup(m.redir, Reverse(t)) == Some(server)
    && Lookup(m.proxy, t) == Some(Entry(Reverse(t), if sent then Enabled else Init))
    && Lookup(m.proxy, Reverse(t)) == Some(Entry(t, if answered then Enabled else Init))
  }

  lemma AcceptIsKnown(w: World, t: Tuple, client: Sock, server: Sock, r: Room)
    requires Ordinary(t) && ClientKnown(w.maps, t, client) && r.proxyKey && r.proxyVal && r.redir
    ensures BothKnown(Next(w, Accept(Reverse(t), server, r)).maps, t, client, server, false, false)
  {
    assert ClientTuple(w.maps, Reverse(t)) == t && t != Reverse(t);
  }

  predicate SentOn(e: Event, t: Tuple) { e.Send? && e.t == t }

  lemma BothStayKnown(w: World, e: Event, t: Tuple, client: Sock, server: Sock, sent: bool, answered: bool)
    requires Ordinary(t) && BothKnown(w.maps, t, client, server, sent, answered) && LeavesAlone(e, t)
    ensures BothKnown(Next(w, e).maps, t, client, server, sent || SentOn(e, t), answered || SentOn(e, Reverse(t)))
  {
    match e
    case Accept(u, _, _) =>
      if u.remote in w.maps.active { assert ClientTuple(w.maps, u) != t && ClientTuple(w.maps, u) != Reverse(t); }
    case _ =>
  }

  /** A message went out on the tuple after position `b` and before `n`. */
  predicate SentSince(events: seq<Event>, b: nat, n: nat, t: Tuple)
    requires n <= |events|
  {
    exists k :: b < k < n && SentOn(events[k], t)
  }

  lemma SentStep(events: seq<Event>, b: nat, n: nat, t: Tuple)
    requires b < n < |events|
    ensures SentSince(events, b, n + 1, t) <==> SentSince(events, b, n, t) || SentOn(events[n], t)
  {
  }

  /** Both ends are established on this host, the client's at `a` and the server's at `b`, with room in the maps,
      and left alone up to `n`. */
  ghost predicate Established(events: seq<Event>, a: nat, b: nat, n: nat, t: Tuple, client: Sock, server: Sock) {
    && a < b < n <= |events| && Ordinary(t) && Unrecorded(Run(events[..a]).maps, t)
    && events[a].Connect? && events[a].t == t && events[a].sock == client && events[a].room.active
      && events[a].room.redir
    && events[b].Accept? && events[b].t == Reverse(t) && events[b].sock == server
    && events[b].room.proxyKey && events[b].room.proxyVal && events[b].room.redir
    && forall k :: a < k < n && k != b ==> LeavesAlone(events[k], t)
  }

  lemma {:induction false} BothKnownAt(events: seq<Event>, a: nat, b: nat, n: nat, t: Tuple, client: Sock, server: Sock)
    requires Established(events, a, b, n, t, client, server)
    ensures BothKnown(Run(events[..n]).maps, t, client, server, SentSince(events, b, n, t),
                      SentSince(events, b, n, Reverse(t)))
  {
    assert events[..n][..n - 1] == events[..n - 1];
    if n == b + 1 {
      ClientKnownAt(events, a, b, t, client, events[a].room);
      AcceptIsKnown(Run(events[..b]), t, client, server, events[b].room);
    } else {
      BothKnownAt(events, a, b, n - 1, t, client, server);
      BothKnownNext(events, b, n, t, client, server);
    }
  }

  lemma BothKnownNext(events: seq<Event>, b: nat, n: nat, t: Tuple, client: Sock, server: Sock)
    requires b + 1 < n <= |events| && Ordinary(t) && LeavesAlone(events[n - 1], t)
    requires BothKnown(Run(events[..n - 1]).maps, t, client, server, SentSince(events, b, n - 1, t),
                       SentSince(events, b, n - 1, Reverse(t)))
    ensures BothKnown(Run(events[..n]).maps, t, client, server, SentSince(events, b, n, t),
                      SentSince(events, b, n, Reverse(t)))
  {
    assert events[..n][..n - 1] == events[..n - 1];
    SentStep(events, b, n - 1, t);
    SentStep(events, b, n - 1, Reverse(t));
    BothStayKnown(Run(events[..n - 1]), events[n - 1], t, client, server, SentSince(events, b, n - 1, t),
                  SentSince(events, b, n - 1, Reverse(t)));
  }

  /** Progress of the fast path: of each end's messages the first goes down the stack, and every later one straight
      to the socket of the other end. */
  lemma EstablishedIsRedirected(events: seq<Event>, a: nat, b: nat, n: nat, t: Tuple, client: Sock, server: Sock)
    requires Established(events, a, b, n, t, client, server)
    ensures VerdictOn(Run(events[..n]).maps, t) == if SentSince(events, b, n, t) then Redirect(server) else Pass
    ensures VerdictOn(Run(events[..n]).maps, Reverse(t)) ==
            if SentSince(events, b, n, Reverse(t)) then Redirect(client) else Pass
  {
    BothKnownAt(events, a, b, n, t, client, server);
  }

  // ---- 127.0.0.6 ----

  /** The event enters a socket into the socket hash because one of its addresses is 127.0.0.6. */
  predicate EntersEnvoy(e: Event, u: Tuple, sock: Sock) {
    || (e.Connect? && e.t == u && e.sock == sock && e.room.redir && u.local.ip == ENVOY_IP)
    || (e.Accept? && e.t == u && e.sock == sock && e.room.redir && u.remote.ip == ENVOY_IP)
  }

  predicate TouchesSocket(e: Event, u: Tuple) { !e.Send? && !e.Egress? && e.t == u }

  lemma {:induction false} EnvoyStaysKnown(events: seq<Event>, a: nat, n: nat, u: Tuple, sock: Sock)
    requires a < n <= |events| && EntersEnvoy(events[a], u, sock)
    requires forall k :: a < k < n ==> !TouchesSocket(events[k], u)
    ensures Lookup(Run(events[..n]).maps.redir, u) == Some(sock)
  {
    assert events[..n][..n - 1] == events[..n - 1];
    if n > a + 1 { EnvoyStaysKnown(events, a, n - 1, u, sock); }
  }

  /** Messages to such a socket are redirected to it from the first one on, as long as it lives. */
  lemma EnvoyIsRedirected(events: seq<Event>, a: nat, n: nat, u: Tuple, sock: Sock)
    requires a < n <= |events| && EntersEnvoy(events[a], u, sock)
    requires forall k :: a < k < n ==> !TouchesSocket(events[k], u)
    ensures VerdictOn(Run(events[..n]).maps, Reverse(u)) == Redirect(sock)
  {
    EnvoyStaysKnown(events, a, n, u, sock);
  }
}
