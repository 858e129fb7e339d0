/** The eBPF bypass of the TCP/IP stack (`bpf/lib`): three maps, changed by the socket callbacks, the message
    redirector and the egress filter. */
module Bypass {
  import opened Options

  /** `struct addr_2_tuple` and `struct socket_4_tuple`. */
  datatype Addr = Addr(ip: nat, port: nat)

  datatype Tuple = Tuple(local: Addr, remote: Addr)

  function Reverse(t: Tuple): Tuple { Tuple(t.remote, t.local) }

  datatype Flag = Disabled | Init | Enabled

  datatype Entry = Entry(tuple: Tuple, flag: Flag)

  /** 127.0.0.6 in network byte order. */
  const ENVOY_IP := 0x600007f

  const MAP_SIZE := 65535

  type Sock = nat

  /** `map_active_estab`, `map_proxy` and `map_redir`. */
  datatype Maps = Maps(active: map<Addr, Addr>, proxy: map<Tuple, Entry>, redir: map<Tuple, Sock>)

  /** Which insertions of new keys the maps have room for. */
  datatype Room = Room(active: bool, proxyKey: bool, proxyVal: bool, redir: bool)

  /** An update with `BPF_ANY`: refused only if a new key meets a full map. */
  function Put<K, V>(m: map<K, V>, k: K, v: V, room: bool): map<K, V> {
    if k in m || room then m[k := v] else m
  }

  /** An update with `BPF_NOEXIST`. */
  function PutNew<K, V>(m: map<K, V>, k: K, v: V, room: bool): map<K, V> { if k in m then m else Put(m, k, v, room) }

  // ---- what each program does to the maps ----

  function ActiveEst(m: Maps, t: Tuple, sock: Sock, r: Room): Maps {
    if t.local.ip == ENVOY_IP then m.(redir := Put(m.redir, t, sock, r.redir))
    else if t.local.ip == t.remote.ip then m
    else m.(active := PutNew(m.active, t.local, t.remote, r.active), redir := Put(m.redir, t, sock, r.redir))
  }

  /** The client's end of the connection whose server end is `t`, as recorded when the client connected. */
  function ClientTuple(m: Maps, t: Tuple): Tuple
    requires t.remote in m.active
  {
    Tuple(t.remote, m.active[t.remote])
  }

  function PassiveEst(m: Maps, t: Tuple, sock: Sock, r: Room): Maps {
    var redir := if t.remote.ip == ENVOY_IP || t.remote in m.active then Put(m.redir, t, sock, r.redir) else m.redir;
    if t.remote !in m.active then m.(redir := redir)
    else
      var k := ClientTuple(m, t);
      var proxy := Put(Put(m.proxy, k, Entry(t, Init), r.proxyKey), t, Entry(k, Init), r.proxyVal);
      Maps(m.active - {t.remote}, proxy, redir)
  }

  function Closed(m: Maps, t: Tuple): Maps {
    m.(proxy := m.proxy - {t}, active := m.active - {t.local})
  }

  /** What becomes of a message: on to the stack, or straight to a socket. */
  datatype Verdict = Pass | Redirect(sock: Sock)

  /** `bpf_msg_redirect_hash`: without a socket under the key the message goes down the stack. */
  function RedirectTo(m: Maps, t: Tuple): Verdict {
    if t in m.redir then Redirect(m.redir[t]) else Pass
  }

  predicate ViaEnvoy(t: Tuple) { t.local.ip == ENVOY_IP || t.remote.ip == ENVOY_IP }

  function VerdictOn(m: Maps, t: Tuple): Verdict {
    if ViaEnvoy(t) then RedirectTo(m, Reverse(t))
    else if t in m.proxy && m.proxy[t].flag.Enabled? then RedirectTo(m, m.proxy[t].tuple)
    else Pass
  }

  function SetFlag(m: Maps, t: Tuple, flag: Flag): Maps
    requires t in m.proxy
  {
    m.(proxy := m.proxy[t := m.proxy[t].(flag := flag)])
  }

  function Sent(m: Maps, t: Tuple): Maps {
    if !ViaEnvoy(t) && t in m.proxy && m.proxy[t].flag.Init? then SetFlag(m, t, Enabled) else m
  }

  function Egressed(m: Maps, t: Tuple): Maps {
    if t in m.proxy then SetFlag(m, t, Disabled) else m
  }

  // ---- the programs ----

  class BypassMaps {
    var active: map<Addr, Addr>
    var proxy: map<Tuple, Entry>
    var redir: map<Tuple, Sock>

    constructor ()
      ensures Value() == Maps(map[], map[], map[])
    {
      active, proxy, redir := map[], map[], map[];
    }

    ghost function Value(): Maps reads this { Maps(active, proxy, redir) }

    /** `bpf_sock_ops_active_establish_cb`. */
    method ActiveEstablished(key: Tuple, sock: Sock)
      modifies this
      ensures Value() == ActiveEst(old(Value()), key, sock,
                                   Room(|old(active)| < MAP_SIZE, false, false, |old(redir)| < MAP_SIZE))
    {
      if key.local.ip == ENVOY_IP {
        redir := Put(redir, key, sock, |redir| < MAP_SIZE);
        return;
      }
      if key.local.ip == key.remote.ip { return; }
      active := PutNew(active, key.local, key.remote, |active| < MAP_SIZE);
      redir := Put(redir, key, sock, |redir| < MAP_SIZE);
    }

    /** The two entries of a connection, each under its own tuple. */
    method RecordPair(k: Tuple, t: Tuple) returns (ghost keyRoom: bool, ghost valRoom: bool)
      modifies this`proxy
      ensures keyRoom == (|old(proxy)| < MAP_SIZE)
      ensures valRoom == (|Put(old(proxy), k, Entry(t, Init), keyRoom)| < MAP_SIZE)
      ensures proxy == Put(Put(old(proxy), k, Entry(t, Init), keyRoom), t, Entry(k, Init), valRoom)
    {
      keyRoom := |proxy| < MAP_SIZE;
      proxy := Put(proxy, k, Entry(t, Init), |proxy| < MAP_SIZE);
      valRoom := |proxy| < MAP_SIZE;
      proxy := Put(proxy, t, Entry(k, Init), |proxy| < MAP_SIZE);
    }

    /** `bpf_sock_ops_passive_establish_cb`. */
    method PassiveEstablished(key: Tuple, sock: Sock) returns (ghost room: Room)
      modifies this
      ensures Value() == PassiveEst(old(Value()), key, sock, room)
      ensures room.proxyKey == (|old(proxy)| < MAP_SIZE) && room.redir == (|old(redir)| < MAP_SIZE)
      ensures key.remote in old(active) ==>
                room.proxyVal == (|Put(old(proxy), ClientTuple(old(Value()), key), Entry(key, Init),
                                       room.proxyKey)| < MAP_SIZE)
    {
      room := Room(false, |proxy| < MAP_SIZE, false, |redir| < MAP_SIZE);
      if key.remote.ip == ENVOY_IP {
        redir := Put(redir, key, sock, |redir| < MAP_SIZE);
      }
      if key.remote !in active { return; }
      var originalDst := active[key.remote];
      var proxyKey := Tuple(key.remote, originalDst);
      var proxyVal := Tuple(key.local, key.remote);
      ghost var keyRoom, valRoom := RecordPair(proxyKey, proxyVal);
      room := room.(proxyVal := valRoom);
      redir := Put(redir, key, sock, |redir| < MAP_SIZE);
      active := active - {key.remote};
    }

    /** `bpf_sock_ops_state_cb`, on the transition to `TCP_CLOSE`. */
    method StateClosed(key: Tuple)
      modifies this
      ensures Value() == Closed(old(Value()), key)
    {
      proxy := proxy - {key};
      active := active - {key.local};
    }

    /** `bpf_redir_proxy`.  The first message of a connection enables the redirection without using it. */
    method RedirProxy(key: Tuple) returns (v: Verdict)
      modifies this
      ensures v == VerdictOn(old(Value()), key)
      ensures Value() == Sent(old(Value()), key)
    {
      if key.local.ip == ENVOY_IP || key.remote.ip == ENVOY_IP {
        return RedirectTo(Maps(active, proxy, redir), Reverse(key));
      }
      if key !in proxy || proxy[key].flag.Disabled? { return Pass; }
      if proxy[key].flag.Init? {
        proxy := proxy[key := proxy[key].(flag := Enabled)];
        return Pass;
      }
      return RedirectTo(Maps(active, proxy, redir), proxy[key].tuple);
    }

    /** `bpf_redir_disable`, once the packet's key is extracted. */
    method RedirDisable(key: Tuple)
      modifies this
      ensures Value() == Egressed(old(Value()), key)
    {
      if key in proxy && !proxy[key].flag.Disabled? {
        proxy := proxy[key := proxy[key].(flag := Disabled)];
      }
    }
  }

  // ---- key extraction ----

  /** `bpf_ntohl` on a little-endian machine: reverses the four bytes of a word. */
  function SwapBytes(x: bv32): bv32 {
    (x << 24) | ((x & 0xff00) << 8) | ((x >> 8) & 0xff00) | (x >> 24)
  }

  predicate IsPort(port: bv32) { port < 0x1_0000 }

  /** A port in network byte order, as a little-endian machine reads it. */
  function NetPort(port: bv32): bv32 { ((port & 0xff) << 8) | (port >> 8) }

  /** The port that `sk_ops_extract4_key` and `sk_msg_extract4_keys` take from the context, where the remote port
      sits in network byte order in the upper half of a word. */
  function SocketPort(port: bv32): bv32 { SwapBytes(NetPort(port) << 16) }

  /** The port that the egress filter takes from the TCP header. */
  function HeaderPort(port: bv32): bv32 { SwapBytes(NetPort(port)) >> 16 }

  /** All programs agree on ports, so a sent message and its packet have the same key. */
  lemma KeysAgree(port: bv32)
    requires IsPort(port)
    ensures SocketPort(port) == port && HeaderPort(port) == port
  {
  }

  /** An address as the programs see it, two 32-bit words, and a pair of them. */
  datatype Words = Words(ip: bv32, port: bv32)

  /** The start of a packet, as the egress filter reads it: 14 bytes of Ethernet, 20 of IPv4 and 20 of TCP
      header, at fixed offsets. */
  datatype Packet = Packet(length: nat, ipv4: bool, tcp: bool, source: Words, dest: Words)

  /** The key that `bpf_redir_disable` looks up; `None` if the packet is left to the kernel. */
  function EgressKey(p: Packet): Option<(Words, Words)> {
    if p.length < 54 || !p.ipv4 || !p.tcp then None
    else Some((Words(p.source.ip, HeaderPort(p.source.port)), Words(p.dest.ip, HeaderPort(p.dest.port))))
  }

  /** The key that `bpf_redir_proxy` builds for a message between two addresses; the local port is already in
      host byte order. */
  function MessageKey(local: Words, remote: Words): (Words, Words) {
    (local, Words(remote.ip, SocketPort(remote.port)))
  }

  /** The packet of a message has the key of the message, unless the filter leaves it to the kernel. */
  lemma PacketHasMessageKey(p: Packet)
    requires IsPort(p.source.port) && IsPort(p.dest.port)
    ensures EgressKey(p).Some? <==> p.length >= 54 && p.ipv4 && p.tcp
    ensures EgressKey(p).Some? ==> EgressKey(p).value == MessageKey(p.source, p.dest) == (p.source, p.dest)
  {
    KeysAgree(p.source.port);
    KeysAgree(p.dest.port);
  }
}
