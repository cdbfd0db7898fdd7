/** LiveShareHub: connected peers, active transfers, and the cache that maps the
    16-byte prefix of a binary message to its transfer. */
module LiveShare {
  import opened Options
  import opened Collections

  type Byte = b: int | 0 <= b < 256
  type Octets = seq<Byte>

  const HEADER_LEN: nat := 16
  const SPACE: Byte := 0x20
  const MAX_LIVE_DIRECT_BYTES: int := 50 * 1024 * 1024

  // ---- Transfer ids and headers ---------------------------------------------------------

  // text.encode("ascii", errors="ignore")
  function Encode(s: string): Octets {
    if s == [] then []
    else (if s[0] < '\U{80}' then [s[0] as Byte] else []) + Encode(s[1..])
  }

  // bytes.decode("ascii", errors="ignore").replace("\x00", "")
  function Decode(b: Octets): string {
    if b == [] then []
    else (if 0 < b[0] < 0x80 then [b[0] as char] else []) + Decode(b[1..])
  }

  predicate IsSpace(c: char) {
    c == ' ' || '\t' <= c <= '\r' || '\U{1C}' <= c <= '\U{1F}'
  }

  function StripLeft(s: string): string {
    if s != [] && IsSpace(s[0]) then StripLeft(s[1..]) else s
  }

  function StripRight(s: string): string {
    if s != [] && IsSpace(s[|s| - 1]) then StripRight(s[..|s| - 1]) else s
  }

  function Spaces(n: nat): (b: Octets)
    ensures |b| == n
  {
    seq(n, i => SPACE)
  }

  // .ljust(16, b" ")[:16]
  function Header(id: string): (h: Octets)
    ensures |h| == HEADER_LEN
  {
    var e := Encode(id);
    if |e| >= HEADER_LEN then e[..HEADER_LEN] else e + Spaces(HEADER_LEN - |e|)
  }

  function IdOf(header: Octets): string {
    StripRight(StripLeft(Decode(header)))
  }

  /** At most 16 printable characters, no spaces. */
  predicate ValidId(id: string) {
    1 <= |id| <= HEADER_LEN && forall c <- id :: '!' <= c <= '~'
  }

  lemma {:induction false} EncodePrintable(id: string)
    requires forall c <- id :: '!' <= c <= '~'
    ensures |Encode(id)| == |id| && Decode(Encode(id)) == id
  {
    if id != [] {
      assert id[0] in id && forall c <- id[1..] :: c in id;
      EncodePrintable(id[1..]);
      var e := Encode(id);
      assert e == [id[0] as Byte] + Encode(id[1..]);
      assert e[1..] == Encode(id[1..]);
      assert id == [id[0]] + id[1..];
    }
  }

  lemma {:induction false} DecodeConcat(a: Octets, b: Octets)
    ensures Decode(a + b) == Decode(a) + Decode(b)
  {
    if a == [] {
      assert a + b == b;
    } else {
      assert (a + b)[1..] == a[1..] + b;
      DecodeConcat(a[1..], b);
    }
  }

  lemma {:induction false} StripTrailing(id: string, n: nat)
    requires id != [] ==> !IsSpace(id[|id| - 1])
    ensures StripRight(id + Decode(Spaces(n))) == id
  {
    if n == 0 {
      assert Spaces(0) == [] && id + [] == id;
    } else {
      assert Spaces(n) == Spaces(n - 1) + [SPACE];
      DecodeConcat(Spaces(n - 1), [SPACE]);
      assert Decode([SPACE]) == [' '];
      var s := id + Decode(Spaces(n));
      assert s == (id + Decode(Spaces(n - 1))) + [' '];
      assert s[..|s| - 1] == id + Decode(Spaces(n - 1));
      StripTrailing(id, n - 1);
    }
  }

  /** Padding an id to a header and decoding the header gives the id back. */
  lemma HeaderRoundTrip(id: string)
    requires ValidId(id)
    ensures IdOf(Header(id)) == id
  {
    EncodePrintable(id);
    var n := HEADER_LEN - |id|;
    assert Header(id) == Encode(id) + Spaces(n);
    DecodeConcat(Encode(id), Spaces(n));
    assert id[0] in id && id[|id| - 1] in id;
    var s := Decode(Header(id));
    assert s[0] == id[0] && StripLeft(s) == s;
    StripTrailing(id, n);
  }

  // ---- The hub's state -------------------------------------------------------------------

  datatype Peer = Peer(ip: string, name: string)
  datatype Route = Route(sender: string, target: string, id: string)

  datatype Hub = Hub(
    peers: map<string, Peer>,
    active: map<string, (string, string)>,
    byHeader: map<Octets, Route>,
    queues: set<string>,
    moved: map<string, nat>)

  predicate Involves(h: Hub, id: string, peer: string) {
    id in h.active && (h.active[id].0 == peer || h.active[id].1 == peer)
  }

  /** The pops of unregister_transfer, for a set of ids. */
  function Forget(h: Hub, ids: set<string>): Hub {
    h.(active := h.active - ids, byHeader := h.byHeader - (set i | i in ids :: Header(i)),
       queues := h.queues - ids, moved := h.moved - ids)
  }

  function PeerLeft(h: Hub, peer: string): Hub {
    Forget(h.(peers := h.peers - {peer}), set i | i in h.active && Involves(h, i, peer))
  }

  function Registered(h: Hub, id: string, sender: string, target: string): Hub {
    h.(active := h.active[id := (sender, target)],
       byHeader := h.byHeader[Header(id) := Route(sender, target, id)],
       moved := h.moved[id := 0])
  }

  /** Where a message goes: the cached route, or the active transfer that its
      header decodes to. */
  function RouteOf(h: Hub, chunk: Octets): Option<Route> {
    if |chunk| < HEADER_LEN then None
    else
      var header := chunk[..HEADER_LEN];
      if header in h.byHeader then Some(h.byHeader[header])
      else
        var id := IdOf(header);
        if id in h.active then Some(Route(h.active[id].0, h.active[id].1, id)) else None
  }

  /** The cache and the byte count after a routed message. */
  function Noted(h: Hub, chunk: Octets): Hub
    requires RouteOf(h, chunk).Some?
  {
    var r := RouteOf(h, chunk).value;
    h.(byHeader := h.byHeader[chunk[..HEADER_LEN] := r],
       moved := h.moved[r.id := (if r.id in h.moved then h.moved[r.id] else 0) + |chunk| - HEADER_LEN])
  }

  /** What the environment answers: the queue took the payload in time, or the
      target's socket took the message. */
  function ChunkRouted(h: Hub, chunk: Octets, delivered: bool): Hub {
    match RouteOf(h, chunk)
    case None => h
    case Some(r) =>
      var h1 := Noted(h, chunk);
      if r.id in h1.queues then (if delivered then h1 else Forget(h1, {r.id}))
      else if r.target !in h1.peers then Forget(h1, {r.id})
      else if delivered then h1
      else Forget(PeerLeft(h1, r.target), {r.id})
  }

  // ---- The order of connection --------------------------------------------------------------

  function Without(order: seq<string>, id: string): seq<string> {
    if order == [] then []
    else (if order[0] == id then [] else [order[0]]) + Without(order[1..], id)
  }

  lemma {:induction false} WithoutMembers(order: seq<string>, id: string)
    ensures forall p :: p in Without(order, id) <==> p in order && p != id
  {
    if order != [] {
      WithoutMembers(order[1..], id);
      assert forall p :: p in order <==> p == order[0] || p in order[1..];
    }
  }

  /** The earliest of the peers at an address, other than `self`. */
  function FirstAt(peers: map<string, Peer>, order: seq<string>, ip: string, self: string): Option<string> {
    if order == [] then None
    else if order[0] in peers && peers[order[0]].ip == ip && order[0] != self then Some(order[0])
    else FirstAt(peers, order[1..], ip, self)
  }

  lemma {:induction false} FirstAtFinds(peers: map<string, Peer>, order: seq<string>, ip: string, self: string)
    ensures var found := FirstAt(peers, order, ip, self);
            && (found.Some? ==> found.value in peers && peers[found.value].ip == ip && found.value != self)
            && (found == None ==> forall p <- order :: p in peers && p != self ==> peers[p].ip != ip)
  {
    if order != [] {
      FirstAtFinds(peers, order[1..], ip, self);
      assert forall p :: p in order <==> p == order[0] || p in order[1..];
    }
  }

  // ---- The object ---------------------------------------------------------------------------

  datatype Reply = Forwarded(target: string) | SameDevice | Offline | TooLarge

  class LiveShareHub {
    var peers: map<string, Peer>
    var active: map<string, (string, string)>
    var byHeader: map<Octets, Route>
    var queues: set<string>
    var moved: map<string, nat>
    // The keys of peers in the order in which they were entered, as the
    // dictionary iterates over them.
    var order: seq<string>

    constructor ()
      ensures Now() == Hub(map[], map[], map[], {}, map[]) && order == [] && Ordered()
    {
      peers, active, byHeader, queues, moved, order := map[], map[], map[], {}, map[], [];
    }

    ghost predicate Ordered()
      reads this
    {
      forall p :: p in order <==> p in peers
    }

    ghost function Now(): Hub
      reads this
    {
      Hub(peers, active, byHeader, queues, moved)
    }

    method RegisterPeer(id: string, peer: Peer)
      requires Ordered()
      modifies this`peers, this`order
      ensures Now() == old(Now()).(peers := old(peers)[id := peer])
      ensures Ordered() && order == if id in old(peers) then old(order) else old(order) + [id]
    {
      if id !in peers {
        order := order + [id];
      }
      peers := peers[id := peer];
    }

    method UnregisterPeer(id: string)
      requires Ordered()
      modifies this
      ensures Now() == PeerLeft(old(Now()), id)
      ensures Ordered() && order == Without(old(order), id)
    {
      ghost var base := Now();
      WithoutMembers(order, id);
      peers := peers - {id};
      order := Without(order, id);
      var toRemove := set i | i in active && (active[i].0 == id || active[i].1 == id);
      InvolvedOnes(base, id, toRemove);
      UnregisterAll(toRemove);
    }

    method UnregisterAll(ids: set<string>)
      modifies this`active, this`byHeader, this`queues, this`moved
      ensures Now() == Forget(old(Now()), ids)
    {
      ghost var base := Now();
      var left := ids;
      ForgetNothing(base);
      assert ids - left == {};
      while |left| > 0
        invariant left <= ids
        invariant Now() == Forget(base, ids - left)
        decreases |left|
      {
        NonEmptyHasMember(left);
        var i :| i in left;
        ForgetOneMore(base, ids - left, i);
        assert ids - (left - {i}) == (ids - left) + {i};
        left := left - {i};
        UnregisterTransfer(i);
      }
      assert ids - left == ids;
    }

    method RegisterTransfer(id: string, sender: string, target: string)
      modifies this`active, this`byHeader, this`moved
      ensures Now() == Registered(old(Now()), id, sender, target)
    {
      active := active[id := (sender, target)];
      byHeader := byHeader[Header(id) := Route(sender, target, id)];
      moved := moved[id := 0];
    }

    method UnregisterTransfer(id: string)
      modifies this`active, this`byHeader, this`queues, this`moved
      ensures Now() == Forget(old(Now()), {id})
    {
      active := active - {id};
      byHeader := byHeader - {Header(id)};
      queues := queues - {id};
      moved := moved - {id};
    }

    method GetOrCreateStreamQueue(id: string)
      modifies this`queues
      ensures Now() == old(Now()).(queues := old(queues) + {id})
    {
      queues := queues + {id};
    }

    /** The first connected peer at an address, other than the one asking. */
    method PeerAt(ip: string, self: string) returns (id: Option<string>)
      requires Ordered()
      ensures id == FirstAt(peers, order, ip, self)
    {
      var i := 0;
      while i < |order|
        invariant 0 <= i <= |order|
        invariant FirstAt(peers, order, ip, self) == FirstAt(peers, order[i..], ip, self)
      {
        assert order[i] in order && order[i..][1..] == order[i + 1..];
        if peers[order[i]].ip == ip && order[i] != self {
          return Some(order[i]);
        }
        i := i + 1;
      }
      id := None;
    }

    /** The transfer-request message of a peer. */
    method TransferRequest(self: string, id: string, targetId: string, targetIp: string, size: int)
      returns (reply: Reply)
      requires Ordered()
      modifies this`active, this`byHeader, this`moved
      ensures reply.Forwarded? ==>
                reply.target in old(peers) && reply.target != self
                && Now() == Registered(old(Now()), id, self, reply.target)
      ensures !reply.Forwarded? ==> Now() == old(Now())
      ensures reply == TooLarge <==> size > MAX_LIVE_DIRECT_BYTES
      ensures size <= MAX_LIVE_DIRECT_BYTES && targetId in old(peers) ==>
                reply == if targetId == self then SameDevice else Forwarded(targetId)
      ensures size <= MAX_LIVE_DIRECT_BYTES && targetId !in old(peers) ==>
                var found := if targetIp != "" then FirstAt(old(peers), old(order), targetIp, self) else None;
                reply == if found.Some? then Forwarded(found.value) else Offline
    {
      if size > MAX_LIVE_DIRECT_BYTES {
        return TooLarge;
      }
      var target := if targetId in peers then Some(targetId) else None;
      if target == None && targetIp != "" {
        target := PeerAt(targetIp, self);
        FirstAtFinds(peers, order, targetIp, self);
      }
      if target == Some(self) {
        return SameDevice;
      }
      if target == None {
        return Offline;
      }
      RegisterTransfer(id, self, target.value);
      reply := Forwarded(target.value);
    }

    method RouteBinaryChunk(chunk: Octets, delivered: bool) returns (ok: bool)
      requires Ordered()
      modifies this
      ensures Ordered()
      ensures Now() == ChunkRouted(old(Now()), chunk, delivered)
      ensures ok <==>
              var r := RouteOf(old(Now()), chunk);
              r.Some? && delivered && (r.value.id in old(queues) || r.value.target in old(peers))
    {
      if |chunk| < HEADER_LEN {
        return false;
      }
      var header := chunk[..HEADER_LEN];
      var route: Route;
      if header in byHeader {
        route := byHeader[header];
      } else {
        var id := IdOf(header);
        if id !in active {
          return false;
        }
        route := Route(active[id].0, active[id].1, id);
      }
      byHeader := byHeader[header := route];
      moved := moved[route.id := (if route.id in moved then moved[route.id] else 0) + |chunk| - HEADER_LEN];
      if route.id in queues {
        if !delivered {
          UnregisterTransfer(route.id);
        }
        return delivered;
      }
      if route.target !in peers {
        UnregisterTransfer(route.id);
        return false;
      }
      if !delivered {
        UnregisterPeer(route.target);
        UnregisterTransfer(route.id);
      }
      ok := delivered;
    }
  }

  lemma InvolvedOnes(h: Hub, peer: string, ids: set<string>)
    requires ids == set i | i in h.active && (h.active[i].0 == peer || h.active[i].1 == peer)
    ensures PeerLeft(h, peer) == Forget(h.(peers := h.peers - {peer}), ids)
  {
    assert ids == set i | i in h.active && Involves(h, i, peer);
  }

  lemma ForgetNothing(h: Hub)
    ensures Forget(h, {}) == h
  {
    assert h.active - {} == h.active && h.moved - {} == h.moved && h.queues - {} == h.queues;
    var none := set i: string | i in {} :: Header(i);
    assert none == {} && h.byHeader - none == h.byHeader;
  }

  lemma ForgetOneMore(h: Hub, ids: set<string>, i: string)
    ensures Forget(Forget(h, ids), {i}) == Forget(h, ids + {i})
  {
    var a := set j | j in ids :: Header(j);
    var b := set j | j in {i} :: Header(j);
    var c := set j | j in ids + {i} :: Header(j);
    assert c == a + b;
    assert h.active - ids - {i} == h.active - (ids + {i});
    assert h.moved - ids - {i} == h.moved - (ids + {i});
    assert h.queues - ids - {i} == h.queues - (ids + {i});
    assert h.byHeader - a - b == h.byHeader - c;
  }
}
