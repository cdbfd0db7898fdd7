/** What the hub keeps over every run, and where it needs its clients' help. */
module LiveShareRuns {
  import opened LiveShare
  import opened Options

  /** The cache holds exactly the headers of the active transfers. */
  predicate CacheAgrees(h: Hub) {
    && (forall id <- h.active :: Header(id) in h.byHeader)
    && (forall k <- h.byHeader ::
          h.byHeader[k].id in h.active && k == Header(h.byHeader[k].id)
          && h.active[h.byHeader[k].id] == (h.byHeader[k].sender, h.byHeader[k].target))
  }

  predicate EndpointsConnected(h: Hub) {
    forall id <- h.active :: h.active[id].0 in h.peers && h.active[id].1 in h.peers
  }

  predicate IdsValid(h: Hub) {
    forall id <- h.active :: ValidId(id)
  }

  predicate Agrees(h: Hub) {
    CacheAgrees(h) && IdsValid(h)
  }

  lemma HeadersDiffer(a: string, b: string)
    requires ValidId(a) && ValidId(b) && Header(a) == Header(b)
    ensures a == b
  {
    HeaderRoundTrip(a);
    HeaderRoundTrip(b);
  }

  datatype Event =
    | Join(peer: string, info: Peer)
    | Leave(peer: string)
    | Request(id: string, sender: string, target: string)
    | Cancel(id: string)
    | OpenQueue(id: string)
    | Message(chunk: Octets, delivered: bool)

  function Next(h: Hub, e: Event): Hub {
    match e
    case Join(p, info) => h.(peers := h.peers[p := info])
    case Leave(p) => PeerLeft(h, p)
    case Request(id, s, t) => Registered(h, id, s, t)
    case Cancel(id) => Forget(h, {id})
    case OpenQueue(id) => h.(queues := h.queues + {id})
    case Message(chunk, delivered) => ChunkRouted(h, chunk, delivered)
  }

  /** What clients must respect: ids of the documented form, and headers that are
      padded with spaces. */
  ghost predicate WellBehaved(e: Event) {
    match e
    case Request(id, _, _) => ValidId(id)
    case Cancel(id) => ValidId(id)
    case Message(chunk, _) => |chunk| >= HEADER_LEN ==> exists id :: ValidId(id) && chunk[..HEADER_LEN] == Header(id)
    case _ => true
  }

  lemma ForgetKeeps(h: Hub, ids: set<string>)
    requires Agrees(h) && forall id <- ids :: ValidId(id)
    ensures Agrees(Forget(h, ids))
    ensures EndpointsConnected(h) ==> EndpointsConnected(Forget(h, ids))
  {
    var h' := Forget(h, ids);
    forall id | id in h'.active ensures Header(id) in h'.byHeader {
      forall i | i in ids ensures Header(i) != Header(id) {
        if Header(i) == Header(id) {
          HeadersDiffer(i, id);
        }
      }
    }
    forall k | k in h'.byHeader ensures h.byHeader[k].id in h'.active {
      var dropped := set i | i in ids :: Header(i);
      assert h.byHeader[k].id in ids ==> k in dropped;
    }
  }

  /** A peer that leaves takes its transfers along, and only endpoints of its own
      transfers are lost. */
  lemma LeaveKeeps(h: Hub, peer: string)
    requires Agrees(h)
    ensures Agrees(PeerLeft(h, peer))
    ensures EndpointsConnected(h) ==> EndpointsConnected(PeerLeft(h, peer))
  {
    ForgetKeeps(h.(peers := h.peers - {peer}), set i | i in h.active && Involves(h, i, peer));
  }

  lemma RegisterKeeps(h: Hub, id: string, sender: string, target: string)
    requires Agrees(h) && ValidId(id)
    ensures Agrees(Registered(h, id, sender, target))
    ensures EndpointsConnected(h) ==>
              (EndpointsConnected(Registered(h, id, sender, target)) <==> sender in h.peers && target in h.peers)
  {
    var h' := Registered(h, id, sender, target);
    assert h'.active[id] == (sender, target);
    forall k | k in h'.byHeader && k != Header(id)
      ensures h'.byHeader[k].id in h'.active && k == Header(h'.byHeader[k].id)
              && h'.active[h'.byHeader[k].id] == (h'.byHeader[k].sender, h'.byHeader[k].target)
    {
      assert h.byHeader[k].id != id;
    }
    if EndpointsConnected(h) && sender in h.peers && target in h.peers {
      assert EndpointsConnected(h');
    }
  }

  /** A message with the header of a valid id is routed to that transfer, with its
      registered endpoints, exactly while the transfer is active. */
  lemma RoutedExactlyWhileActive(h: Hub, id: string, payload: Octets)
    requires Agrees(h) && ValidId(id)
    ensures RouteOf(h, Header(id) + payload) ==
            if id in h.active then Some(Route(h.active[id].0, h.active[id].1, id)) else None
    ensures id in h.active ==> Noted(h, Header(id) + payload).byHeader == h.byHeader
  {
    var chunk := Header(id) + payload;
    assert chunk[..HEADER_LEN] == Header(id);
    HeaderRoundTrip(id);
    if Header(id) in h.byHeader {
      HeadersDiffer(id, h.byHeader[Header(id)].id);
    }
  }

  lemma MessageKeeps(h: Hub, id: string, payload: Octets, delivered: bool)
    requires Agrees(h) && ValidId(id)
    ensures Agrees(ChunkRouted(h, Header(id) + payload, delivered))
    ensures EndpointsConnected(h) ==> EndpointsConnected(ChunkRouted(h, Header(id) + payload, delivered))
  {
    var chunk := Header(id) + payload;
    RoutedExactlyWhileActive(h, id, payload);
    if id in h.active {
      var h1 := Noted(h, chunk);
      CountingKeeps(h, h1);
      ForgetKeeps(h1, {id});
      LostTargetKeeps(h1, id, h.active[id].1);
    }
  }

  lemma CountingKeeps(h: Hub, h': Hub)
    requires Agrees(h) && h' == h.(moved := h'.moved)
    ensures Agrees(h') && (EndpointsConnected(h) ==> EndpointsConnected(h'))
  {
  }

  lemma LostTargetKeeps(h: Hub, id: string, target: string)
    requires Agrees(h) && ValidId(id)
    ensures Agrees(Forget(PeerLeft(h, target), {id}))
    ensures EndpointsConnected(h) ==> EndpointsConnected(Forget(PeerLeft(h, target), {id}))
  {
    LeaveKeeps(h, target);
    ForgetKeeps(PeerLeft(h, target), {id});
  }

  /** The ends that a request names are both connected when it is handled. */
  predicate BetweenPeers(h: Hub, e: Event) {
    e.Request? ==> e.sender in h.peers && e.target in h.peers
  }

  /** Every step keeps the cache in agreement, whoever is connected; and it keeps
      all endpoints connected if and only if it is not a request of, or for, a peer
      that the hub has dropped. */
  lemma StepKeeps(h: Hub, e: Event)
    requires Agrees(h) && WellBehaved(e)
    ensures Agrees(Next(h, e))
    ensures EndpointsConnected(h) ==> (EndpointsConnected(Next(h, e)) <==> BetweenPeers(h, e))
  {
    match e
    case Join(_, _) =>
    case Leave(p) => LeaveKeeps(h, p);
    case Request(id, s, t) => RegisterKeeps(h, id, s, t);
    case Cancel(id) => ForgetKeeps(h, {id});
    case OpenQueue(_) =>
    case Message(chunk, delivered) =>
      if |chunk| >= HEADER_LEN {
        var id :| ValidId(id) && chunk[..HEADER_LEN] == Header(id);
        assert chunk == Header(id) + chunk[HEADER_LEN..];
        MessageKeeps(h, id, chunk[HEADER_LEN..], delivered);
      }
  }

  const EMPTY: Hub := Hub(map[], map[], map[], {}, map[])

  function After(es: seq<Event>): Hub {
    if es == [] then EMPTY else Next(After(es[..|es| - 1]), es[|es| - 1])
  }

  /** In every reachable state the cache agrees with the active transfers. */
  lemma {:induction false} EveryRunAgrees(es: seq<Event>)
    requires forall e <- es :: WellBehaved(e)
    ensures Agrees(After(es))
  {
    if es != [] {
      EveryRunAgrees(es[..|es| - 1]);
      StepKeeps(After(es[..|es| - 1]), es[|es| - 1]);
    }
  }

  predicate AllBetweenPeers(es: seq<Event>) {
    es != [] ==> AllBetweenPeers(es[..|es| - 1]) && BetweenPeers(After(es[..|es| - 1]), es[|es| - 1])
  }

  /** Both endpoints of every active transfer are connected, in every state of every
      run in which each request is between connected peers. */
  lemma {:induction false} EndpointsStayConnected(es: seq<Event>)
    requires (forall e <- es :: WellBehaved(e)) && AllBetweenPeers(es)
    ensures EndpointsConnected(After(es))
  {
    if es != [] {
      EveryRunAgrees(es[..|es| - 1]);
      EndpointsStayConnected(es[..|es| - 1]);
      StepKeeps(After(es[..|es| - 1]), es[|es| - 1]);
    }
  }

  /** The first state without connected endpoints comes right after a request of, or
      for, a dropped peer, and after nothing else. */
  lemma FirstLossIsARequest(es: seq<Event>, e: Event)
    requires (forall x <- es :: WellBehaved(x)) && AllBetweenPeers(es) && WellBehaved(e)
    ensures EndpointsConnected(After(es + [e])) <==> AllBetweenPeers(es + [e])
  {
    assert (es + [e])[..|es|] == es;
    EveryRunAgrees(es);
    EndpointsStayConnected(es);
    StepKeeps(After(es), e);
  }

  /** Such a request: the hub drops a peer to which a message could not be sent,
      while that peer's own socket loop goes on reading. */
  lemma DroppedSenderIsRegistered(info: Peer)
    ensures var es := [Join("a", info)] + [Join("b", info)] + [Leave("a")] + [Request("x", "a", "b")];
            (forall e <- es :: WellBehaved(e)) && !EndpointsConnected(After(es))
  {
    var es := [Join("a", info)] + [Join("b", info)] + [Leave("a")] + [Request("x", "a", "b")];
    var l := es[|es| - 1];
    assert l == Request("x", "a", "b");
    var before := After(es[..|es| - 1]);
    assert es[..|es| - 1] == [Join("a", info)] + [Join("b", info)] + [Leave("a")];
    assert ([Join("a", info)] + [Join("b", info)] + [Leave("a")])[..2] == [Join("a", info)] + [Join("b", info)];
    assert "a" !in before.peers;
    assert After(es) == Registered(before, "x", "a", "b");
    assert "x" in After(es).active;
  }

  /** The payload bytes of an id's messages since it was last requested. */
  function PayloadBytes(es: seq<Event>, id: string): int {
    if es == [] then 0
    else
      var e, sofar := es[|es| - 1], PayloadBytes(es[..|es| - 1], id);
      if e.Request? && e.id == id then 0
      else if e.Message? && |e.chunk| >= HEADER_LEN && e.chunk[..HEADER_LEN] == Header(id)
      then sofar + |e.chunk| - HEADER_LEN
      else sofar
  }

  predicate Counts(h: Hub, id: string, n: int) {
    id in h.active ==> id in h.moved && h.moved[id] == n
  }

  lemma ForgetCounts(h: Hub, ids: set<string>, id: string, n: int)
    requires Counts(h, id, n)
    ensures Counts(Forget(h, ids), id, n)
  {
  }

  lemma MessageCounts(h: Hub, other: string, payload: Octets, delivered: bool, id: string, n: int)
    requires Agrees(h) && ValidId(other) && Counts(h, id, n) && (id in h.active ==> ValidId(id))
    ensures Counts(ChunkRouted(h, Header(other) + payload, delivered), id,
                   if other == id then n + |payload| else n)
  {
    var chunk := Header(other) + payload;
    RoutedExactlyWhileActive(h, other, payload);
    if other in h.active {
      var m := if other == id then n + |payload| else n;
      var h1 := Noted(h, chunk);
      assert Counts(h1, id, m);
      var t := h.active[other].1;
      ForgetCounts(h1, {other}, id, m);
      var gone := set i | i in h1.active && Involves(h1, i, t);
      ForgetCounts(h1.(peers := h1.peers - {t}), gone, id, m);
      ForgetCounts(PeerLeft(h1, t), {other}, id, m);
    }
  }

  /** bytes_transferred of an active transfer is exactly the payload that came for
      it since it was registered. */
  lemma {:induction false} BytesAreCounted(es: seq<Event>, id: string)
    requires (forall e <- es :: WellBehaved(e)) && ValidId(id)
    ensures Counts(After(es), id, PayloadBytes(es, id))
  {
    if es != [] {
      var l := |es| - 1;
      var h, e := After(es[..l]), es[l];
      assert e in es && WellBehaved(e);
      EveryRunAgrees(es[..l]);
      BytesAreCounted(es[..l], id);
      match e
      case Message(chunk, delivered) =>
        if |chunk| >= HEADER_LEN {
          var other :| ValidId(other) && chunk[..HEADER_LEN] == Header(other);
          assert chunk == Header(other) + chunk[HEADER_LEN..];
          MessageCounts(h, other, chunk[HEADER_LEN..], delivered, id, PayloadBytes(es[..l], id));
          if Header(other) == Header(id) {
            HeadersDiffer(other, id);
          }
        }
      case _ =>
    }
  }

  /** An unknown header that decodes to an active id becomes a second key for it:
      agreement survives a message exactly when that is not what happened. */
  lemma AliasBreaksAgreement(h: Hub, chunk: Octets)
    requires Agrees(h) && |chunk| >= HEADER_LEN && RouteOf(h, chunk).Some?
    ensures CacheAgrees(Noted(h, chunk)) <==> chunk[..HEADER_LEN] in h.byHeader
  {
    var header := chunk[..HEADER_LEN];
    var h' := Noted(h, chunk);
    if header in h.byHeader {
      assert h'.byHeader == h.byHeader;
    } else {
      var id := IdOf(header);
      assert Header(id) in h.byHeader;
      assert h'.byHeader[header].id == id && header != Header(id);
    }
  }

  /** A header padded with NUL bytes is such an alias, and it goes on routing after
      the transfer is gone. */
  lemma NulPaddedHeaderOutlivesTransfer(h: Hub)
    requires Agrees(h) && "a" in h.active
    ensures var chunk: Octets := [0x61] + seq(15, i => 0);
            RouteOf(h, chunk).Some? &&
            var h' := Forget(Noted(h, chunk), {"a"});
            "a" !in h'.active && RouteOf(h', chunk).Some?
  {
    var zeros: Octets := seq(15, i => 0);
    var chunk: Octets := [0x61] + zeros;
    NulsDecodeToNothing(15);
    DecodeConcat([0x61], zeros);
    assert Decode([0x61]) == "a" && "a" + [] == "a";
    assert chunk[..HEADER_LEN] == chunk;
    assert IdOf(chunk) == "a";
    EncodePrintable("a");
    assert Header("a")[1] == SPACE && chunk[1] == 0;
    assert chunk !in set i | i in {"a"} :: Header(i);
  }

  lemma {:induction false} NulsDecodeToNothing(n: nat)
    ensures var zeros: Octets := seq(n, i => 0); Decode(zeros) == []
  {
    if n > 0 {
      var zeros: Octets := seq(n, i => 0);
      NulsDecodeToNothing(n - 1);
      assert zeros[1..] == seq(n - 1, i => 0);
    }
  }
}
