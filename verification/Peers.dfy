/** One remote peer as a node sees it: its discovery record, its single connection slot with the
    direction tie-break, the one-token reconnect channel and the dial backoff. */
module Peers {
  import opened Wire

  type NodeId = Bytes

  datatype Direction = Inbound | Outbound

  /** The program's protocol version, "v1". */
  const PROTOCOL_VERSION: Bytes := [0x76, 0x31]

  /** Byte-wise string order: the smaller id dials. */
  predicate ShouldDial(self: NodeId, peer: NodeId) {
    if peer == [] then false
    else if self == [] then true
    else if self[0] != peer[0] then self[0] < peer[0]
    else ShouldDial(self[1..], peer[1..])
  }

  /** The id is the smaller one: the first difference decides, or it is what the other begins with. */
  ghost predicate Smaller(a: NodeId, b: NodeId) {
    exists k :: 0 <= k <= |a| && k <= |b| && a[..k] == b[..k]
      && if k < |a| then k < |b| && a[k] < b[k] else k < |b|
  }

  lemma {:induction false} SameStart(a: NodeId, b: NodeId, k: nat)
    requires k <= |a| && k <= |b| && a[..k] == b[..k]
    ensures k > 0 ==> a[0] == b[0]
  {
    if k > 0 {
      assert a[0] == a[..k][0] && b[0] == b[..k][0];
    }
  }

  lemma {:induction false} TheSmallerDials(a: NodeId, b: NodeId)
    ensures ShouldDial(a, b) <==> Smaller(a, b)
  {
    if a != [] && b != [] && a[0] == b[0] {
      TheSmallerDials(a[1..], b[1..]);
      if Smaller(a[1..], b[1..]) {
        var k :| 0 <= k <= |a[1..]| && k <= |b[1..]| && a[1..][..k] == b[1..][..k]
          && if k < |a[1..]| then k < |b[1..]| && a[1..][k] < b[1..][k] else k < |b[1..]|;
        assert a[..k + 1] == [a[0]] + a[1..][..k] && b[..k + 1] == [b[0]] + b[1..][..k];
      }
      if Smaller(a, b) {
        var k :| 0 <= k <= |a| && k <= |b| && a[..k] == b[..k] && if k < |a| then k < |b| && a[k] < b[k] else k < |b|;
        assert k > 0;
        assert a[1..][..k - 1] == a[..k][1..] && b[1..][..k - 1] == b[..k][1..];
      }
    } else {
      assert a[..0] == b[..0];
      if Smaller(a, b) && a != [] && b != [] {
        var k :| 0 <= k <= |a| && k <= |b| && a[..k] == b[..k] && if k < |a| then k < |b| && a[k] < b[k] else k < |b|;
        SameStart(a, b, k);
      }
    }
  }

  function PreferredDirection(self: NodeId, peer: NodeId): Direction {
    if ShouldDial(self, peer) then Outbound else Inbound
  }

  /** Of two different nodes exactly one dials. */
  lemma {:induction false} OneDials(a: NodeId, b: NodeId)
    ensures a != b ==> (ShouldDial(a, b) <==> !ShouldDial(b, a))
    ensures !ShouldDial(a, a)
  {
    if a != [] {
      OneDials(a[1..], if b == [] then [] else b[1..]);
      OneDials(a[1..], a[1..]);
      if b != [] && a[0] == b[0] {
        assert a == [a[0]] + a[1..] && b == [b[0]] + b[1..];
      }
    }
  }

  /** The direction a link has at a node. */
  function DirectionAt(self: NodeId, dialer: NodeId): Direction {
    if self == dialer then Outbound else Inbound
  }

  /** The two ends of a link prefer it both or neither: it is preferred when the smaller id dialled it. */
  lemma {:induction false} EndsPreferTheSame(a: NodeId, b: NodeId, dialer: NodeId)
    requires a != b && (dialer == a || dialer == b)
    ensures DirectionAt(a, dialer) == PreferredDirection(a, b) <==> DirectionAt(b, dialer) == PreferredDirection(b, a)
    ensures DirectionAt(a, dialer) == PreferredDirection(a, b)
       <==> ShouldDial(dialer, if dialer == a then b else a)
  {
    OneDials(a, b);
  }

  // ---- The peer record ----

  datatype Slot<C> = Slot(conn: C, dir: Direction)

  /** The fields of a peer; `C` names connections. A zero last-seen time is `None`. */
  datatype PeerView<C> = PeerView(
    name: Bytes,
    host: Bytes,
    port: int,
    addresses: seq<Bytes>,
    connected: bool,
    lastSeen: Option<int>,
    discovered: bool,
    wsPath: Bytes,
    proto: Bytes,
    slot: Option<Slot<C>>,
    backoff: int64,
    token: bool,
    dialLoopStarted: bool)

  function NewPeer<C>(): PeerView<C> {
    PeerView([], [], 0, [], false, None, false, [], [], None, 0, false, false)
  }

  datatype Decision = TakeFree | Supersede | Reject

  /** What to do with a new connection, given the direction of the one in the slot. */
  function Decide(current: Option<Direction>, dir: Direction, preferred: Direction): Decision {
    if current.None? then TakeFree
    else if current.value == dir then Reject
    else if dir == preferred then Supersede
    else Reject
  }

  function SlotDirection<C>(v: PeerView<C>): Option<Direction> {
    if v.slot.Some? then Some(v.slot.value.dir) else None
  }

  function DecideFor<C>(self: NodeId, peer: NodeId, v: PeerView<C>, dir: Direction): Decision {
    Decide(SlotDirection(v), dir, PreferredDirection(self, peer))
  }

  /** The connection, if any, that gives way to a new one. */
  function SupersededBy(self: NodeId, peer: NodeId, v: PeerView<ManagedConn>, dir: Direction): ManagedConn? {
    if v.slot.Some? && DecideFor(self, peer, v, dir) == Supersede then v.slot.value.conn else null
  }

  /** The record after a connection was offered to the slot. */
  function Attached<C>(self: NodeId, peer: NodeId, v: PeerView<C>, conn: C, dir: Direction, name: Bytes): PeerView<C> {
    var named := if name != [] then v.(name := name) else v;
    if DecideFor(self, peer, v, dir) == Reject then named
    else named.(slot := Some(Slot(conn, dir)), connected := true, backoff := 0)
  }

  /** The record after a connection reported its end. Only the connection in the slot clears it. */
  function Detached<C(==)>(v: PeerView<C>, conn: C): PeerView<C> {
    if v.slot.Some? && v.slot.value.conn == conn then v.(slot := None, connected := false) else v
  }

  /** Whether that end asks for a reconnect. */
  predicate AsksReconnect<C(==)>(self: NodeId, peer: NodeId, v: PeerView<C>, conn: C) {
    v.slot.Some? && v.slot.value.conn == conn && v.discovered && ShouldDial(self, peer)
  }

  /** Doubling in a 64-bit duration, capped. */
  function Bump(backoff: int64, minimum: int64, maximum: int64): int64 {
    if backoff <= 0 then minimum
    else
      var doubled := Wrap64(backoff * 2);
      if doubled > maximum then maximum else doubled
  }

  /** The record says where and how to dial. */
  predicate Usable<C>(v: PeerView<C>) {
    v.port != 0 && v.addresses != [] && v.wsPath != [] && v.proto == PROTOCOL_VERSION
  }

  predicate FirstGuard<C>(self: NodeId, peer: NodeId, v: PeerView<C>) {
    v.slot.None? && v.discovered && ShouldDial(self, peer)
  }

  predicate MayDial<C>(self: NodeId, peer: NodeId, v: PeerView<C>) {
    FirstGuard(self, peer, v) && Usable(v)
  }

  function Prepared<C>(self: NodeId, peer: NodeId, v: PeerView<C>, minimum: int64, maximum: int64): PeerView<C> {
    if MayDial(self, peer, v) then v.(backoff := Bump(v.backoff, minimum, maximum)) else v
  }

  /** What a service announcement says about a peer. */
  datatype Announcement = Announcement(name: Bytes, host: Bytes, port: int, addresses: seq<Bytes>, wsPath: Bytes, proto: Bytes)

  /** Announces where and how to dial. */
  predicate UsableAnnouncement(a: Announcement) {
    a.port != 0 && a.addresses != [] && a.wsPath != [] && a.proto == PROTOCOL_VERSION
  }

  function Discovered<C>(v: PeerView<C>, a: Announcement, now: int): PeerView<C> {
    v.(name := a.name, host := a.host, port := a.port, addresses := a.addresses, lastSeen := Some(now),
       discovered := true, wsPath := a.wsPath, proto := a.proto)
  }

  function RecordOf<C>(v: PeerView<C>): Announcement {
    Announcement(v.name, v.host, v.port, v.addresses, v.wsPath, v.proto)
  }

  /** What was announced last is what a dial uses; hearing of a peer touches nothing of its connection. */
  lemma {:induction false} AnnouncementReadsBack<C>(self: NodeId, peer: NodeId, v: PeerView<C>, a: Announcement, now: int)
    ensures RecordOf(Discovered(v, a, now)) == a
    ensures MayDial(self, peer, Discovered(v, a, now)) <==> v.slot.None? && ShouldDial(self, peer) && UsableAnnouncement(a)
    ensures forall earlier: Announcement, at: int :: Discovered(Discovered(v, earlier, at), a, now) == Discovered(v, a, now)
    ensures Discovered(v, a, now).(name := v.name, host := v.host, port := v.port, addresses := v.addresses,
              lastSeen := v.lastSeen, discovered := v.discovered, wsPath := v.wsPath, proto := v.proto) == v
  {
  }

  predicate Stale<C>(v: PeerView<C>, now: int, staleAfter: int) {
    v.discovered && v.lastSeen.Some? && now - v.lastSeen.value > staleAfter
  }

  function Pruned<C>(v: PeerView<C>, now: int, staleAfter: int): PeerView<C> {
    if Stale(v, now, staleAfter)
    then v.(discovered := false, host := [], port := 0, addresses := [], wsPath := [], proto := [])
    else v
  }

  /** What an offer may change: a name that was given, and only if it is taken the slot, which then holds
      exactly the new connection, with the backoff cleared. */
  lemma {:induction false} OfferChangesExactly<C>(self: NodeId, peer: NodeId, v: PeerView<C>, conn: C, dir: Direction, name: Bytes)
    ensures var after := Attached(self, peer, v, conn, dir, name);
      && after.name == (if name == [] then v.name else name)
      && after.(name := v.name, slot := v.slot, connected := v.connected, backoff := v.backoff) == v
      && (if v.slot.None? || (v.slot.value.dir != dir && dir == PreferredDirection(self, peer)) then
            after.slot == Some(Slot(conn, dir)) && after.connected && after.backoff == 0
          else
            after.slot == v.slot && after.connected == v.connected && after.backoff == v.backoff)
  {
  }

  /** A refused dial leaves the record, its backoff included, as it was; one that goes ahead changes the
      backoff alone. */
  lemma {:induction false} PreparingChangesExactly<C>(self: NodeId, peer: NodeId, v: PeerView<C>, minimum: int64, maximum: int64)
    ensures var after := Prepared(self, peer, v, minimum, maximum);
      && after.(backoff := v.backoff) == v
      && ((v.slot.Some? || !v.discovered || !ShouldDial(self, peer) || v.port == 0 || v.addresses == []
           || v.wsPath == [] || v.proto != PROTOCOL_VERSION) ==> after == v)
      && ((v.slot.None? && v.discovered && ShouldDial(self, peer) && v.port != 0 && v.addresses != []
           && v.wsPath != [] && v.proto == PROTOCOL_VERSION) ==> after.backoff == Bump(v.backoff, minimum, maximum))
  {
  }

  /** The end of a connection asks for a reconnect exactly when it held the slot of a discovered peer that
      this node dials, and empties the slot exactly when it held it. */
  lemma {:induction false} EndChangesExactly<C>(self: NodeId, peer: NodeId, v: PeerView<C>, conn: C)
    ensures var held := v.slot.Some? && v.slot.value.conn == conn;
      && (AsksReconnect(self, peer, v, conn) <==> held && v.discovered && ShouldDial(self, peer))
      && Detached(v, conn) == if held then v.(slot := None, connected := false) else v
  {
  }

  /** A peer not heard of for too long keeps its name and its connection and nothing it announced. */
  lemma {:induction false} PruningForgets<C>(v: PeerView<C>, now: int, staleAfter: int)
    ensures var after, stale := Pruned(v, now, staleAfter), v.discovered && v.lastSeen.Some? && now - v.lastSeen.value > staleAfter;
      && (stale ==> !after.discovered && RecordOf(after) == Announcement(v.name, [], 0, [], [], []))
      && (stale ==> after.(discovered := v.discovered, host := v.host, port := v.port, addresses := v.addresses,
                           wsPath := v.wsPath, proto := v.proto) == v)
      && (!stale ==> after == v)
  {
  }

  // ---- The objects ----

  datatype SendResult = Sent | ContextDone | PeerNotConnected | SendQueueFull

  class ManagedConn {
    const direction: Direction
    const peerId: NodeId
    const peerName: Bytes
    const capacity: nat
    var cancelled: bool
    var sendQ: seq<Bytes>

    constructor (direction: Direction, peerId: NodeId, peerName: Bytes, capacity: nat)
      ensures this.direction == direction && this.peerId == peerId && this.peerName == peerName
      ensures this.capacity == capacity && !cancelled && sendQ == []
    {
      this.direction, this.peerId, this.peerName, this.capacity := direction, peerId, peerName, capacity;
      cancelled, sendQ := false, [];
    }

    /** Ends the connection; its pumps and later sends notice. Closing again changes nothing. */
    method Close()
      modifies `cancelled
      ensures cancelled
    {
      cancelled := true;
    }

    /** Places a copy of the frame in the send queue without blocking. When several cases of the
        program's `select` are ready, any of them may be taken. */
    method Enqueue(ctxDone: bool, frame: Bytes) returns (r: SendResult)
      modifies `sendQ
      ensures sendQ == old(sendQ) + if r == Sent then [frame] else []
      ensures r == Sent ==> |old(sendQ)| < capacity
      ensures r == ContextDone ==> ctxDone
      ensures r == PeerNotConnected ==> cancelled
      ensures r == SendQueueFull ==> |old(sendQ)| >= capacity && !ctxDone && !cancelled
    {
      if {
        case ctxDone => return ContextDone;
        case cancelled => return PeerNotConnected;
        case |sendQ| < capacity =>
          sendQ := sendQ + [frame];
          return Sent;
        case !ctxDone && !cancelled && |sendQ| >= capacity => return SendQueueFull;
      }
    }
  }

  /** What callers see of a peer. */
  datatype Peer = Peer(name: Bytes, host: Bytes, port: int, addresses: seq<Bytes>, connected: bool, lastSeen: Option<int>)

  class PeerState {
    const id: NodeId
    var peer: Peer
    var discovered: bool
    var wsPath: Bytes
    var proto: Bytes
    var conn: ManagedConn?
    var backoff: int64
    var token: bool // the one-place reconnect channel holds its token
    var dialLoopStarted: bool

    constructor (id: NodeId)
      ensures this.id == id && View() == NewPeer() && conn == null
    {
      this.id := id;
      peer := Peer([], [], 0, [], false, None);
      discovered, wsPath, proto, conn, backoff, token, dialLoopStarted := false, [], [], null, 0, false, false;
    }

    function HeldSlot(): Option<Slot<ManagedConn>>
      reads `conn
    {
      if conn == null then None
      else
        var held: ManagedConn := conn;
        Some(Slot(held, held.direction))
    }

    function View(): PeerView<ManagedConn>
      reads this
    {
      PeerView(peer.name, peer.host, peer.port, peer.addresses, peer.connected, peer.lastSeen, discovered, wsPath, proto,
               HeldSlot(), backoff, token, dialLoopStarted)
    }

    method TriggerReconnect()
      modifies this
      ensures View() == old(View()).(token := true)
    {
      token := true;
    }

    method ResetBackoff()
      modifies this
      ensures View() == old(View()).(backoff := 0)
    {
      backoff := 0;
    }

    method BumpBackoff(minimum: int64, maximum: int64) returns (delay: int64)
      modifies this
      ensures View() == old(View()).(backoff := Bump(old(backoff), minimum, maximum)) && delay == backoff
    {
      if backoff <= 0 {
        backoff := minimum;
        return backoff;
      }
      backoff := Wrap64(backoff * 2);
      if backoff > maximum {
        backoff := maximum;
      }
      return backoff;
    }

    method PrepareDial(self: NodeId, minimum: int64, maximum: int64) returns (go: bool, delay: int64)
      modifies this
      ensures go <==> MayDial(self, id, old(View()))
      ensures View() == Prepared(self, id, old(View()), minimum, maximum)
      ensures go ==> delay == backoff
    {
      if conn != null || !discovered || !ShouldDial(self, id) {
        return false, 0;
      }
      if peer.port == 0 || peer.addresses == [] || wsPath == [] || proto != PROTOCOL_VERSION {
        return false, 0;
      }
      delay := BumpBackoff(minimum, maximum);
      return true, delay;
    }

    /** The superseded connection, if any, is to be closed by another goroutine. */
    method AttachConnection(self: NodeId, offered: ManagedConn) returns (accepted: bool, superseded: ManagedConn?)
      modifies this
      ensures View() == Attached(self, id, old(View()), offered, offered.direction, offered.peerName)
      ensures accepted <==> DecideFor(self, id, old(View()), offered.direction) != Reject
      ensures superseded == SupersededBy(self, id, old(View()), offered.direction)
      ensures if accepted then conn == offered else conn == old(conn)
      ensures offered != old(conn) ==> superseded == if conn == old(conn) then null else old(conn)
    {
      superseded := null;
      if offered.peerName != [] {
        peer := peer.(name := offered.peerName);
      }
      var preferred := PreferredDirection(self, id);
      if conn == null {
        conn, peer, backoff := offered, peer.(connected := true), 0;
        accepted := true;
      } else if conn.direction == offered.direction {
        accepted := false;
      } else if offered.direction == preferred {
        superseded := conn;
        conn, peer, backoff := offered, peer.(connected := true), 0;
        accepted := true;
      } else {
        accepted := false;
      }
    }

    method HandleConnectionClosed(self: NodeId, ended: ManagedConn) returns (reconnect: bool)
      modifies this
      ensures View() == Detached(old(View()), ended)
      ensures reconnect <==> AsksReconnect(self, id, old(View()), ended)
    {
      if conn != ended {
        return false;
      }
      conn, peer := null, peer.(connected := false);
      return discovered && ShouldDial(self, id);
    }

    method Announce(a: Announcement, now: int)
      modifies this
      ensures View() == Discovered(old(View()), a, now)
    {
      peer := Peer(a.name, a.host, a.port, a.addresses, peer.connected, Some(now));
      discovered, wsPath, proto := true, a.wsPath, a.proto;
    }

    method PruneIfStale(now: int, staleAfter: int)
      modifies this
      ensures View() == Pruned(old(View()), now, staleAfter)
    {
      if discovered && peer.lastSeen.Some? && now - peer.lastSeen.value > staleAfter {
        discovered, wsPath, proto := false, [], [];
        peer := peer.(host := [], port := 0, addresses := []);
      }
    }

    /** True for the one caller that is to start the peer's dial loop. */
    method EnsureDialLoop() returns (start: bool)
      modifies this
      ensures start == !old(dialLoopStarted)
      ensures View() == old(View()).(dialLoopStarted := true)
    {
      start := !dialLoopStarted;
      dialLoopStarted := true;
    }
  }
}
