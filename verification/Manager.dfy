/** The peer table: discovery and pruning over all peers, and one frame to every connected peer. */
module Manager {
  import opened Wire
  import opened Peers
  import opened Discovery

  type View = PeerView<ManagedConn>

  /** A peer counts as discovered exactly while its record says where and how to dial it, as connected
      exactly while its slot is taken, and the slot holds a connection to this peer. */
  predicate ViewFine(id: NodeId, v: View) {
    && (v.discovered <==> Usable(v))
    && (v.connected <==> v.slot.Some?)
    && (v.slot.Some? ==> v.slot.value.conn.peerId == id && v.slot.value.conn.direction == v.slot.value.dir)
  }

  /** Moreover the local node is never its own peer. */
  predicate TableFine(self: NodeId, table: map<NodeId, View>) {
    self !in table && forall id :: id in table ==> ViewFine(id, table[id])
  }

  function Entered(table: map<NodeId, View>, id: NodeId): map<NodeId, View> {
    if id in table then table else table[id := NewPeer()]
  }

  /** A peer after its announcement: rediscovered, and woken when this node is the one to dial. */
  function Woken(self: NodeId, id: NodeId, v: View, a: Announcement, now: int): View {
    var seen := Discovered(v, a, now);
    if ShouldDial(self, id) then seen.(dialLoopStarted := true, token := true) else seen
  }

  function Heard(self: NodeId, table: map<NodeId, View>, found: Found, now: int): map<NodeId, View> {
    var entered := Entered(table, found.id);
    entered[found.id := Woken(self, found.id, entered[found.id], found.announcement, now)]
  }

  function AllPruned(table: map<NodeId, View>, now: int, staleAfter: int): map<NodeId, View> {
    map id | id in table :: Pruned(table[id], now, staleAfter)
  }

  /** What keeps a stranger, an old version and the node itself from connecting. */
  predicate Admitted(self: NodeId, remoteId: NodeId, remoteProto: Bytes) {
    remoteId != [] && remoteProto == PROTOCOL_VERSION && remoteId != self
  }

  lemma {:induction false} HeardKeepsTable(self: NodeId, table: map<NodeId, View>, found: Found, now: int)
    requires TableFine(self, table) && found.id != self && UsableAnnouncement(found.announcement)
    ensures TableFine(self, Heard(self, table, found, now))
  {
  }

  /** An announcement leaves its peer ready to be dialled by the node that should, woken and with its
      loop started there and only there, its connection as it was, and every other peer alone. */
  lemma {:induction false} HearingWakesTheDialer(self: NodeId, table: map<NodeId, View>, found: Found, now: int)
    requires UsableAnnouncement(found.announcement)
    ensures var heard := Heard(self, table, found, now);
      && heard.Keys == table.Keys + {found.id}
      && (forall id :: id in table && id != found.id ==> heard[id] == table[id])
      && RecordOf(heard[found.id]) == found.announcement
      && heard[found.id].lastSeen == Some(now) && heard[found.id].discovered
      && (ShouldDial(self, found.id) ==> heard[found.id].token && heard[found.id].dialLoopStarted)
      && (!ShouldDial(self, found.id) ==>
            && heard[found.id].token == (found.id in table && table[found.id].token)
            && heard[found.id].dialLoopStarted == (found.id in table && table[found.id].dialLoopStarted))
      && heard[found.id].slot == (if found.id in table then table[found.id].slot else None)
      && heard[found.id].backoff == (if found.id in table then table[found.id].backoff else 0)
      && (MayDial(self, found.id, heard[found.id]) <==>
            (ShouldDial(self, found.id) && (found.id in table ==> table[found.id].slot.None?)))
  {
    var entered := Entered(table, found.id);
    AnnouncementReadsBack(self, found.id, entered[found.id], found.announcement, now);
  }

  lemma {:induction false} PruningKeepsTable(self: NodeId, table: map<NodeId, View>, now: int, staleAfter: int)
    requires TableFine(self, table)
    ensures TableFine(self, AllPruned(table, now, staleAfter))
    ensures var after := AllPruned(table, now, staleAfter);
      && after.Keys == table.Keys
      && (forall id :: id in table ==>
            after[id].slot == table[id].slot
            && (after[id].discovered <==> (table[id].discovered && !Stale(table[id], now, staleAfter)))
            && (!Stale(table[id], now, staleAfter) ==> after[id] == table[id]))
  {
  }

  lemma {:induction false} AdmittingKeepsTable(self: NodeId, table: map<NodeId, View>, remoteId: NodeId, remoteProto: Bytes)
    requires TableFine(self, table) && Admitted(self, remoteId, remoteProto)
    ensures TableFine(self, Entered(table, remoteId))
    ensures Entered(table, remoteId).Keys == table.Keys + {remoteId}
    ensures forall id :: id in table ==> Entered(table, remoteId)[id] == table[id]
    ensures remoteId !in table ==> Entered(table, remoteId)[remoteId] == NewPeer()
  {
  }

  /** Offering a connection to a slot, its end and a prepared dial keep the peer's record in order. */
  lemma {:induction false} ConnectionsKeepView(self: NodeId, id: NodeId, v: View, conn: ManagedConn, name: Bytes,
                                               minimum: int64, maximum: int64)
    requires ViewFine(id, v)
    ensures conn.peerId == id ==> ViewFine(id, Attached(self, id, v, conn, conn.direction, name))
    ensures ViewFine(id, Detached(v, conn)) && ViewFine(id, Prepared(self, id, v, minimum, maximum))
  {
  }

  /** The table after an inbound connection was offered, the peer being entered if it is new. */
  function Offered(self: NodeId, table: map<NodeId, View>, id: NodeId, conn: ManagedConn): map<NodeId, View> {
    var entered := Entered(table, id);
    entered[id := Peers.Attached(self, id, entered[id], conn, conn.direction, conn.peerName)]
  }

  /** Whether the table's slot for this id, empty if it is new, takes an inbound connection. */
  predicate Takes(self: NodeId, table: map<NodeId, View>, id: NodeId) {
    DecideFor(self, id, Entered(table, id)[id], Inbound) != Reject
  }

  function SupersededIn(self: NodeId, table: map<NodeId, View>, id: NodeId): ManagedConn? {
    SupersededBy(self, id, Entered(table, id)[id], Inbound)
  }

  datatype Upgrade = NotFound | MissingNodeId | UnsupportedVersion | SelfConnection | UpgradeFailed | Duplicate | Accepted

  /** Why a request never gets as far as the slot. */
  function Refusal(self: NodeId, onPath: bool, remoteId: NodeId, remoteProto: Bytes, upgrades: bool): Option<Upgrade> {
    if !onPath then Some(NotFound)
    else if remoteId == [] then Some(MissingNodeId)
    else if remoteProto != PROTOCOL_VERSION then Some(UnsupportedVersion)
    else if remoteId == self then Some(SelfConnection)
    else if !upgrades then Some(UpgradeFailed)
    else None
  }

  /** Every rejected request gets the answer of the first check it fails. */
  lemma {:induction false} RefusesExactly(self: NodeId, onPath: bool, remoteId: NodeId, remoteProto: Bytes, upgrades: bool)
    ensures var refusal := Refusal(self, onPath, remoteId, remoteProto, upgrades);
      && (refusal == None <==> (onPath && Admitted(self, remoteId, remoteProto) && upgrades))
      && (refusal == Some(NotFound) <==> !onPath)
      && (refusal == Some(MissingNodeId) <==> onPath && remoteId == [])
      && (refusal == Some(UnsupportedVersion) <==> onPath && remoteId != [] && remoteProto != PROTOCOL_VERSION)
      && (refusal == Some(SelfConnection) <==>
            (onPath && remoteId != [] && remoteProto == PROTOCOL_VERSION && remoteId == self))
      && (refusal == Some(UpgradeFailed) <==> onPath && Admitted(self, remoteId, remoteProto) && !upgrades)
    ensures Admitted(self, remoteId, remoteProto) <==> remoteId != [] && remoteProto == PROTOCOL_VERSION && remoteId != self
  {
  }

  datatype BroadcastResult = InvalidFrame | Broadcasted(failed: map<NodeId, SendResult>)

  /** Why a connection with this many queued frames may refuse one more. */
  predicate Refuses(r: SendResult, ctxDone: bool, cancelled: bool, capacity: nat, queued: nat) {
    match r
    case Sent => false
    case ContextDone => ctxDone
    case PeerNotConnected => cancelled
    case SendQueueFull => queued >= capacity && !ctxDone && !cancelled
  }

  lemma {:induction false} ValuesOfAdd<K, V>(m: map<K, V>, key: K, value: V)
    requires key !in m
    ensures m[key := value].Values == m.Values + {value}
  {
    var grown := m[key := value];
    forall x
      ensures x in grown.Values <==> x in m.Values + {value}
    {
      if x in m.Values {
        var k :| k in m && m[k] == x;
        assert k in grown && grown[k] == x;
      }
      if x == value { assert key in grown && grown[key] == x; }
      if x in grown.Values {
        var k :| k in grown && grown[k] == x;
        if k != key { assert k in m && m[k] == x; }
      }
    }
  }

  /** What was in a slot and is no longer is the one connection named as superseded. */
  ghost predicate GivesWay(before: set<ManagedConn>, after: set<ManagedConn>, superseded: ManagedConn?) {
    && (forall conn :: conn in before && conn !in after ==> conn == superseded)
    && (superseded != null ==> superseded in before)
  }

  class Manager {
    const nodeId: NodeId
    const maxFrameBytes: int
    const staleAfter: int
    var peers: map<NodeId, PeerState>

    constructor (nodeId: NodeId, maxFrameBytes: int, staleAfter: int)
      ensures Valid() && this.nodeId == nodeId && peers == map[]
      ensures this.maxFrameBytes == maxFrameBytes && this.staleAfter == staleAfter
    {
      this.nodeId, this.maxFrameBytes, this.staleAfter := nodeId, maxFrameBytes, staleAfter;
      peers := map[];
    }

    /** Each peer is filed under its own id. */
    ghost predicate Valid()
      reads this, peers.Values
    {
      forall id :: id in peers ==> peers[id].id == id
    }

    ghost function Table(): map<NodeId, View>
      reads this, peers.Values
    {
      map id | id in peers :: peers[id].View()
    }

    method GetOrCreatePeer(id: NodeId) returns (ps: PeerState)
      requires Valid()
      modifies this
      ensures Valid() && id in peers && peers[id] == ps && ps.id == id
      ensures Table() == Entered(old(Table()), id) && Conns() == old(Conns())
      ensures id in old(peers) ==> peers == old(peers)
      ensures id !in old(peers) ==> fresh(ps) && peers == old(peers)[id := ps]
    {
      if id in peers {
        return peers[id];
      }
      ps := new PeerState(id);
      peers := peers[id := ps];
      ValuesOfAdd(old(peers), id, ps);
    }

    method HandleServiceEntry(lib: Library, entry: Option<Entry>, now: int)
      requires Valid() && TableFine(nodeId, Table())
      modifies this, peers.Values
      ensures Valid() && TableFine(nodeId, Table())
      ensures AcceptableEntry(lib, entry) && MetadataOf(lib, entry.value.text).id != nodeId ==>
          exists found: Found :: Reads(lib, entry.value, found) && UsableAnnouncement(found.announcement)
            && Table() == Heard(nodeId, old(Table()), found, now)
      ensures !AcceptableEntry(lib, entry) || MetadataOf(lib, entry.value.text).id == nodeId ==> Table() == old(Table())
    {
      hide TableFine;
      hide Heard;
      hide UsableAnnouncement;
      hide AcceptableText;
      hide UsableAddress;
      hide Normalized;
      hide HostOf;
      hide Table;
      hide Valid;
      var parsed := PeerFromEntry(lib, entry);
      if parsed.Failed? || parsed.value.id == nodeId {
        return;
      }
      Hear(parsed.value, now);
    }

    method Hear(found: Found, now: int)
      requires Valid() && TableFine(nodeId, Table()) && found.id != nodeId && UsableAnnouncement(found.announcement)
      modifies this, peers.Values
      ensures Valid() && TableFine(nodeId, Table()) && Table() == Heard(nodeId, old(Table()), found, now)
    {
      hide PeerState.View;
      hide Woken;
      hide TableFine;
      HeardKeepsTable(nodeId, Table(), found, now);
      var ps := GetOrCreatePeer(found.id);
      label Filed:
      Wake(ps, found.announcement, now);
      forall id | id in peers && id != found.id
        ensures peers[id].View() == old@Filed(peers[id].View())
      {
        assert peers[id] != ps;
      }
      assert Table() == old@Filed(Table())[found.id := ps.View()];
    }

    /** Files the announcement under the peer's lock, then starts or wakes its dial loop. */
    method Wake(ps: PeerState, a: Announcement, now: int)
      modifies ps
      ensures ps.View() == Woken(nodeId, ps.id, old(ps.View()), a, now)
    {
      ps.Announce(a, now);
      if ShouldDial(nodeId, ps.id) {
        var start := ps.EnsureDialLoop();
        ps.TriggerReconnect();
      }
    }

    method PruneStalePeers(now: int)
      requires Valid() && TableFine(nodeId, Table())
      modifies peers.Values
      ensures Valid() && TableFine(nodeId, Table())
      ensures Table() == AllPruned(old(Table()), now, staleAfter)
    {
      hide PeerState.View;
      hide Pruned;
      hide TableFine;
      PruningKeepsTable(nodeId, Table(), now, staleAfter);
      PruneAll(peers.Values, now, staleAfter);
      assert Table() == AllPruned(old(Table()), now, staleAfter);
    }

    /** An inbound request: whether its path is the configured one, the three headers its sender gave,
        and whether the upgrade succeeds. */
    method HandleWebSocket(onPath: bool, remoteId: NodeId, remoteName: Bytes, remoteProto: Bytes, upgrades: bool, sendQueueSize: nat)
      returns (r: Upgrade, conn: ManagedConn?, superseded: ManagedConn?)
      requires Valid() && TableFine(nodeId, Table())
      modifies this, peers.Values
      ensures Valid() && TableFine(nodeId, Table())
      ensures var refusal := Refusal(nodeId, onPath, remoteId, remoteProto, upgrades);
        if refusal.Some? then
          r == refusal.value && Table() == old(Table()) && conn == null && superseded == null
        else
          && r in {Duplicate, Accepted} && conn != null && fresh(conn) && conn.direction == Inbound
          && conn.peerId == remoteId && conn.peerName == remoteName && conn.cancelled == (r == Duplicate)
          && Table() == Offered(nodeId, old(Table()), remoteId, conn)
          && (r == Accepted <==> Takes(nodeId, old(Table()), remoteId))
          && superseded == SupersededIn(nodeId, old(Table()), remoteId)
          && GivesWay(old(Conns()), Conns(), superseded) && (r == Accepted ==> conn in Conns())
    {
      var refusal := Refusal(nodeId, onPath, remoteId, remoteProto, upgrades);
      if refusal.Some? {
        return refusal.value, null, null;
      }
      RefusesExactly(nodeId, onPath, remoteId, remoteProto, upgrades);
      hide *;
      var accepted;
      accepted, conn, superseded := OfferInbound(remoteId, remoteName, sendQueueSize);
      r := if accepted then Accepted else Duplicate;
    }

    method OfferInbound(id: NodeId, name: Bytes, sendQueueSize: nat)
      returns (accepted: bool, conn: ManagedConn, superseded: ManagedConn?)
      requires Valid() && TableFine(nodeId, Table()) && Admitted(nodeId, id, PROTOCOL_VERSION)
      modifies this, peers.Values
      ensures Valid() && TableFine(nodeId, Table()) && Table() == Offered(nodeId, old(Table()), id, conn)
      ensures fresh(conn) && conn.direction == Inbound && conn.peerId == id && conn.peerName == name
      ensures conn.cancelled == !accepted
      ensures accepted <==> Takes(nodeId, old(Table()), id)
      ensures superseded == SupersededIn(nodeId, old(Table()), id)
      ensures GivesWay(old(Conns()), Conns(), superseded) && (accepted ==> conn in Conns())
    {
      hide TableFine;
      hide Table;
      hide Valid;
      hide GivesWay;
      hide DecideFor;
      AdmittingKeepsTable(nodeId, Table(), id, PROTOCOL_VERSION);
      var ps := GetOrCreatePeer(id);
      conn := new ManagedConn(Inbound, id, name, sendQueueSize);
      accepted, superseded := AttachConnection(ps, conn);
      if !accepted {
        conn.Close();
      }
    }

    /** The slot's side of an offer: which connections hold slots afterwards. */
    method OfferSlot(ps: PeerState, conn: ManagedConn) returns (accepted: bool, superseded: ManagedConn?)
      requires ps in peers.Values
      modifies ps
      ensures ps.View() == Peers.Attached(nodeId, ps.id, old(ps.View()), conn, conn.direction, conn.peerName)
      ensures accepted <==> DecideFor(nodeId, ps.id, old(ps.View()), conn.direction) != Reject
      ensures superseded == SupersededBy(nodeId, ps.id, old(ps.View()), conn.direction)
      ensures accepted ==> conn in Conns()
      ensures conn !in old(Conns()) ==> GivesWay(old(Conns()), Conns(), superseded)
    {
      hide PeerState.View;
      hide DecideFor;
      hide Peers.Attached;
      hide SupersededBy;
      accepted, superseded := ps.AttachConnection(nodeId, conn);
    }

    /** Offers a connection to its peer's slot; the superseded one, if any, is to be closed. */
    method AttachConnection(ps: PeerState, conn: ManagedConn) returns (accepted: bool, superseded: ManagedConn?)
      requires Valid() && TableFine(nodeId, Table()) && ps in peers.Values && conn.peerId == ps.id
      modifies ps
      ensures Valid() && TableFine(nodeId, Table()) && ps.id in old(Table())
      ensures Table() == old(Table())[ps.id := Peers.Attached(nodeId, ps.id, old(Table())[ps.id], conn, conn.direction, conn.peerName)]
      ensures accepted <==> DecideFor(nodeId, ps.id, old(Table())[ps.id], conn.direction) != Reject
      ensures superseded == SupersededBy(nodeId, ps.id, old(Table())[ps.id], conn.direction)
      ensures accepted ==> conn in Conns()
      ensures conn !in old(Conns()) ==> GivesWay(old(Conns()), Conns(), superseded)
    {
      assert ps.id in peers && Table()[ps.id] == ps.View() && ViewFine(ps.id, ps.View());
      hide PeerState.View;
      hide DecideFor;
      hide Peers.Attached;
      hide SupersededBy;
      hide GivesWay;
      hide ViewFine;
      ConnectionsKeepView(nodeId, ps.id, ps.View(), conn, conn.peerName, 0, 0);
      accepted, superseded := OfferSlot(ps, conn);
      forall id | id in peers && id != ps.id
        ensures peers[id].View() == old(peers[id].View())
      {
        assert peers[id] != ps;
      }
      assert Table() == old(Table())[ps.id := ps.View()];
    }

    /** The connections in the peers' slots. */
    function Conns(): set<ManagedConn>
      reads this, peers.Values
    {
      set ps | ps in peers.Values && ps.conn != null :: ps.conn
    }

    lemma {:induction false} OneConnectionEach()
      requires Valid() && TableFine(nodeId, Table())
      ensures forall conn :: conn in Conns() ==> conn.peerId in peers && peers[conn.peerId].conn == conn
    {
      forall conn | conn in Conns()
        ensures conn.peerId in peers && peers[conn.peerId].conn == conn
      {
        var ps :| ps in peers.Values && ps.conn == conn;
        assert ViewFine(ps.id, Table()[ps.id]);
      }
    }

    /** Offers one frame to every connected peer; a peer that cannot take it does not stop the rest. */
    method Broadcast(ctxDone: bool, frame: Bytes) returns (r: BroadcastResult)
      requires Valid() && TableFine(nodeId, Table())
      modifies Conns()`sendQ
      ensures r == InvalidFrame <==> |frame| > maxFrameBytes
      ensures r == InvalidFrame ==> forall conn :: conn in Conns() ==> conn.sendQ == old(conn.sendQ)
      ensures r != InvalidFrame ==> forall conn :: conn in Conns() ==>
          && conn.sendQ == (if conn.peerId in r.failed then old(conn.sendQ) else old(conn.sendQ) + [frame])
          && (conn.peerId in r.failed ==>
                Refuses(r.failed[conn.peerId], ctxDone, conn.cancelled, conn.capacity, |old(conn.sendQ)|))
      ensures r != InvalidFrame ==> forall id :: id in r.failed ==> exists conn :: conn in Conns() && conn.peerId == id
    {
      if |frame| > maxFrameBytes {
        return InvalidFrame;
      }
      OneConnectionEach();
      var failed := SendToAll(ctxDone, frame, Conns());
      return Broadcasted(failed);
    }
  }

  /** Prunes each of a set of peers. */
  method PruneAll(all: set<PeerState>, now: int, staleAfter: int)
    modifies all
    ensures forall ps :: ps in all ==> ps.View() == Pruned(old(ps.View()), now, staleAfter)
  {
    hide PeerState.View;
    hide Pruned;
    var todo := all;
    while todo != {}
      invariant todo <= all
      invariant forall ps :: ps in todo ==> ps.View() == old(ps.View())
      invariant forall ps :: ps in all - todo ==> ps.View() == Pruned(old(ps.View()), now, staleAfter)
      decreases |todo|
    {
      var ps :| ps in todo;
      ps.PruneIfStale(now, staleAfter);
      todo := todo - {ps};
    }
  }

  /** Enqueues one frame on each of a set of connections to different peers. */
  method SendToAll(ctxDone: bool, frame: Bytes, conns: set<ManagedConn>) returns (failed: map<NodeId, SendResult>)
    requires forall c, d :: c in conns && d in conns && c.peerId == d.peerId ==> c == d
    modifies conns`sendQ
    ensures forall conn :: conn in conns ==>
        && conn.sendQ == (if conn.peerId in failed then old(conn.sendQ) else old(conn.sendQ) + [frame])
        && (conn.peerId in failed ==>
              Refuses(failed[conn.peerId], ctxDone, conn.cancelled, conn.capacity, |old(conn.sendQ)|))
    ensures forall id :: id in failed ==> exists conn :: conn in conns && conn.peerId == id
  {
    failed := map[];
    var todo := conns;
    while todo != {}
      invariant todo <= conns
      invariant forall conn :: conn in todo ==> conn.peerId !in failed && conn.sendQ == old(conn.sendQ)
      invariant forall conn :: conn in conns - todo ==>
          conn.sendQ == (if conn.peerId in failed then old(conn.sendQ) else old(conn.sendQ) + [frame])
      invariant forall conn :: conn in conns - todo && conn.peerId in failed ==>
          Refuses(failed[conn.peerId], ctxDone, conn.cancelled, conn.capacity, |old(conn.sendQ)|)
      invariant forall id :: id in failed ==> exists conn :: conn in conns && conn.peerId == id
      decreases |todo|
    {
      var conn :| conn in todo;
      var sent := conn.Enqueue(ctxDone, frame);
      if sent != Sent {
        failed := failed[conn.peerId := sent];
      }
      todo := todo - {conn};
    }
  }
}
