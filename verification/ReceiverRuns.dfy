/** Calls of the receiver on any descriptors, with the proxy's other operations between them. */
module ReceiverRuns {
  import opened Framing
  import opened ProxyState
  import opened ProxyRuns
  import opened ProxyArrivals
  import opened Receiving

  /** Bodies come in, and descriptors are marked, by calls of the receiver only. */
  datatype Event =
    | Hears(fd: int, s: Sock, writes: seq<bool>)
    | Does(op: Op)

  ghost predicate Happens(v: View, e: Event) {
    match e
    case Hears(_, s, _) => s.Valid()
    case Does(op) => !op.Arrive? && !op.TagUnintercepted? && ProxyRuns.Enabled(v, op)
  }

  ghost function After(v: View, e: Event): View
    requires Happens(v, e)
  {
    match e
    case Hears(fd, s, writes) => DoReceive(v, fd, s, writes).v
    case Does(op) => ProxyRuns.Step(v, op)
  }

  ghost predicate IsCourse(v: View, events: seq<Event>)
    decreases |events|
  {
    events == [] || (Happens(v, events[0]) && IsCourse(After(v, events[0]), events[1..]))
  }

  ghost function AfterAll(v: View, events: seq<Event>): View
    requires IsCourse(v, events)
    decreases |events|
  {
    if events == [] then v else AfterAll(After(v, events[0]), events[1..])
  }

  lemma AfterKeepsInv(v: View, e: Event)
    requires Inv(v) && Happens(v, e)
    ensures Inv(After(v, e))
  {
    match e
    case Hears(fd, s, writes) => ReceiveKeepsInv(v, fd, s, writes);
    case Does(op) => ProxyRuns.StepKeepsInv(v, op);
  }

  /** A descriptor on which the framing was given up, with the cells of its connection: it is marked as long as the
      connection is there. */
  ghost predicate Marked(v: View, fd: int, self: Cell, peer: Cell) {
    && self in v.fds && peer in v.fds
    && if v.fds[self] == -1 then v.fds[peer] == -1
       else
         && v.fds[self] == fd && fd in v.table && fd in v.unintercepted
         && v.table[fd].selfFd == self && v.table[fd].peerFd == peer
  }

  lemma MarkedByTable(v: View, w: View, fd: int, self: Cell, peer: Cell)
    requires Marked(v, fd, self, peer) && v.unintercepted <= w.unintercepted
    requires forall c :: c in v.fds ==> c in w.fds && w.fds[c] == v.fds[c]
    requires forall f :: f in v.table ==>
               f in w.table && w.table[f].selfFd == v.table[f].selfFd && w.table[f].peerFd == v.table[f].peerFd
    ensures Marked(w, fd, self, peer)
  {
  }

  lemma ClosedKeepsMark(v: View, w: View, gone: set<int>, fd: int, self: Cell, peer: Cell)
    requires Linked(v) && Closed(v, w, gone) && Marked(v, fd, self, peer)
    ensures Marked(w, fd, self, peer)
  {
    if v.fds[self] != -1 {
      assert v.fds[peer] == Peer(v, fd);
    }
  }

  lemma GoneKeepsMark(v: View, w: View, f: int, fd: int, self: Cell, peer: Cell)
    requires Linked(v) && f in v.table && Gone(v, w, f) && Marked(v, fd, self, peer)
    ensures Marked(w, fd, self, peer)
  {
    PeersMatch(v, f, f);
    if v.fds[self] != -1 {
      PeersMatch(v, fd, f);
    }
  }

  lemma HearingKeepsMark(v: View, f: int, s: Sock, writes: seq<bool>, fd: int, self: Cell, peer: Cell)
    requires Inv(v) && s.Valid() && Marked(v, fd, self, peer)
    ensures Marked(DoReceive(v, f, s, writes).v, fd, self, peer)
  {
    var c := DoReceive(v, f, s, writes);
    CallLeaves(v, f, s, writes);
    if f in v.table {
      if c.outcome == ClosedDown || c.outcome == FrameRead {
        GoneKeepsMark(v, c.v, f, fd, self, peer);
      } else {
        MarkedByTable(v, c.v, fd, self, peer);
      }
    }
  }

  lemma OpeningKeepsMark(
      v: View, srcFd: int, dstFd: int, srcCell: Cell, dstCell: Cell, src: Addr, dst: Addr,
      fd: int, self: Cell, peer: Cell)
    requires srcFd !in v.table && dstFd !in v.table && srcFd != dstFd
    requires srcCell !in v.fds && dstCell !in v.fds && srcCell != dstCell && Marked(v, fd, self, peer)
    ensures Marked(Open(v, srcFd, dstFd, srcCell, dstCell, src, dst), fd, self, peer)
  {
    OpenEntries(v, srcFd, dstFd, srcCell, dstCell, src, dst);
    MarkedByTable(v, Open(v, srcFd, dstFd, srcCell, dstCell, src, dst), fd, self, peer);
  }

  lemma PartitionKeepsMark(v: View, node: Addr, fd: int, self: Cell, peer: Cell)
    requires Marked(v, fd, self, peer)
    ensures Marked(Partition(v, node), fd, self, peer)
  {
    MarkedByTable(v, Partition(v, node), fd, self, peer);
  }

  lemma ClosingKeepsMark(v: View, f: int, fd: int, self: Cell, peer: Cell)
    requires Linked(v) && Marked(v, fd, self, peer)
    ensures Marked(Close(v, f), fd, self, peer)
  {
    if f in v.table {
      CloseIsClosed(v, f);
      ClosedKeepsMark(v, Close(v, f), {f, Peer(v, f)}, fd, self, peer);
    }
  }

  lemma RecoverKeepsMark(v: View, node: Addr, fd: int, self: Cell, peer: Cell)
    requires Wired(v) && Marked(v, fd, self, peer)
    ensures Marked(Recover(v, node), fd, self, peer)
  {
    RecoverIsClosed(v, node);
    ClosedKeepsMark(v, Recover(v, node), Touching(v, node), fd, self, peer);
  }

  lemma DoingKeepsMark(v: View, op: Op, fd: int, self: Cell, peer: Cell)
    requires Inv(v) && Happens(v, Does(op)) && Marked(v, fd, self, peer)
    ensures Marked(ProxyRuns.Step(v, op), fd, self, peer)
  {
    match op
    case OpenConnection(srcFd, dstFd, srcCell, dstCell, src, dst) =>
      OpeningKeepsMark(v, srcFd, dstFd, srcCell, dstCell, src, dst, fd, self, peer);
    case DeliverFrom(channel, writeOk) => DeliverKeepsMark(v, channel, writeOk, fd, self, peer);
    case CloseConnection(f) => ClosingKeepsMark(v, f, fd, self, peer);
    case PartitionNode(node) => PartitionKeepsMark(v, node, fd, self, peer);
    case RecoverNode(node) => RecoverKeepsMark(v, node, fd, self, peer);
  }

  lemma DeliverKeepsMark(v: View, channel: Channel, writeOk: bool, fd: int, self: Cell, peer: Cell)
    requires Inv(v) && Marked(v, fd, self, peer)
    ensures Marked(Deliver(v, channel, writeOk).0, fd, self, peer)
  {
    DeliverOnlyTags(v, channel, writeOk);
    MarkedByTable(v, Deliver(v, channel, writeOk).0, fd, self, peer);
  }

  // ---- The account of the peer

  lemma PeerIsOwn(v: View, f: int, fd: int, self: Cell, peer: Cell)
    requires Inv(v) && Marked(v, fd, self, peer) && f in v.table && v.table[f].peerFd == peer
    ensures f == fd && fd in v.unintercepted
  {
    PeersMatch(v, f, f);
    if v.fds[self] != -1 {
      PeersMatch(v, fd, f);
    }
  }

  lemma HearingKeepsAccount(v: View, f: int, s: Sock, writes: seq<bool>, fd: int, self: Cell, peer: Cell)
    requires Inv(v) && s.Valid() && Marked(v, fd, self, peer)
    ensures var w := DoReceive(v, f, s, writes).v;
            peer in v.received && peer in w.received && w.received[peer] == v.received[peer]
  {
    if f in v.table && f !in v.unintercepted {
      var c := ReadFrames(v, f, s, NO_HEADER, writes);
      ReadFramesEnqueue(v, f, s, NO_HEADER, writes);
      EnqueueAllTakesIn(v, f, c.bodies, writes);
      EnqueueAllKeepsInv(v, f, c.bodies, writes);
      EndKeepsAccounts(c.v, f, c.outcome);
      if v.table[f].peerFd == peer {
        PeerIsOwn(v, f, fd, self, peer);
      }
    }
  }

  lemma EndKeepsAccounts(w: View, fd: int, outcome: Reception)
    requires Linked(w)
    ensures AfterReception(w, fd, outcome).received == w.received
  {
    if outcome == ClosedDown && fd in w.table {
      CloseIsClosed(w, fd);
    }
  }

  lemma DoingKeepsAccount(v: View, op: Op, peer: Cell)
    requires Inv(v) && Happens(v, Does(op)) && peer in v.fds
    ensures var w := ProxyRuns.Step(v, op);
            peer in v.received && peer in w.received && w.received[peer] == v.received[peer]
  {
    match op
    case OpenConnection(_, _, _, _, _, _) =>
    case DeliverFrom(channel, writeOk) => DeliverOnlyTags(v, channel, writeOk);
    case CloseConnection(f) => if f in v.table { CloseIsClosed(v, f); }
    case PartitionNode(_) =>
    case RecoverNode(_) =>
  }

  lemma {:induction false} MarkHolds(v: View, events: seq<Event>, fd: int, self: Cell, peer: Cell)
    requires Inv(v) && IsCourse(v, events) && Marked(v, fd, self, peer)
    ensures var w := AfterAll(v, events);
            && Inv(w) && Marked(w, fd, self, peer)
            && peer in v.received && peer in w.received && w.received[peer] == v.received[peer]
    decreases |events|
  {
    if events == [] {
      assert peer in v.received;
    } else {
      AfterKeepsInv(v, events[0]);
      match events[0] {
        case Hears(f, s, writes) =>
          HearingKeepsMark(v, f, s, writes, fd, self, peer);
          HearingKeepsAccount(v, f, s, writes, fd, self, peer);
        case Does(op) =>
          DoingKeepsMark(v, op, fd, self, peer);
          DoingKeepsAccount(v, op, peer);
      }
      MarkHolds(After(v, events[0]), events[1..], fd, self, peer);
    }
  }

  /** Giving up the framing is for good.  After a call that gave up on a descriptor, and whatever comes and is done
      then: nothing more comes in for its peer; and as long as the connection is there every call on the descriptor
      reads no body, and changes nothing of the proxy. */
  lemma GivenUpForGood(v: View, fd: int, s: Sock, writes: seq<bool>, events: seq<Event>)
    requires Inv(v) && fd in v.table && s.Valid() && DoReceive(v, fd, s, writes).outcome == NotFramed
    requires IsCourse(DoReceive(v, fd, s, writes).v, events)
    ensures var u := DoReceive(v, fd, s, writes).v;
            var w, self, peer := AfterAll(u, events), v.table[fd].selfFd, v.table[fd].peerFd;
            && peer in u.received && peer in w.received && w.received[peer] == u.received[peer]
            && self in w.fds && w.fds[self] in {fd, -1}
            && (w.fds[self] == fd ==>
                 forall t: Sock, oks: seq<bool> :: t.Valid() ==> DoReceive(w, fd, t, oks) == Call(NotFramed, [], w, t))
  {
    var u := DoReceive(v, fd, s, writes).v;
    var self, peer := v.table[fd].selfFd, v.table[fd].peerFd;
    ReceiveKeepsInv(v, fd, s, writes);
    CallLeaves(v, fd, s, writes);
    assert Marked(u, fd, self, peer);
    MarkHolds(u, events, fd, self, peer);
  }
}
