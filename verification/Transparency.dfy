/** From one program's buffers to the other's: the sender frames them, and the proxy receives the frames in any number
    of calls, however their bytes arrive, and passes the buffers on.

    The environment is given beforehand: the turns, and with them which direct writes succeed; and the socket's schedule
    of arrivals and expired waits.  So a course of turns is a function, and what is said of it is said of these. */
module Transparency {
  import opened Framing
  import opened ProxyState
  import opened ProxyRuns
  import opened ProxyArrivals
  import opened Receiving
  import opened TcpNetwork

  /** What happens next: the proxy hears of the descriptor, or is told to deliver, or to cut a node off; or all bytes
      that are still on their way come. */
  datatype Turn =
    | Hear(writes: seq<bool>)
    | DeliverFrom(channel: Channel, writeOk: bool)
    | Cut(node: Addr)
    | ArriveAll
  {
    /** It tags no connection. */
    predicate Calm() { !Cut? && (DeliverFrom? ==> writeOk) }

    /** Every direct write of it succeeds. */
    predicate WritesOk() { Hear? ==> false !in writes }
  }

  /** The proxy, the socket, how the last call ended, and the bodies read so far.  Only a call that ends waiting is
      followed by others. */
  datatype World = World(v: View, s: Sock, outcome: Reception, got: seq<Bytes>) {
    ghost predicate Valid() { s.Valid() }
  }

  function TakeTurn(w: World, fd: int, turn: Turn): (x: World)
    requires w.Valid()
    ensures x.Valid()
  {
    if w.outcome != Waiting then w
    else
      match turn
      case Hear(writes) =>
        var c := Receiving.DoReceive(w.v, fd, w.s, writes);
        World(c.v, c.s, c.outcome, w.got + c.bodies)
      case DeliverFrom(channel, writeOk) => w.(v := Deliver(w.v, channel, writeOk).0)
      case Cut(node) => w.(v := Partition(w.v, node))
      case ArriveAll => w.(s := w.s.(arrived := |w.s.unread|))
  }

  function TakeTurns(w: World, fd: int, turns: seq<Turn>): (x: World)
    requires w.Valid()
    ensures x.Valid()
  {
    if turns == [] then w else TakeTurn(TakeTurns(w, fd, turns[..|turns| - 1]), fd, turns[|turns| - 1])
  }

  /** A call is made whose first peek sees one to three bytes. */
  predicate PeeksShort(w: World, turn: Turn)
    requires w.Valid()
  {
    w.outcome == Waiting && turn.Hear? && ShortPeek(w.s)
  }

  ghost predicate NoShortPeek(w: World, fd: int, turns: seq<Turn>)
    requires w.Valid()
  {
    forall i :: 0 <= i < |turns| ==> !PeeksShort(TakeTurns(w, fd, turns[..i]), turns[i])
  }

  ghost predicate AllWritesOk(turns: seq<Turn>) {
    forall t :: t in turns ==> t.WritesOk()
  }

  ghost predicate AllCalm(turns: seq<Turn>) {
    forall t :: t in turns ==> t.Calm()
  }

  // ---- What holds between two turns

  ghost predicate Sound(v: View) {
    Inv(v) && WrittenCameIn(v)
  }

  /** From v to w, these bodies came in on the descriptor for its peer. */
  ghost predicate Accounted(v: View, w: View, fd: int, bodies: seq<Bytes>)
    requires fd in v.table
  {
    var peer := v.table[fd].peerFd;
    && w.isDirect == v.isDirect && w.fds.Keys == v.fds.Keys
    && peer in v.received && peer in w.received && w.received[peer] == v.received[peer] + bodies
  }

  /** The connection of the descriptor is still there. */
  ghost predicate StillOpen(v: View, w: View, fd: int)
    requires fd in v.table
  {
    && fd in w.table && fd !in w.unintercepted
    && w.table[fd].peerFd == v.table[fd].peerFd && w.fds == v.fds
  }

  lemma AccountedTrans(v: View, u: View, w: View, fd: int, a: seq<Bytes>, b: seq<Bytes>)
    requires fd in v.table && Accounted(v, u, fd, a) && StillOpen(v, u, fd) && Accounted(u, w, fd, b)
    ensures Accounted(v, w, fd, a + b)
    ensures StillOpen(u, w, fd) ==> StillOpen(v, w, fd)
  {
    Append3(v.received[v.table[fd].peerFd], a, b);
  }

  lemma PeerKnown(v: View, fd: int)
    requires Inv(v) && fd in v.table
    ensures v.table[fd].peerFd in v.received
    ensures v.received[v.table[fd].peerFd] + [] == v.received[v.table[fd].peerFd]
  {
  }

  /** The end was written all that came in for it. */
  ghost predicate Settled(v: View, c: Cell) {
    c in v.received && c in v.written && v.written[c] == v.received[c]
  }

  lemma DirectSettles(v: View, c: Cell)
    requires Inv(v) && v.isDirect && Untagged(v, c)
    ensures Settled(v, c)
  {
    assert c in v.fds && ConservedAt(v, [], c);
    assert QueueTo(v, c) == [] && Pending([], c) == [];
    assert v.written[c] + [] == v.written[c];
  }

  // ---- One turn

  lemma DeliverTurn(v: View, fd: int, channel: Channel, writeOk: bool)
    requires Sound(v) && fd in v.table && fd !in v.unintercepted
    ensures var w := Deliver(v, channel, writeOk).0;
            && Sound(w) && Accounted(v, w, fd, []) && StillOpen(v, w, fd)
            && (writeOk ==> w.table == v.table)
  {
    DeliverKeepsInv(v, channel, writeOk);
    DeliverCameIn(v, channel, writeOk);
    DeliverOnlyTags(v, channel, writeOk);
    PeerKnown(v, fd);
  }

  lemma CutSpares(v: View, fd: int, node: Addr)
    requires fd in v.table && fd !in v.unintercepted
    ensures StillOpen(v, Partition(v, node), fd)
    ensures Partition(v, node) == v.(table := Partition(v, node).table)
  {
  }

  lemma CameInSame(v: View, w: View)
    requires WrittenCameIn(v) && w.received == v.received && w.written == v.written && w.fds.Keys == v.fds.Keys
    ensures WrittenCameIn(w)
  {
  }

  lemma CutTurn(v: View, fd: int, node: Addr)
    requires Sound(v) && fd in v.table && fd !in v.unintercepted
    ensures var w := Partition(v, node); Sound(w) && Accounted(v, w, fd, []) && StillOpen(v, w, fd)
  {
    PeerKnown(v, fd);
    PartitionKeepsInv(v, node);
    CutSpares(v, fd, node);
    CameInSame(v, Partition(v, node));
  }

  lemma BodiesIn(v: View, fd: int, bodies: seq<Bytes>, writes: seq<bool>)
    requires Sound(v) && fd in v.table && fd !in v.unintercepted && AllTakenUp(v, fd, bodies, writes)
    ensures var w := EnqueueAll(v, fd, bodies, writes);
            && Sound(w) && Accounted(v, w, fd, bodies)
            && (if fd in w.table then StillOpen(v, w, fd) && w.table == v.table else v.isDirect && false in writes)
  {
    EnqueueAllKeepsInv(v, fd, bodies, writes);
    EnqueueAllTakesIn(v, fd, bodies, writes);
    EnqueueAllCameIn(v, fd, bodies, writes);
  }

  lemma EndSpares(w: View, fd: int, outcome: Reception)
    requires Linked(w)
    ensures var x := AfterReception(w, fd, outcome);
            && x.received == w.received && x.written == w.written
            && x.fds.Keys == w.fds.Keys && x.isDirect == w.isDirect
  {
    if outcome == ClosedDown && fd in w.table {
      CloseIsClosed(w, fd);
    }
  }

  lemma HearTurn(v: View, fd: int, s: Sock, writes: seq<bool>)
    requires Sound(v) && fd in v.table && fd !in v.unintercepted && s.Valid()
    ensures var c := Receiving.DoReceive(v, fd, s, writes);
            && Sound(c.v) && Accounted(v, c.v, fd, c.bodies)
            && (c.outcome == Waiting ==> StillOpen(v, c.v, fd) && c.v.table == v.table)
            && (c.outcome == FrameRead ==> v.isDirect && false in writes)
            && (v.isDirect && Untagged(v, v.table[fd].peerFd) && c.outcome != FrameRead ==>
                 Settled(c.v, v.table[fd].peerFd))
  {
    var c := ReadFrames(v, fd, s, NO_HEADER, writes);
    ReadFramesEnqueue(v, fd, s, NO_HEADER, writes);
    BodiesIn(v, fd, c.bodies, writes);
    ReceiveKeepsInv(v, fd, s, writes);
    EndSpares(c.v, fd, c.outcome);
    CameInSame(c.v, AfterReception(c.v, fd, c.outcome));
    if v.isDirect && Untagged(v, v.table[fd].peerFd) && c.outcome != FrameRead {
      DirectSettles(c.v, v.table[fd].peerFd);
    }
  }

  lemma UntaggedEnd(v: View, fd: int)
    requires Inv(v) && fd in v.table && Untagged(v, v.table[fd].peerFd)
    ensures !v.table[fd].disconnected
  {
    QueueToPeer(v, fd);
  }

  lemma QueuedBodiesUnwritten(v: View, fd: int, bodies: seq<Bytes>, writes: seq<bool>)
    requires Inv(v) && !v.isDirect && fd in v.table && Untagged(v, v.table[fd].peerFd)
    ensures EnqueueAll(v, fd, bodies, writes).written == v.written
  {
    var peer := v.table[fd].peerFd;
    UntaggedEnd(v, fd);
    BodiesArrive(v, fd, bodies, writes);
    assert v.written[peer] + [] == v.written[peer];
  }

  /** A call that closes a connection in queued mode, as the end of the stream does, loses what is queued for the peer:
      the peer was written all that came in exactly if nothing was queued for it and the call read nothing. */
  lemma CloseLosesExactly(v: View, fd: int, s: Sock, writes: seq<bool>)
    requires Sound(v) && !v.isDirect && fd in v.table && fd !in v.unintercepted && s.Valid()
    requires Untagged(v, v.table[fd].peerFd)
    requires Receiving.DoReceive(v, fd, s, writes).outcome == ClosedDown
    ensures var c, peer := Receiving.DoReceive(v, fd, s, writes), v.table[fd].peerFd;
            && FdOf(c.v, peer) == -1
            && (Settled(c.v, peer) <==> Pending(QueueTo(v, peer), peer) == [] && c.bodies == [])
  {
    var c, peer := ReadFrames(v, fd, s, NO_HEADER, writes), v.table[fd].peerFd;
    HearTurn(v, fd, s, writes);
    ReadFramesEnqueue(v, fd, s, NO_HEADER, writes);
    BodiesIn(v, fd, c.bodies, writes);
    QueuedBodiesUnwritten(v, fd, c.bodies, writes);
    CloseIsClosed(c.v, fd);
    QueueToPeer(c.v, fd);
    ClosedAccount(v, v.written[peer], c.bodies, peer);
  }

  lemma ClosedAccount(v: View, written: seq<Bytes>, bodies: seq<Bytes>, peer: Cell)
    requires Inv(v) && Untagged(v, peer) && peer in v.written && written == v.written[peer]
    ensures peer in v.received
    ensures written == v.received[peer] + bodies <==> Pending(QueueTo(v, peer), peer) == [] && bodies == []
  {
    assert peer in v.fds && ConservedAt(v, [], peer);
    assert Pending([], peer) == [] && written + [] == written;
    var pending := Pending(QueueTo(v, peer), peer);
    assert |v.received[peer] + bodies| == |written| + |pending| + |bodies|;
  }

  lemma QueueToPeer(v: View, fd: int)
    requires Linked(v) && fd in v.table
    ensures var peer := v.table[fd].peerFd;
            && FdOf(v, peer) in v.table && FdOf(v, peer) == Peer(v, fd)
            && v.table[FdOf(v, peer)].channel.Swap() == v.table[fd].channel
            && QueueTo(v, peer) == QueueOf(v.queues, v.table[fd].channel)
  {
    PeersMatch(v, fd, fd);
  }

  // ---- A course of turns

  /** The bodies read so far are the first buffers and have come in, the rest of the stream is the frames of the others,
      and if no more is read there is a reason. */
  ghost predicate Course(start: World, w: World, fd: int, bufs: seq<Bytes>)
    requires fd in start.v.table
  {
    && Sound(w.v) && Accounted(start.v, w.v, fd, w.got) && OnStream(start, w, bufs)
    && (w.outcome == Waiting ==> StillOpen(start.v, w.v, fd))
  }

  ghost predicate OnStream(start: World, w: World, bufs: seq<Bytes>) {
    && w.Valid() && w.s.ended == start.s.ended && (true in w.s.late ==> true in start.s.late)
    && |w.got| <= |bufs| && w.got == bufs[..|w.got|]
    && match w.outcome
       case Waiting => w.s.unread == Frames(bufs[|w.got|..])
       case NotFramed => w.got != bufs
       case ClosedDown => (w.got == bufs && w.s.ended) || true in start.s.late
       case FrameRead => true
       case UnknownDescriptor => false
  }

  lemma OnStreamNext(start: World, w: World, x: World, bufs: seq<Bytes>, bodies: seq<Bytes>)
    requires OnStream(start, w, bufs) && w.outcome == Waiting && x.Valid() && x.got == w.got + bodies
    requires x.s.ended == w.s.ended && (true in x.s.late ==> true in w.s.late)
    requires var left := bufs[|w.got|..];
             && |bodies| <= |left| && bodies == left[..|bodies|]
             && (x.outcome == NotFramed ==> bodies == [] && left != [])
             && (x.outcome == ClosedDown ==> (bodies == left && w.s.ended) || true in w.s.late)
             && (x.outcome != ClosedDown ==> x.s.unread == Frames(left[|bodies|..]))
             && x.outcome != UnknownDescriptor
    ensures OnStream(start, x, bufs)
    ensures bodies == bufs[|w.got|..] ==> x.got == bufs
  {
    assert bufs[|w.got|..][|bodies|..] == bufs[|x.got|..];
    assert x.got == bufs[..|x.got|];
  }

  lemma ShortSuffix(bufs: seq<Bytes>, n: nat)
    requires AllShort(bufs) && n <= |bufs|
    ensures AllShort(bufs[n..])
  {
  }

  lemma HearKeeps(start: World, w: World, fd: int, bufs: seq<Bytes>, writes: seq<bool>)
    requires fd in start.v.table && Course(start, w, fd, bufs) && w.outcome == Waiting && AllShort(bufs)
    ensures var x := TakeTurn(w, fd, Hear(writes));
            && Course(start, x, fd, bufs)
            && (x.outcome == NotFramed <==> ShortPeek(w.s))
            && (x.outcome == FrameRead ==> start.v.isDirect && false in writes)
            && (x.outcome == Waiting && w.s.arrived == |w.s.unread| ==> x.got == bufs)
  {
    var c, left := Receiving.DoReceive(w.v, fd, w.s, writes), bufs[|w.got|..];
    ShortSuffix(bufs, |w.got|);
    FramedCall(w.v, fd, w.s, writes, left);
    HearTurn(w.v, fd, w.s, writes);
    OnStreamNext(start, w, TakeTurn(w, fd, Hear(writes)), bufs, c.bodies);
    AccountedTrans(start.v, w.v, c.v, fd, w.got, c.bodies);
  }

  lemma MoveKeeps(start: World, w: World, fd: int, bufs: seq<Bytes>, turn: Turn)
    requires fd in start.v.table && Course(start, w, fd, bufs) && w.outcome == Waiting && !turn.Hear?
    ensures Course(start, TakeTurn(w, fd, turn), fd, bufs) && TakeTurn(w, fd, turn).outcome == Waiting
  {
    assert w.got + [] == w.got;
    match turn
    case DeliverFrom(channel, writeOk) =>
      DeliverTurn(w.v, fd, channel, writeOk);
      AccountedTrans(start.v, w.v, Deliver(w.v, channel, writeOk).0, fd, w.got, []);
    case Cut(node) =>
      CutTurn(w.v, fd, node);
      AccountedTrans(start.v, w.v, Partition(w.v, node), fd, w.got, []);
    case ArriveAll =>
  }

  lemma TurnKeeps(start: World, w: World, fd: int, bufs: seq<Bytes>, turn: Turn)
    requires fd in start.v.table && Course(start, w, fd, bufs) && AllShort(bufs)
    ensures var x := TakeTurn(w, fd, turn);
            && Course(start, x, fd, bufs)
            && (x.outcome == NotFramed <==> w.outcome == NotFramed || PeeksShort(w, turn))
            && (x.outcome == FrameRead ==> w.outcome == FrameRead || (start.v.isDirect && !turn.WritesOk()))
  {
    if w.outcome == Waiting {
      if turn.Hear? {
        HearKeeps(start, w, fd, bufs, turn.writes);
      } else {
        MoveKeeps(start, w, fd, bufs, turn);
      }
    }
  }

  lemma NoShortPeekSnoc(w: World, fd: int, turns: seq<Turn>)
    requires w.Valid() && turns != []
    ensures var init, last := turns[..|turns| - 1], turns[|turns| - 1];
            NoShortPeek(w, fd, turns) <==> NoShortPeek(w, fd, init) && !PeeksShort(TakeTurns(w, fd, init), last)
  {
    var init, last := turns[..|turns| - 1], turns[|turns| - 1];
    if NoShortPeek(w, fd, turns) {
      forall i | 0 <= i < |init| ensures !PeeksShort(TakeTurns(w, fd, init[..i]), init[i]) {
        assert init[..i] == turns[..i];
      }
      assert !PeeksShort(TakeTurns(w, fd, turns[..|turns| - 1]), turns[|turns| - 1]);
    }
    if NoShortPeek(w, fd, init) && !PeeksShort(TakeTurns(w, fd, init), last) {
      forall i | 0 <= i < |turns| ensures !PeeksShort(TakeTurns(w, fd, turns[..i]), turns[i]) {
        if i < |init| {
          assert init[..i] == turns[..i];
        }
      }
    }
  }

  /** A world in which nothing has been read yet. */
  ghost predicate Ready(start: World, fd: int, bufs: seq<Bytes>) {
    && Sound(start.v) && fd in start.v.table && fd !in start.v.unintercepted
    && start.Valid() && start.s.unread == Frames(bufs) && AllShort(bufs)
    && start.outcome == Waiting && start.got == []
  }

  /** In every course the buffers read are the first ones, in order.  It gives up on the framing exactly if some call's
      first peek sees one to three bytes; it breaks off on a failed write only in direct mode; and it closes only at the
      end of all frames or when a wait runs out of time. */
  lemma {:induction false} CourseHolds(start: World, fd: int, turns: seq<Turn>, bufs: seq<Bytes>)
    requires Ready(start, fd, bufs)
    ensures var w := TakeTurns(start, fd, turns);
            && Course(start, w, fd, bufs)
            && (w.outcome == NotFramed <==> !NoShortPeek(start, fd, turns))
            && (w.outcome == FrameRead ==> start.v.isDirect && !AllWritesOk(turns))
  {
    if turns == [] {
      PeerKnown(start.v, fd);
    } else {
      var init, last := turns[..|turns| - 1], turns[|turns| - 1];
      CourseHolds(start, fd, init, bufs);
      TurnKeeps(start, TakeTurns(start, fd, init), fd, bufs, last);
      NoShortPeekSnoc(start, fd, turns);
      assert last in turns;
    }
  }

  lemma LastTurn(w: World, fd: int, turns: seq<Turn>, turn: Turn)
    requires w.Valid()
    ensures TakeTurns(w, fd, turns + [turn]) == TakeTurn(TakeTurns(w, fd, turns), fd, turn)
  {
    assert (turns + [turn])[..|turns|] == turns;
  }

  /** The turns, and then everything comes and is heard of. */
  function ToTheEnd(turns: seq<Turn>, writes: seq<bool>): seq<Turn> {
    turns + [ArriveAll] + [Hear(writes)]
  }

  lemma AllOrShort(start: World, x: World, bufs: seq<Bytes>)
    requires OnStream(start, x, bufs) && true !in start.s.late && x.outcome != FrameRead
    requires x.outcome == Waiting ==> x.got == bufs
    ensures x.got == bufs <==> x.outcome != NotFramed
  {
  }

  lemma HearTheEnd(start: World, w: World, fd: int, bufs: seq<Bytes>, writes: seq<bool>)
    requires fd in start.v.table && Course(start, w, fd, bufs) && AllShort(bufs)
    requires true !in start.s.late && false !in writes && w.outcome != FrameRead
    requires w.outcome == Waiting ==> w.s.arrived == |w.s.unread|
    ensures var x := TakeTurn(w, fd, Hear(writes)); x.got == bufs <==> x.outcome != NotFramed
  {
    if w.outcome == Waiting {
      HearKeeps(start, w, fd, bufs, writes);
    }
    AllOrShort(start, TakeTurn(w, fd, Hear(writes)), bufs);
  }

  lemma AllArrived(w: World, fd: int)
    requires w.Valid()
    ensures var x := TakeTurn(w, fd, ArriveAll);
            x.outcome == w.outcome && (x.outcome == Waiting ==> x.s.arrived == |x.s.unread|)
  {
  }

  lemma TheEnd(start: World, fd: int, turns: seq<Turn>, writes: seq<bool>)
    requires start.Valid()
    ensures TakeTurns(start, fd, ToTheEnd(turns, writes)) ==
            TakeTurn(TakeTurn(TakeTurns(start, fd, turns), fd, ArriveAll), fd, Hear(writes))
  {
    LastTurn(start, fd, turns, ArriveAll);
    LastTurn(start, fd, turns + [ArriveAll], Hear(writes));
  }

  /** Framing is transparent: with waits and writes that succeed, all buffers come through if and only if no call's
      first peek sees one to three bytes, whatever the arrivals, deliveries and cuts. */
  lemma TransparentExactly(start: World, fd: int, turns: seq<Turn>, writes: seq<bool>, bufs: seq<Bytes>)
    requires Ready(start, fd, bufs) && true !in start.s.late && AllWritesOk(turns) && false !in writes
    ensures TakeTurns(start, fd, ToTheEnd(turns, writes)).got == bufs
            <==> NoShortPeek(start, fd, ToTheEnd(turns, writes))
  {
    var u := TakeTurns(start, fd, turns);
    CourseHolds(start, fd, turns, bufs);
    CourseHolds(start, fd, ToTheEnd(turns, writes), bufs);
    TheEnd(start, fd, turns, writes);
    TurnKeeps(start, u, fd, bufs, ArriveAll);
    AllArrived(u, fd);
    HearTheEnd(start, TakeTurn(u, fd, ArriveAll), fd, bufs, writes);
  }

  // ---- What the other side gets

  /** What was written to the peer is the beginning of what came in; while the connection is not tagged it is all of it,
      but for what is still queued, and with enough delivers from its channel simply all of it. */
  lemma Written(v: View, w: View, fd: int, got: seq<Bytes>, n: nat)
    requires fd in v.table && Sound(w) && Accounted(v, w, fd, got)
    ensures var peer := v.table[fd].peerFd;
            && peer in v.received && peer in w.fds && peer in w.written
            && w.written[peer] <= v.received[peer] + got
            && (Untagged(w, peer) ==>
                 w.written[peer] + Pending(QueueTo(w, peer), peer) == v.received[peer] + got)
            && (Untagged(w, peer) && |QueueTo(w, peer)| <= n ==>
                 var x := Drain(w, w.table[FdOf(w, peer)].channel.Swap(), n);
                 peer in x.written && x.written[peer] == v.received[peer] + got)
  {
    var peer := v.table[fd].peerFd;
    assert ConservedAt(w, [], peer);
    if Untagged(w, peer) {
      assert Pending([], peer) == [];
      assert w.written[peer] + [] == w.written[peer];
      if |QueueTo(w, peer)| <= n {
        DrainWritesAll(w, peer, n);
      }
    }
  }

  /** A course without cuts and failing delivers, on a connection not tagged before: it is not tagged while the receiver
      waits, and in direct mode its peer is written all that has come in, unless a write fails. */
  ghost predicate CalmSoFar(start: World, w: World, fd: int)
    requires fd in start.v.table
  {
    && (w.outcome == Waiting ==> w.v.table == start.v.table)
    && (start.v.isDirect && w.outcome != FrameRead ==> Settled(w.v, start.v.table[fd].peerFd))
  }

  lemma StaysUntagged(v: View, w: View, fd: int)
    requires fd in v.table && StillOpen(v, w, fd) && w.table == v.table && Untagged(v, v.table[fd].peerFd)
    ensures Untagged(w, v.table[fd].peerFd)
  {
  }

  lemma CalmTurn(start: World, w: World, fd: int, bufs: seq<Bytes>, turn: Turn)
    requires fd in start.v.table && Untagged(start.v, start.v.table[fd].peerFd)
    requires Course(start, w, fd, bufs) && CalmSoFar(start, w, fd) && turn.Calm()
    ensures CalmSoFar(start, TakeTurn(w, fd, turn), fd)
  {
    if w.outcome == Waiting {
      StaysUntagged(start.v, w.v, fd);
      match turn
      case Hear(writes) => HearTurn(w.v, fd, w.s, writes);
      case DeliverFrom(channel, _) =>
        DeliverTurn(w.v, fd, channel, true);
        CalmDeliver(start.v, w.v, fd, channel);
      case ArriveAll =>
    }
  }

  lemma CalmDeliver(v: View, w: View, fd: int, channel: Channel)
    requires fd in v.table && fd in w.table && w.table[fd].peerFd == v.table[fd].peerFd
    requires Sound(w) && Untagged(w, v.table[fd].peerFd) && fd !in w.unintercepted && w.isDirect == v.isDirect
    ensures v.isDirect ==> Settled(Deliver(w, channel, true).0, v.table[fd].peerFd)
  {
    DeliverTurn(w, fd, channel, true);
    if v.isDirect {
      DirectSettles(Deliver(w, channel, true).0, v.table[fd].peerFd);
    }
  }

  lemma {:induction false} CalmCourse(start: World, fd: int, turns: seq<Turn>, bufs: seq<Bytes>)
    requires Ready(start, fd, bufs) && Untagged(start.v, start.v.table[fd].peerFd) && AllCalm(turns)
    ensures CalmSoFar(start, TakeTurns(start, fd, turns), fd)
  {
    if turns == [] {
      if start.v.isDirect {
        DirectSettles(start.v, start.v.table[fd].peerFd);
      }
    } else {
      var init, last := turns[..|turns| - 1], turns[|turns| - 1];
      CalmCourse(start, fd, init, bufs);
      CourseHolds(start, fd, init, bufs);
      assert last in turns;
      CalmTurn(start, TakeTurns(start, fd, init), fd, bufs, last);
    }
  }

  // ---- From end to end

  /** The proxy after the course, and, if the receiver waits for more, after the queue was delivered. */
  function Delivered(w: World, fd: int): View {
    if w.outcome == Waiting && fd in w.v.table
    then Drain(w.v, w.v.table[fd].channel, |QueueOf(w.v.queues, w.v.table[fd].channel)|)
    else w.v
  }

  /** What the peer is written in the end is the beginning of what was read ... */
  lemma DeliveredIsRead(start: World, w: World, fd: int, bufs: seq<Bytes>)
    requires Ready(start, fd, bufs) && Course(start, w, fd, bufs)
    requires start.v.received[start.v.table[fd].peerFd] == []
    ensures var x, peer := Delivered(w, fd), start.v.table[fd].peerFd;
            peer in x.written && x.written[peer] <= w.got
  {
    var peer := start.v.table[fd].peerFd;
    Written(start.v, w.v, fd, w.got, 0);
    assert [] + w.got == w.got;
    if w.outcome == Waiting {
      var n := |QueueOf(w.v.queues, w.v.table[fd].channel)|;
      DrainEmpties(w.v, w.v.table[fd].channel, n);
      DrainCameIn(w.v, w.v.table[fd].channel, n);
    }
  }

  /** ... and all of it in direct mode, or if the receiver still waits. */
  lemma DeliveredIsAll(start: World, w: World, fd: int, bufs: seq<Bytes>)
    requires Ready(start, fd, bufs) && Course(start, w, fd, bufs) && CalmSoFar(start, w, fd)
    requires start.v.received[start.v.table[fd].peerFd] == [] && Untagged(start.v, start.v.table[fd].peerFd)
    requires w.outcome != FrameRead && (start.v.isDirect || w.outcome == Waiting)
    ensures var x, peer := Delivered(w, fd), start.v.table[fd].peerFd;
            peer in x.written && x.written[peer] == w.got
  {
    var peer := start.v.table[fd].peerFd;
    assert [] + w.got == w.got;
    if w.outcome == Waiting {
      StaysUntagged(start.v, w.v, fd);
      QueueToPeer(w.v, fd);
      Written(start.v, w.v, fd, w.got, |QueueTo(w.v, peer)|);
    }
  }

  lemma AllDelivered(start: World, w: World, fd: int, bufs: seq<Bytes>)
    requires Ready(start, fd, bufs) && Course(start, w, fd, bufs) && CalmSoFar(start, w, fd)
    requires start.v.received[start.v.table[fd].peerFd] == [] && Untagged(start.v, start.v.table[fd].peerFd)
    requires w.outcome != FrameRead && (w.outcome == ClosedDown ==> start.v.isDirect)
    requires w.got == bufs <==> w.outcome != NotFramed
    ensures var x, peer := Delivered(w, fd), start.v.table[fd].peerFd;
            peer in x.written && (x.written[peer] == bufs <==> w.outcome != NotFramed)
  {
    DeliveredIsRead(start, w, fd, bufs);
    if w.outcome != NotFramed {
      DeliveredIsAll(start, w, fd, bufs);
    }
  }

  lemma EndIsCalm(turns: seq<Turn>, writes: seq<bool>)
    requires AllWritesOk(turns) && false !in writes && AllCalm(turns)
    ensures AllWritesOk(ToTheEnd(turns, writes)) && AllCalm(ToTheEnd(turns, writes))
  {
  }

  /** From end to end, on a new connection that nothing cuts: with waits and writes that succeed, the peer is written
      all buffers if and only if no call's first peek sees one to three bytes.  (In queued mode this is for streams that
      do not end: an end closes the connection, and CloseLosesExactly says what is lost with its queue.) */
  lemma EndToEndExactly(start: World, fd: int, turns: seq<Turn>, writes: seq<bool>, bufs: seq<Bytes>)
    requires Ready(start, fd, bufs) && true !in start.s.late && AllWritesOk(turns) && false !in writes
    requires start.v.received[start.v.table[fd].peerFd] == [] && Untagged(start.v, start.v.table[fd].peerFd)
    requires AllCalm(turns) && (start.v.isDirect || !start.s.ended)
    ensures var x, peer := Delivered(TakeTurns(start, fd, ToTheEnd(turns, writes)), fd), start.v.table[fd].peerFd;
            && peer in x.written
            && (x.written[peer] == bufs <==> NoShortPeek(start, fd, ToTheEnd(turns, writes)))
  {
    TransparentExactly(start, fd, turns, writes, bufs);
    EndIsCalm(turns, writes);
    CourseHolds(start, fd, ToTheEnd(turns, writes), bufs);
    CalmCourse(start, fd, ToTheEnd(turns, writes), bufs);
    AllDelivered(start, TakeTurns(start, fd, ToTheEnd(turns, writes)), fd, bufs);
  }

  // ---- The same on the objects

  /** One turn of the proxy, which has been waiting. */
  method PlayTurn(proxy: TcpNetwork, fd: int, socket: Socket, turn: Turn, got: seq<Bytes>)
    returns (outcome: Reception, more: seq<Bytes>)
    requires Inv(proxy.State()) && socket.Valid()
    modifies proxy, proxy.cells, socket
    ensures proxy.cells == old(proxy.cells) && Inv(proxy.State()) && socket.Valid()
    ensures World(proxy.State(), socket.State(), outcome, more) ==
            TakeTurn(World(old(proxy.State()), old(socket.State()), Waiting, got), fd, turn)
  {
    ghost var v := proxy.State();
    outcome, more := Waiting, got;
    match turn
    case Hear(writes) =>
      var bodies;
      outcome, bodies := proxy.DoReceive(fd, socket, writes);
      more := got + bodies;
    case DeliverFrom(channel, writeOk) =>
      DeliverKeepsInv(v, channel, writeOk);
      var delivery := proxy.DeliverMsg(channel, writeOk);
    case Cut(node) =>
      PartitionKeepsInv(v, node);
      proxy.Partition(node);
    case ArriveAll => socket.ArriveAll();
  }

  /** The turns, up to the first call that does not end waiting. */
  method Play(proxy: TcpNetwork, fd: int, socket: Socket, turns: seq<Turn>)
    returns (outcome: Reception, got: seq<Bytes>)
    requires Inv(proxy.State()) && socket.Valid()
    modifies proxy, proxy.cells, socket
    ensures proxy.cells == old(proxy.cells) && Inv(proxy.State()) && socket.Valid()
    ensures World(proxy.State(), socket.State(), outcome, got) ==
            TakeTurns(World(old(proxy.State()), old(socket.State()), Waiting, []), fd, turns)
  {
    ghost var start := World(proxy.State(), socket.State(), Waiting, []);
    outcome, got := Waiting, [];
    for i := 0 to |turns|
      invariant proxy.cells == old(proxy.cells) && Inv(proxy.State()) && socket.Valid()
      invariant World(proxy.State(), socket.State(), outcome, got) == TakeTurns(start, fd, turns[..i])
    {
      NextTurn(start, fd, turns, i);
      if outcome == Waiting {
        outcome, got := PlayTurn(proxy, fd, socket, turns[i], got);
      }
    }
    assert turns[..|turns|] == turns;
  }

  lemma NextTurn(w: World, fd: int, turns: seq<Turn>, i: nat)
    requires w.Valid() && i < |turns|
    ensures TakeTurns(w, fd, turns[..i + 1]) == TakeTurn(TakeTurns(w, fd, turns[..i]), fd, turns[i])
  {
    assert turns[..i + 1][..i] == turns[..i];
  }

  /** Delivers, with success, until the queue is empty. */
  method DeliverAll(proxy: TcpNetwork, channel: Channel)
    requires Inv(proxy.State())
    modifies proxy, proxy.cells
    ensures proxy.cells == old(proxy.cells)
    ensures proxy.State() == Drain(old(proxy.State()), channel, |QueueOf(old(proxy.queues), channel)|)
  {
    ghost var v := proxy.State();
    var n: nat := |QueueOf(proxy.queues, channel)|;
    while n > 0
      invariant proxy.cells == old(proxy.cells) && Inv(proxy.State())
      invariant Drain(v, channel, |QueueOf(v.queues, channel)|) == Drain(proxy.State(), channel, n)
    {
      DeliverOne(proxy, channel);
      n := n - 1;
    }
  }

  method DeliverOne(proxy: TcpNetwork, channel: Channel)
    requires Inv(proxy.State())
    modifies proxy, proxy.cells
    ensures proxy.cells == old(proxy.cells) && Inv(proxy.State())
    ensures proxy.State() == Deliver(old(proxy.State()), channel, true).0
  {
    DeliverKeepsInv(proxy.State(), channel, true);
    var delivery := proxy.DeliverMsg(channel, true);
  }

  /** Sends the buffers, one sendto each. */
  method SendEach(sender: Sender, bufs: seq<Bytes>)
    modifies sender
    ensures sender.stream == old(sender.stream) + Frames(bufs)
  {
    for i := 0 to |bufs|
      invariant sender.stream == old(sender.stream) + Frames(bufs[..i])
    {
      var sent := sender.Sendto(bufs[i], true, true, true, false, false);
      FramesConcat(bufs[..i], [bufs[i]]);
      assert [bufs[i]][1..] == [] && Frames([bufs[i]]) == Frame(bufs[i]);
      assert bufs[..i + 1] == bufs[..i] + [bufs[i]];
    }
    assert bufs[..|bufs|] == bufs;
  }

  /** A proxy with one connection, over which nothing has come yet. */
  method NewConnection(isDirect: bool, srcFd: int, dstFd: int, src: Addr, dst: Addr)
    returns (proxy: TcpNetwork, self: Cell, peer: Cell)
    requires 0 <= srcFd && 0 <= dstFd && srcFd != dstFd
    ensures fresh(proxy) && fresh(proxy.cells)
    ensures proxy.State() == Open(InitView(isDirect), srcFd, dstFd, self, peer, src, dst)
    ensures self != peer
  {
    proxy := new TcpNetwork(isDirect);
    proxy.AddFdToChannel(srcFd, dstFd, src, dst);
    self, peer := proxy.table[srcFd].selfFd, proxy.table[dstFd].selfFd;
  }

  /** Where a course from the sender's buffers starts: the frames are on their way over a new connection. */
  function Start(
      isDirect: bool, srcFd: int, dstFd: int, self: Cell, peer: Cell, src: Addr, dst: Addr,
      bufs: seq<Bytes>, coming: seq<nat>, late: seq<bool>, ended: bool): World
  {
    World(
      Open(InitView(isDirect), srcFd, dstFd, self, peer, src, dst),
      Sock(Frames(bufs), 0, coming, late, ended), Waiting, [])
  }

  lemma StartReady(
      isDirect: bool, srcFd: int, dstFd: int, self: Cell, peer: Cell, src: Addr, dst: Addr,
      bufs: seq<Bytes>, coming: seq<nat>, late: seq<bool>, ended: bool)
    requires 0 <= srcFd && 0 <= dstFd && srcFd != dstFd && self != peer && AllShort(bufs)
    ensures var w := Start(isDirect, srcFd, dstFd, self, peer, src, dst, bufs, coming, late, ended);
            && Ready(w, srcFd, bufs) && w.v.table[srcFd].peerFd == peer && Untagged(w.v, peer)
            && w.v.received[peer] == []
  {
    OpenKeepsInv(InitView(isDirect), srcFd, dstFd, self, peer, src, dst);
  }

  /** A program sends its buffers, and a new connection through the proxy relays them while the turns are taken; then
      the rest comes and is heard of, and if the receiver still waits the queue is delivered.  Whatever happens, what
      the other program is written is the first buffers, in order. */
  method EndToEnd(
      isDirect: bool, srcFd: int, dstFd: int, src: Addr, dst: Addr,
      bufs: seq<Bytes>, coming: seq<nat>, late: seq<bool>, ended: bool, turns: seq<Turn>, writes: seq<bool>)
    returns (proxy: TcpNetwork, self: Cell, peer: Cell, outcome: Reception, got: seq<Bytes>)
    requires 0 <= srcFd && 0 <= dstFd && srcFd != dstFd && AllShort(bufs)
    ensures var start := Start(isDirect, srcFd, dstFd, self, peer, src, dst, bufs, coming, late, ended);
            var w := TakeTurns(start, srcFd, ToTheEnd(turns, writes));
            && outcome == w.outcome && got == w.got && proxy.State() == Delivered(w, srcFd)
            && got <= bufs && peer in proxy.written && proxy.written[peer] <= got
            && (true !in late && AllWritesOk(turns) && false !in writes ==>
                 && (got == bufs <==> NoShortPeek(start, srcFd, ToTheEnd(turns, writes)))
                 && (AllCalm(turns) && (isDirect || !ended) ==>
                      (proxy.written[peer] == bufs <==> NoShortPeek(start, srcFd, ToTheEnd(turns, writes)))))
  {
    var sender := new Sender();
    SendEach(sender, bufs);
    assert sender.stream == Frames(bufs);
    var socket := new Socket(sender.stream, coming, late, ended);
    proxy, self, peer := NewConnection(isDirect, srcFd, dstFd, src, dst);
    StartReady(isDirect, srcFd, dstFd, self, peer, src, dst, bufs, coming, late, ended);
    outcome, got := Play(proxy, srcFd, socket, ToTheEnd(turns, writes));
    if outcome == Waiting && srcFd in proxy.table {
      DeliverAll(proxy, proxy.table[srcFd].channel);
    }
    EndToEndHolds(
      Start(isDirect, srcFd, dstFd, self, peer, src, dst, bufs, coming, late, ended), srcFd, turns, writes, bufs);
  }

  lemma EndToEndHolds(start: World, fd: int, turns: seq<Turn>, writes: seq<bool>, bufs: seq<Bytes>)
    requires Ready(start, fd, bufs)
    requires start.v.received[start.v.table[fd].peerFd] == [] && Untagged(start.v, start.v.table[fd].peerFd)
    ensures var w, peer := TakeTurns(start, fd, ToTheEnd(turns, writes)), start.v.table[fd].peerFd;
            var x := Delivered(w, fd);
            && w.got <= bufs && peer in x.written && x.written[peer] <= w.got
            && (true !in start.s.late && AllWritesOk(turns) && false !in writes ==>
                 && (w.got == bufs <==> NoShortPeek(start, fd, ToTheEnd(turns, writes)))
                 && (AllCalm(turns) && (start.v.isDirect || !start.s.ended) ==>
                      (x.written[peer] == bufs <==> NoShortPeek(start, fd, ToTheEnd(turns, writes)))))
  {
    CourseHolds(start, fd, ToTheEnd(turns, writes), bufs);
    DeliveredIsRead(start, TakeTurns(start, fd, ToTheEnd(turns, writes)), fd, bufs);
    if true !in start.s.late && AllWritesOk(turns) && false !in writes {
      TransparentExactly(start, fd, turns, writes, bufs);
      if AllCalm(turns) && (start.v.isDirect || !start.s.ended) {
        EndToEndExactly(start, fd, turns, writes, bufs);
      }
    }
  }
}
