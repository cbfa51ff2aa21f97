/** What bodies that come in on one descriptor, one after the other, do to the proxy. */
module ProxyArrivals {
  import opened Framing
  import opened ProxyState
  import opened ProxyRuns

  // ---- Whether writes succeed is given beforehand, one flag per body; where the flags end they do.

  function NextOk(writes: seq<bool>): bool {
    writes == [] || writes[0]
  }

  function LaterOks(writes: seq<bool>): seq<bool> {
    if writes == [] then [] else writes[1..]
  }

  /** One enqueue_msg after the other; after a failed write in direct mode the descriptor is closed. */
  function EnqueueAll(v: View, fd: int, bodies: seq<Bytes>, writes: seq<bool>): View
    decreases |bodies|
  {
    if bodies == [] || fd !in v.table then v
    else EnqueueAll(Enqueue(v, fd, bodies[0], NextOk(writes)), fd, bodies[1..], LaterOks(writes))
  }

  lemma {:induction false} EnqueueAllKeepsInv(v: View, fd: int, bodies: seq<Bytes>, writes: seq<bool>)
    requires Inv(v)
    ensures Inv(EnqueueAll(v, fd, bodies, writes))
    decreases |bodies|
  {
    if bodies != [] && fd in v.table {
      EnqueueKeepsInv(v, fd, bodies[0], NextOk(writes));
      EnqueueAllKeepsInv(Enqueue(v, fd, bodies[0], NextOk(writes)), fd, bodies[1..], LaterOks(writes));
    }
  }

  lemma {:induction false} EnqueueAllCameIn(v: View, fd: int, bodies: seq<Bytes>, writes: seq<bool>)
    requires Inv(v) && WrittenCameIn(v)
    ensures WrittenCameIn(EnqueueAll(v, fd, bodies, writes))
    decreases |bodies|
  {
    if bodies != [] && fd in v.table {
      EnqueueKeepsInv(v, fd, bodies[0], NextOk(writes));
      EnqueueCameIn(v, fd, bodies[0], NextOk(writes));
      EnqueueAllCameIn(Enqueue(v, fd, bodies[0], NextOk(writes)), fd, bodies[1..], LaterOks(writes));
    }
  }

  /** The effect of bodies arriving on an untagged connection: in direct mode they are written to its peer, otherwise
      they join what its queue holds for the peer. */
  ghost predicate Arrived(v: View, w: View, fd: int, bodies: seq<Bytes>)
    requires fd in v.table
  {
    var peer, ch := v.table[fd].peerFd, v.table[fd].channel;
    && w.table == v.table && w.isDirect == v.isDirect
    && peer in v.written && peer in w.written
    && w.written == v.written[peer := v.written[peer] + if v.isDirect then bodies else []]
    && Pending(QueueOf(w.queues, ch), peer) == Pending(QueueOf(v.queues, ch), peer) + if v.isDirect then [] else bodies
  }

  lemma ArrivedNone(v: View, fd: int)
    requires fd in v.table && v.table[fd].peerFd in v.written
    ensures Arrived(v, v, fd, [])
  {
    var peer := v.table[fd].peerFd;
    assert v.written[peer] + [] == v.written[peer];
  }

  lemma WrittenTrans(v: View, u: View, w: View, peer: Cell, a: seq<Bytes>, b: seq<Bytes>)
    requires peer in v.written && peer in u.written
    requires u.written == v.written[peer := v.written[peer] + a] && w.written == u.written[peer := u.written[peer] + b]
    ensures w.written == v.written[peer := v.written[peer] + (a + b)]
  {
    Append3(v.written[peer], a, b);
  }

  lemma ArrivedTrans(v: View, u: View, w: View, fd: int, a: seq<Bytes>, b: seq<Bytes>)
    requires fd in v.table && Arrived(v, u, fd, a) && Arrived(u, w, fd, b)
    ensures Arrived(v, w, fd, a + b)
  {
    var peer := v.table[fd].peerFd;
    var q := Pending(QueueOf(v.queues, v.table[fd].channel), peer);
    if v.isDirect {
      WrittenTrans(v, u, w, peer, a, b);
      Append3(q, [], []);
    } else {
      WrittenTrans(v, u, w, peer, [], []);
      Append3(q, a, b);
    }
  }

  lemma EnqueueArrives(v: View, fd: int, body: Bytes, ok: bool)
    requires Inv(v) && fd in v.table && !v.table[fd].disconnected && (v.isDirect ==> ok)
    ensures Arrived(v, Enqueue(v, fd, body, ok), fd, [body])
  {
    var e := v.table[fd];
    var m := Msg(e.peerFd, body);
    EnqueueKeepsInv(v, fd, body, ok);
    PendingConcat(QueueOf(v.queues, e.channel), [m], e.peerFd);
    PendingOne(m, e.peerFd);
    assert v.written[e.peerFd] + [] == v.written[e.peerFd];
  }

  /** In direct mode, with every write complete, the peer of an untagged connection is written exactly the bodies that
      came in, in order; otherwise they join the end of the queue, in order. */
  lemma {:induction false} BodiesArrive(v: View, fd: int, bodies: seq<Bytes>, writes: seq<bool>)
    requires Inv(v) && fd in v.table && !v.table[fd].disconnected
    requires v.isDirect ==> false !in writes
    ensures Arrived(v, EnqueueAll(v, fd, bodies, writes), fd, bodies)
    decreases |bodies|
  {
    if bodies == [] {
      ArrivedNone(v, fd);
    } else {
      var u := Enqueue(v, fd, bodies[0], NextOk(writes));
      EnqueueKeepsInv(v, fd, bodies[0], NextOk(writes));
      EnqueueArrives(v, fd, bodies[0], NextOk(writes));
      BodiesArrive(u, fd, bodies[1..], LaterOks(writes));
      ArrivedTrans(v, u, EnqueueAll(v, fd, bodies, writes), fd, [bodies[0]], bodies[1..]);
      assert [bodies[0]] + bodies[1..] == bodies;
    }
  }

  /** Every body is taken up: the descriptor is still there when the last one comes. */
  predicate AllTakenUp(v: View, fd: int, bodies: seq<Bytes>, writes: seq<bool>)
    decreases |bodies|
  {
    bodies == [] ||
    (fd in v.table && AllTakenUp(Enqueue(v, fd, bodies[0], NextOk(writes)), fd, bodies[1..], LaterOks(writes)))
  }

  /** Bodies came in on a descriptor: they are in the account of its peer, and unless the descriptor was closed nothing
      but the accounts and the queues has changed. */
  ghost predicate TookIn(v: View, w: View, fd: int, bodies: seq<Bytes>)
    requires fd in v.table
  {
    var peer := v.table[fd].peerFd;
    && peer in v.received && w.isDirect == v.isDirect && w.fds.Keys == v.fds.Keys
    && w.received == v.received[peer := v.received[peer] + bodies]
    && (fd in w.table ==> w == v.(received := w.received, written := w.written, queues := w.queues))
  }

  lemma TookNothingIn(v: View, fd: int)
    requires fd in v.table && v.table[fd].peerFd in v.received
    ensures TookIn(v, v, fd, [])
  {
    var peer := v.table[fd].peerFd;
    assert v.received[peer] + [] == v.received[peer];
  }

  lemma TookInTrans(v: View, u: View, w: View, fd: int, a: seq<Bytes>, b: seq<Bytes>)
    requires fd in v.table && fd in u.table && TookIn(v, u, fd, a) && TookIn(u, w, fd, b)
    ensures TookIn(v, w, fd, a + b)
  {
    var peer := v.table[fd].peerFd;
    assert v.received[peer] + a + b == v.received[peer] + (a + b);
    assert w.received == v.received[peer := v.received[peer] + (a + b)];
  }

  /** In direct mode a failed write closes the connection; nothing else does. */
  lemma EnqueueTakesIn(v: View, fd: int, body: Bytes, ok: bool)
    requires Inv(v) && fd in v.table
    ensures TookIn(v, Enqueue(v, fd, body, ok), fd, [body])
    ensures fd !in Enqueue(v, fd, body, ok).table ==> v.isDirect && !ok
  {
    var m := Msg(v.table[fd].peerFd, body);
    ReceiveHolds(v, m);
    CloseView(Receive(v, m), FdOf(v, m.fd));
  }

  lemma {:induction false} EnqueueAllTakesIn(v: View, fd: int, bodies: seq<Bytes>, writes: seq<bool>)
    requires Inv(v) && fd in v.table && AllTakenUp(v, fd, bodies, writes)
    ensures TookIn(v, EnqueueAll(v, fd, bodies, writes), fd, bodies)
    ensures fd !in EnqueueAll(v, fd, bodies, writes).table ==> v.isDirect && false in writes
    decreases |bodies|
  {
    if bodies == [] {
      TookNothingIn(v, fd);
    } else {
      var u := Enqueue(v, fd, bodies[0], NextOk(writes));
      EnqueueKeepsInv(v, fd, bodies[0], NextOk(writes));
      EnqueueTakesIn(v, fd, bodies[0], NextOk(writes));
      assert [bodies[0]] + bodies[1..] == bodies;
      if fd in u.table {
        EnqueueAllTakesIn(u, fd, bodies[1..], LaterOks(writes));
        TookInTrans(v, u, EnqueueAll(v, fd, bodies, writes), fd, [bodies[0]], bodies[1..]);
      } else {
        assert bodies == [bodies[0]];
      }
    }
  }

  /** Only tags, queues and what was written may differ. */
  ghost predicate OnlyTags(v: View, w: View) {
    && w == v.(table := w.table, written := w.written, queues := w.queues)
    && w.table.Keys == v.table.Keys
    && forall f :: f in v.table ==> w.table[f] == v.table[f].(disconnected := w.table[f].disconnected)
  }

  lemma DispatchOnlyTags(v: View, m: Msg, writeOk: bool)
    requires Wired(v) && !v.isDirect
    ensures OnlyTags(v, Dispatch(v, m, writeOk).0)
    ensures writeOk ==> Dispatch(v, m, writeOk).0.table == v.table
  {
    if FdOf(v, m.fd) in v.table {
      TagTable(v, FdOf(v, m.fd));
    }
  }

  /** Delivering closes nothing: in direct mode nothing is queued, and otherwise a failed write only tags. */
  lemma DeliverOnlyTags(v: View, channel: Channel, writeOk: bool)
    requires Inv(v)
    ensures OnlyTags(v, Deliver(v, channel, writeOk).0)
    ensures writeOk ==> Deliver(v, channel, writeOk).0.table == v.table
  {
    if channel in v.queues {
      var q := v.queues[channel];
      var n := DeadFront(v, q);
      if v.isDirect {
        assert QueueOf(v.queues, channel) == [];
      } else if n < |q| {
        PopKeeps(v, channel);
        DispatchOnlyTags(v.(queues := v.queues[channel := q[n + 1..]]), q[n], writeOk);
      }
    }
  }

  // ---- Delivering everything

  /** So many delivers from the channel, each of which can write. */
  function Drain(v: View, channel: Channel, n: nat): View
    decreases n
  {
    if n == 0 then v else Drain(Deliver(v, channel, true).0, channel, n - 1)
  }

  lemma DeliverPops(v: View, channel: Channel)
    requires Inv(v)
    ensures var w := Deliver(v, channel, true).0;
            && Inv(w) && w == v.(written := w.written, queues := w.queues)
            && (QueueOf(v.queues, channel) == [] ==> QueueOf(w.queues, channel) == [])
            && (QueueOf(v.queues, channel) != [] ==> |QueueOf(w.queues, channel)| < |QueueOf(v.queues, channel)|)
  {
    DeliverKeepsInv(v, channel, true);
    DeliverOnlyTags(v, channel, true);
  }

  lemma {:induction false} DrainEmpties(v: View, channel: Channel, n: nat)
    requires Inv(v) && |QueueOf(v.queues, channel)| <= n
    ensures var w := Drain(v, channel, n);
            && Inv(w) && w == v.(written := w.written, queues := w.queues) && QueueOf(w.queues, channel) == []
    decreases n
  {
    if n > 0 {
      DeliverPops(v, channel);
      DrainEmpties(Deliver(v, channel, true).0, channel, n - 1);
    }
  }

  /** Enough delivers from the channel to an end of an untagged connection write all that has come in for it. */
  lemma DrainWritesAll(v: View, c: Cell, n: nat)
    requires Inv(v) && Untagged(v, c) && |QueueTo(v, c)| <= n
    ensures var w := Drain(v, v.table[FdOf(v, c)].channel.Swap(), n);
            && Inv(w) && Untagged(w, c) && c in v.received && c in w.written && w.written[c] == v.received[c]
  {
    var w := Drain(v, v.table[FdOf(v, c)].channel.Swap(), n);
    DrainEmpties(v, v.table[FdOf(v, c)].channel.Swap(), n);
    assert c in w.fds && ConservedAt(w, [], c);
    assert QueueTo(w, c) == [] && Pending([], c) == [];
    assert w.written[c] + [] + [] == w.written[c];
  }

  lemma {:induction false} DrainCameIn(v: View, channel: Channel, n: nat)
    requires Inv(v) && WrittenCameIn(v)
    ensures WrittenCameIn(Drain(v, channel, n))
    decreases n
  {
    if n > 0 {
      DeliverCameIn(v, channel, true);
      DeliverKeepsInv(v, channel, true);
      DrainCameIn(Deliver(v, channel, true).0, channel, n - 1);
    }
  }

  /** A body that comes in on the source's end of a new connection is written to the destination's end, and to no other,
      in direct mode at once, and otherwise by delivers from the source's to the destination's bare address. */
  lemma OpenedIsServed(
      v: View, srcFd: int, dstFd: int, srcCell: Cell, dstCell: Cell, src: Addr, dst: Addr, body: Bytes, n: nat)
    requires Inv(v) && Enabled(v, OpenConnection(srcFd, dstFd, srcCell, dstCell, src, dst))
    requires |QueueOf(v.queues, Channel(Bare(src), Bare(dst)))| < n
    ensures var u := Open(v, srcFd, dstFd, srcCell, dstCell, src, dst);
            srcFd in u.table &&
            var w := Enqueue(u, srcFd, body, true);
            var x := if v.isDirect then w else Drain(w, Channel(Bare(src), Bare(dst)), n);
            && dstCell in x.written && x.written[dstCell] == [body]
            && srcCell in x.written && x.written[srcCell] == []
  {
    var u := Open(v, srcFd, dstFd, srcCell, dstCell, src, dst);
    OpenEntries(v, srcFd, dstFd, srcCell, dstCell, src, dst);
    OpenKeepsInv(v, srcFd, dstFd, srcCell, dstCell, src, dst);
    var w := Enqueue(u, srcFd, body, true);
    EnqueueMeans(u, srcFd, body, true);
    EnqueueKeepsInv(u, srcFd, body, true);
    assert [] + [body] == [body];
    if !v.isDirect {
      DrainServes(w, srcFd, dstFd, srcCell, dstCell, body, n);
    }
  }

  lemma DrainServes(w: View, srcFd: int, dstFd: int, srcCell: Cell, dstCell: Cell, body: Bytes, n: nat)
    requires Inv(w) && Untagged(w, dstCell) && w.fds[dstCell] == dstFd && Untagged(w, srcCell)
    requires srcFd in w.table && |QueueTo(w, dstCell)| <= n
    requires dstCell in w.received && w.received[dstCell] == [body]
    requires srcCell in w.received && w.received[srcCell] == []
    ensures var x := Drain(w, w.table[dstFd].channel.Swap(), n);
            && dstCell in x.written && x.written[dstCell] == [body]
            && srcCell in x.written && x.written[srcCell] == []
  {
    var ch := w.table[dstFd].channel.Swap();
    DrainWritesAll(w, dstCell, n);
    DrainKeeps(w, ch, n);
    assert srcCell in Drain(w, ch, n).fds && ConservedAt(Drain(w, ch, n), [], srcCell);
  }

  lemma {:induction false} DrainKeeps(v: View, channel: Channel, n: nat)
    requires Inv(v)
    ensures var w := Drain(v, channel, n); Inv(w) && w == v.(written := w.written, queues := w.queues)
    decreases n
  {
    if n > 0 {
      DeliverPops(v, channel);
      DrainKeeps(Deliver(v, channel, true).0, channel, n - 1);
    }
  }
}
