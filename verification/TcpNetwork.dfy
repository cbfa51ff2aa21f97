/** The proxy object of tproxy/TcpNetwork.cpp: a table, queues and heap cells updated in place.

    Every method does to the object what ProxyState says the operation does to its state; the invariants, and what
    all runs keep, are proved there. */
module TcpNetwork {
  import opened Options
  import opened Framing
  import opened ProxyState
  import opened ProxyLoops
  import opened ProxyArrivals
  import opened Receiving

  /** A descriptor's side of the system; see Receiving.Sock. */
  class Socket {
    var unread: Bytes
    var arrived: nat
    var coming: seq<nat>
    var late: seq<bool>
    var ended: bool

    function State(): Sock
      reads this
    {
      Sock(unread, arrived, coming, late, ended)
    }

    ghost predicate Valid()
      reads this
    {
      State().Valid()
    }

    constructor (unread: Bytes, coming: seq<nat>, late: seq<bool>, ended: bool)
      ensures Valid() && State() == Sock(unread, 0, coming, late, ended)
    {
      this.unread, this.arrived, this.coming, this.late, this.ended := unread, 0, coming, late, ended;
    }

    /** More bytes come; recv with MSG_PEEK and MSG_DONTWAIT then sees what is there. */
    method Look()
      requires Valid()
      modifies this`arrived, this`coming
      ensures Valid() && State() == Receiving.Look(old(State()))
    {
      if coming != [] {
        arrived, coming := Min(arrived + coming[0], |unread|), coming[1..];
      }
    }

    method ArriveAll()
      requires Valid()
      modifies this`arrived
      ensures Valid() && State() == old(State()).(arrived := |unread|)
    {
      arrived := |unread|;
    }

    /** recv with MSG_WAITALL: waits for the bytes asked for, and when the time limit passes or there are no more
        returns with what has come by then. */
    method Read(size: nat) returns (bytes: Bytes)
      requires Valid()
      modifies this
      ensures Valid()
      ensures var a := Await(old(State()), size);
              bytes == a.unread[..Min(size, a.arrived)] && State() == Take(a, Min(size, a.arrived))
    {
      var tooLate := late != [] && late[0];
      late := if late == [] then [] else late[1..];
      if tooLate {
        Look();
      } else if Min(size, |unread|) > arrived {
        arrived := Min(size, |unread|);
      }
      var taken := Min(size, arrived);
      bytes := unread[..taken];
      unread, arrived := unread[taken..], arrived - taken;
    }
  }

  class TcpNetwork {
    var table: Table
    var queues: Queues
    var unintercepted: set<int>
    const isDirect: bool

    /** How often close(2) was called on a descriptor that is not in the table. */
    var strayCloses: nat

    ghost var cells: set<Cell>
    ghost var received: map<Cell, seq<Bytes>>
    ghost var written: map<Cell, seq<Bytes>>

    ghost function Fds(): map<Cell, int>
      reads this, cells
    {
      map c | c in cells :: c.fd
    }

    /** The object's state as a value. */
    ghost function State(): View
      reads this, cells
    {
      View(isDirect, table, Fds(), queues, unintercepted, received, written)
    }

    constructor (isDirect: bool)
      ensures State() == InitView(isDirect) && strayCloses == 0 && cells == {}
    {
      this.isDirect := isDirect;
      table, queues, unintercepted, strayCloses := map[], map[], {}, 0;
      cells, received, written := {}, map[], map[];
    }

    method AddFdToChannel(srcFd: int, dstFd: int, src: Addr, dst: Addr)
      requires 0 <= srcFd && 0 <= dstFd && srcFd != dstFd && srcFd !in table && dstFd !in table
      modifies this
      ensures strayCloses == old(strayCloses)
      ensures srcFd in table && dstFd in table
      ensures fresh(table[srcFd].selfFd) && fresh(table[dstFd].selfFd)
      ensures table[srcFd].selfFd != table[dstFd].selfFd
      ensures table[srcFd].channel == Channel(Bare(src), Bare(dst))
      ensures table[dstFd].channel == Channel(Bare(dst), Bare(src))
      ensures !table[srcFd].disconnected && !table[dstFd].disconnected
      ensures table[srcFd].peerFd == table[dstFd].selfFd && table[dstFd].peerFd == table[srcFd].selfFd
      ensures table[srcFd].selfFd.fd == srcFd && table[dstFd].selfFd.fd == dstFd
      ensures cells == old(cells) + {table[srcFd].selfFd, table[dstFd].selfFd}
      ensures State() == Open(old(State()), srcFd, dstFd, table[srcFd].selfFd, table[dstFd].selfFd, src, dst)
    {
      ghost var v := State();
      var from, to := src.(port := 0), dst.(port := 0);
      var srcCell := new Cell(srcFd);
      var dstCell := new Cell(dstFd);
      table := table[srcFd := Entry(Channel(from, to), srcCell, dstCell, false)];
      table := table[dstFd := Entry(Channel(to, from), dstCell, srcCell, false)];
      cells := cells + {srcCell, dstCell};
      received := received[srcCell := []][dstCell := []];
      written := written[srcCell := []][dstCell := []];
      assert Fds() == v.fds[srcCell := srcFd][dstCell := dstFd];
    }

    // ---- Closing

    method DoClose(fd: int)
      requires fd in table ==> table[fd].selfFd in cells
      modifies this`table, this`unintercepted, cells
      ensures State() == CloseOne(old(State()), fd)
    {
      if fd !in table {
        return;
      }
      unintercepted := unintercepted - {fd};
      table[fd].selfFd.fd := -1;
      table := table - {fd};
      assert Fds() == old(Fds())[old(table)[fd].selfFd := -1];
    }

    /** The source's close_peer is true in every call it makes. */
    method CloseConnection(fd: int, tag: bool)
      requires Linked(State())
      modifies this`table, this`unintercepted, this`strayCloses, cells
      ensures State() == if tag then Tag(old(State()), fd) else Close(old(State()), fd)
      ensures strayCloses == old(strayCloses) + if fd !in old(table) && !tag then 1 else 0
    {
      if fd in table {
        TagTable(State(), fd);
        var peer := table[fd].peerFd.fd;
        table := table[fd := table[fd].(disconnected := true)];
        if peer in table {
          table := table[peer := table[peer].(disconnected := true)];
        }
        assert State() == Tag(old(State()), fd);
        if !tag {
          DoClose(fd);
          DoClose(peer);
        }
      } else if !tag {
        strayCloses := strayCloses + 1;
      }
    }

    // ---- Delivering

    /** write(2), all of the body or nothing; the bytes go to the end that owns the descriptor now. */
    method Write(fd: int, body: Bytes)
      requires fd in table
      modifies this`written
      ensures State() == ProxyState.Write(old(State()), fd, body)
    {
      ghost var owner := table[fd].selfFd;
      if owner in written {
        written := written[owner := written[owner] + [body]];
      }
    }

    method DispatchMsg(m: Msg, writeOk: bool) returns (outcome: Delivery)
      requires Linked(State()) && m.fd in cells
      modifies this, cells
      ensures (State(), outcome) == Dispatch(old(State()), m, writeOk)
      ensures cells == old(cells) && strayCloses == old(strayCloses)
    {
      var fd := m.fd.fd;
      if fd !in table {
        outcome := NoChannel;
      } else if table[fd].disconnected {
        outcome := Disconnected;
      } else if writeOk {
        Write(fd, m.body);
        outcome := Delivered;
      } else {
        CloseConnection(fd, !isDirect);
        outcome := WriteFailed;
      }
    }

    /** Drops the dead messages at the front of the queue. */
    method DropDead(channel: Channel)
      requires channel in queues && forall m :: m in queues[channel] ==> m.fd in cells
      modifies this`queues
      ensures var q := old(queues)[channel];
              queues == old(queues)[channel := q[DeadFront(old(State()), q)..]]
    {
      ghost var v, all, k := State(), queues[channel], 0;
      assert all[0..] == all;
      while queues[channel] != [] && queues[channel][0].fd.fd < 0
        invariant k <= |all| && channel in queues
        invariant queues == old(queues)[channel := all[k..]]
        invariant DeadFront(v, all) == k + DeadFront(v, all[k..])
        decreases |queues[channel]|
      {
        assert all[k] in all && all[k..][1..] == all[k + 1..];
        queues := queues[channel := queues[channel][1..]];
        k := k + 1;
      }
    }

    ghost predicate QueuedCells()
      reads this
    {
      forall ch, m :: ch in queues && m in queues[ch] ==> m.fd in cells
    }

    /** Drops the dead messages at the front of the queue and dispatches the first live one. */
    method DeliverMsg(channel: Channel, writeOk: bool) returns (outcome: Delivery)
      requires Linked(State()) && QueuedCells()
      modifies this, cells
      ensures (State(), outcome) == Deliver(old(State()), channel, writeOk)
      ensures cells == old(cells) && strayCloses == old(strayCloses)
    {
      if channel !in queues {
        return NoChannel;
      }
      ghost var v, q := State(), queues[channel];
      ghost var n := DeadFront(v, q);
      DropDead(channel);
      if queues[channel] == [] {
        assert n == |q| && queues == v.queues[channel := []] && Fds() == v.fds;
        return TimedOut;
      }
      var m := queues[channel][0];
      assert m == q[n] && q[n..][1..] == q[n + 1..] && m in q;
      queues := queues[channel := queues[channel][1..]];
      assert State() == v.(queues := v.queues[channel := q[n + 1..]]);
      outcome := DispatchMsg(m, writeOk);
    }

    // ---- Receiving

    method EnqueueMsg(fd: int, body: Bytes, writeOk: bool)
      requires Linked(State()) && fd in table
      modifies this, cells
      ensures State() == Enqueue(old(State()), fd, body, writeOk)
      ensures cells == old(cells) && strayCloses == old(strayCloses)
    {
      ghost var v := State();
      var e := table[fd];
      var m := Msg(e.peerFd, body);
      if m.fd in received {
        received := received[m.fd := received[m.fd] + [body]];
      }
      assert Fds() == v.fds && State() == Receive(v, m);
      assert m.fd in v.fds;
      if e.disconnected {
        return;
      }
      if isDirect {
        var outcome := DispatchMsg(m, writeOk);
        return;
      }
      queues := queues[e.channel := QueueOf(queues, e.channel) + [m]];
    }

    // ---- Partition and recovery

    method ClearMsgs(channel: Channel)
      modifies this`queues
      ensures queues == if channel in old(queues) then old(queues)[channel := []] else old(queues)
    {
      if channel in queues {
        while queues[channel] != []
          invariant channel in queues && queues == old(queues)[channel := queues[channel]]
          decreases |queues[channel]|
        {
          queues := queues[channel := queues[channel][1..]];
        }
      }
    }

    /** Goes over the table in any order; only the entries with the node at their own end are looked at, and still
        both ends of every connection touching it are tagged. */
    method Partition(node: Addr)
      requires Linked(State())
      modifies this`table, this`unintercepted, this`strayCloses, cells
      ensures State() == ProxyState.Partition(old(State()), node)
      ensures strayCloses == old(strayCloses)
    {
      ghost var v, seen := State(), {};
      var todo := table.Keys;
      assert State() == TagSeen(v, node, {});
      while todo != {}
        invariant seen + todo == v.table.Keys
        invariant State() == TagSeen(v, node, seen)
        invariant strayCloses == old(strayCloses)
        decreases |todo|
      {
        var fd := PickAny(todo);
        TagSeenLinked(v, node, seen);
        TagNext(v, node, seen, fd);
        if table[fd].channel.first == node {
          CloseConnection(fd, true);
        }
        todo, seen := todo - {fd}, seen + {fd};
      }
      assert seen == v.table.Keys;
      TagAll(v, node);
    }

    /** The first loop lists the entries with the node at their own end, takes their tag off and clears their queues;
        the second closes what was listed.  A connection of the node with itself is listed twice, and then, and only
        then, close(2) is called on a descriptor that is no longer in the table. */
    method Recover(node: Addr)
      requires Linked(State())
      modifies this`table, this`queues, this`unintercepted, this`strayCloses, cells
      ensures State() == ProxyState.Recover(old(State()), node)
      ensures strayCloses == old(strayCloses) <==> !HasChannel(old(table), Channel(node, node))
    {
      ghost var v := State();
      var toClose := ListForRecovery(node);
      ResetLinked(v, node, v.table.Keys);
      assert Listed(State(), node, toClose, table.Keys);
      CloseListed(node, toClose);
      RecoverLoops(v, node, toClose);
    }

    method CloseListed(node: Addr, toClose: seq<int>)
      requires Linked(State()) && Listed(State(), node, toClose, table.Keys)
      modifies this`table, this`unintercepted, this`strayCloses, cells
      ensures State() == CloseAll(old(State()), toClose)
      ensures strayCloses == old(strayCloses) + Strays(old(State()), toClose)
    {
      ghost var r := State();
      for i := 0 to |toClose|
        invariant State() == CloseAll(r, toClose[..i])
        invariant strayCloses == old(strayCloses) + Strays(r, toClose[..i])
      {
        CloseAllLinked(r, node, toClose, i);
        CloseAllNext(r, toClose, i);
        CloseConnection(toClose[i], false);
      }
      assert toClose[..|toClose|] == toClose;
    }

    method ListForRecovery(node: Addr) returns (toClose: seq<int>)
      modifies this`table, this`queues
      ensures State() == ResetSeen(old(State()), node, old(table).Keys)
      ensures Listed(old(State()), node, toClose, old(table).Keys)
    {
      ghost var v, seen := State(), {};
      var todo := table.Keys;
      toClose := [];
      ResetNone(v, node);
      while todo != {}
        invariant seen <= v.table.Keys && todo == v.table.Keys - seen
        invariant State() == ResetSeen(v, node, seen)
        invariant Listed(v, node, toClose, seen)
        decreases |todo|
      {
        var fd := PickAny(todo);
        toClose := ResetOne(node, fd, toClose, v, seen);
        todo, seen := todo - {fd}, seen + {fd};
      }
      assert seen == v.table.Keys;
    }

    /** The body of the first loop. */
    method ResetOne(node: Addr, fd: int, toClose: seq<int>, ghost v: View, ghost seen: set<int>)
      returns (list: seq<int>)
      requires fd in v.table && fd !in seen
      requires State() == ResetSeen(v, node, seen) && Listed(v, node, toClose, seen)
      modifies this`table, this`queues
      ensures State() == ResetSeen(v, node, seen + {fd})
      ensures Listed(v, node, list, seen + {fd})
      ensures list == if v.table[fd].channel.first == node then toClose + [fd] else toClose
    {
      ResetNext(v, node, seen, fd);
      ListedNext(v, node, toClose, seen, fd);
      list := toClose;
      if table[fd].channel.first == node {
        table := table[fd := table[fd].(disconnected := false)];
        list := list + [fd];
        ClearMsgs(table[fd].channel);
        assert Fds() == v.fds;
      }
    }

    // ---- Reading frames off a socket

    /** Reads frames while whole headers are there.  writes says beforehand which direct writes succeed; bodies are
        those read. */
    method DoReceive(fd: int, socket: Socket, writes: seq<bool>) returns (outcome: Reception, bodies: seq<Bytes>)
      requires Inv(State()) && socket.Valid()
      modifies this, cells, socket
      ensures Call(outcome, bodies, State(), socket.State()) ==
              Receiving.DoReceive(old(State()), fd, old(socket.State()), writes)
      ensures Inv(State()) && socket.Valid() && cells == old(cells)
      ensures strayCloses == old(strayCloses) + if fd in old(table) then 0 else 1
    {
      ghost var v, s := State(), socket.State();
      ReceiveKeepsInv(v, fd, s, writes);
      if fd !in table {
        CloseConnection(fd, false);
        outcome, bodies := UnknownDescriptor, [];
      } else if fd in unintercepted {
        outcome, bodies := NotFramed, [];
      } else {
        ReadFramesEnqueue(v, fd, s, NO_HEADER, writes);
        outcome, bodies := ReadFrames(fd, socket, writes);
        EnqueueAllKeepsInv(v, fd, bodies, writes);
        if outcome == NotFramed {
          SetUnintercepted(fd);
        } else if outcome == ClosedDown {
          CloseConnection(fd, false);
        }
      }
    }

    /** The receive loop; the caller acts on the outcome. */
    method ReadFrames(fd: int, socket: Socket, writes: seq<bool>) returns (outcome: Reception, bodies: seq<Bytes>)
      requires Inv(State()) && fd in table && socket.Valid()
      modifies this, cells, socket
      ensures socket.Valid() && cells == old(cells) && strayCloses == old(strayCloses)
      ensures Call(outcome, bodies, State(), socket.State()) ==
              Receiving.ReadFrames(old(State()), fd, old(socket.State()), NO_HEADER, writes)
    {
      ghost var all := Receiving.ReadFrames(State(), fd, socket.State(), NO_HEADER, writes);
      outcome, bodies := FrameRead, [];
      assert bodies + all.bodies == all.bodies;
      var header, oks, going := NO_HEADER, writes, true;
      while going
        invariant cells == old(cells) && strayCloses == old(strayCloses) && socket.Valid()
        invariant going ==> GoingOn(all, bodies, fd, socket.State(), header, oks)
        invariant !going ==> Call(outcome, bodies, State(), socket.State()) == all
        decreases going, |socket.unread|
      {
        going, outcome, bodies, header, oks := TakeFrame(fd, socket, header, oks, all, bodies);
      }
    }

    /** The call so far has read these bodies, and the rest of it is the loop from here. */
    ghost predicate GoingOn(all: Call, bodies: seq<Bytes>, fd: int, s: Sock, header: Bytes, writes: seq<bool>)
      reads this, cells
    {
      && Inv(State()) && fd in table && s.Valid() && |header| == HEADER_SIZE
      && Continues(all, bodies, Receiving.ReadFrames(State(), fd, s, header, writes))
    }

    /** One round, and what its frame goes to. */
    method TakeFrame(fd: int, socket: Socket, header: Bytes, writes: seq<bool>, ghost all: Call, bodies: seq<Bytes>)
      returns (going: bool, outcome: Reception, more: seq<Bytes>, next: Bytes, later: seq<bool>)
      requires GoingOn(all, bodies, fd, socket.State(), header, writes)
      modifies this, cells, socket
      ensures socket.Valid() && cells == old(cells) && strayCloses == old(strayCloses)
      ensures if going
              then GoingOn(all, more, fd, socket.State(), next, later) && |socket.unread| < |old(socket.unread)|
              else Call(outcome, more, State(), socket.State()) == all
    {
      GoesOn(all, bodies, State(), fd, socket.State(), header, writes);
      var body;
      outcome, body := ReadFrame(socket, header);
      going, more, next, later := false, bodies, Header(|body|), LaterOks(writes);
      if outcome == FrameRead {
        Accept(fd, body, NextOk(writes));
        going, more := fd in table, bodies + [body];
      }
    }

    method Accept(fd: int, body: Bytes, ok: bool)
      requires Inv(State()) && fd in table
      modifies this, cells
      ensures Inv(State()) && State() == Enqueue(old(State()), fd, body, ok)
      ensures cells == old(cells) && strayCloses == old(strayCloses)
    {
      EnqueueKeepsInv(State(), fd, body, ok);
      EnqueueMsg(fd, body, ok);
    }

    /** One round of the loop: FrameRead when a frame was taken off the socket. */
    method ReadFrame(socket: Socket, header: Bytes) returns (outcome: Reception, body: Bytes)
      requires socket.Valid() && |header| == HEADER_SIZE
      modifies socket
      ensures Round(outcome, body, socket.State()) == Receiving.ReadFrame(old(socket.State()), header)
      ensures socket.Valid()
    {
      socket.Look();
      var there := socket.arrived;
      body := [];
      if there == 0 {
        outcome := if socket.unread == [] && socket.ended then ClosedDown else Waiting;
        return;
      }
      var seen := Peek(header, socket.unread[..Peeked(there)]);
      if !PacketValidation(seen, Peeked(there)) {
        outcome := NotFramed;
      } else if there < HEADER_SIZE {
        outcome := Waiting;
      } else {
        var size := HEADER_SIZE + Size(seen);
        var frame := socket.Read(size);
        if |frame| < size {
          outcome := ClosedDown;
        } else {
          outcome, body := FrameRead, frame[HEADER_SIZE..];
        }
      }
    }

    method SetUnintercepted(fd: int)
      modifies this`unintercepted
      ensures State() == Unintercept(old(State()), fd)
    {
      unintercepted := unintercepted + {fd};
    }
  }

  /** The whole call is what was read so far, and then the rest of it. */
  ghost predicate Continues(all: Call, bodies: seq<Bytes>, rest: Call) {
    all == rest.(bodies := bodies + rest.bodies)
  }

  lemma GoesOn(all: Call, bodies: seq<Bytes>, v: View, fd: int, s: Sock, header: Bytes, writes: seq<bool>)
    requires fd in v.table && s.Valid() && |header| == HEADER_SIZE
    requires Continues(all, bodies, Receiving.ReadFrames(v, fd, s, header, writes))
    ensures var r := Receiving.ReadFrame(s, header);
            if r.outcome != FrameRead then all == Call(r.outcome, bodies, v, r.s)
            else
              var w := Enqueue(v, fd, r.body, NextOk(writes));
              if fd !in w.table then all == Call(FrameRead, bodies + [r.body], w, r.s)
              else
                var rest := Receiving.ReadFrames(w, fd, r.s, Header(|r.body|), LaterOks(writes));
                Continues(all, bodies + [r.body], rest)
  {
    var r := Receiving.ReadFrame(s, header);
    var w := Enqueue(v, fd, r.body, NextOk(writes));
    assert bodies + [] == bodies;
    if r.outcome == FrameRead && fd in w.table {
      var rest := Receiving.ReadFrames(w, fd, r.s, Header(|r.body|), LaterOks(writes));
      Append3(bodies, [r.body], rest.bodies);
    }
  }
}
