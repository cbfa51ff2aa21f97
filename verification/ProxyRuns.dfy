/** What every run of the proxy keeps: opens, arrivals, deliveries, closes, partitions and recovers in any order, with
    descriptors given out again as the system likes. */
module ProxyRuns {
  import opened Framing
  import opened ProxyState

  datatype Op =
    | OpenConnection(srcFd: int, dstFd: int, srcCell: Cell, dstCell: Cell, src: Addr, dst: Addr)
    | Arrive(fd: int, body: Bytes, writeOk: bool)
    | DeliverFrom(channel: Channel, writeOk: bool)
    | CloseConnection(fd: int)
    | TagUnintercepted(fd: int)
    | PartitionNode(node: Addr)
    | RecoverNode(node: Addr)

  /** The operating system opens descriptors that are not open, new cells are new, and data arrives on open ones. */
  predicate Enabled(v: View, op: Op) {
    match op
    case OpenConnection(srcFd, dstFd, srcCell, dstCell, _, _) =>
      && 0 <= srcFd && 0 <= dstFd && srcFd != dstFd && srcFd !in v.table && dstFd !in v.table
      && srcCell != dstCell && srcCell !in v.fds && dstCell !in v.fds
    case Arrive(fd, _, _) => fd in v.table
    case TagUnintercepted(fd) => fd in v.table
    case _ => true
  }

  ghost function Step(v: View, op: Op): View
    requires Enabled(v, op)
  {
    match op
    case OpenConnection(srcFd, dstFd, srcCell, dstCell, src, dst) => Open(v, srcFd, dstFd, srcCell, dstCell, src, dst)
    case Arrive(fd, body, writeOk) => Enqueue(v, fd, body, writeOk)
    case DeliverFrom(channel, writeOk) => Deliver(v, channel, writeOk).0
    case CloseConnection(fd) => Close(v, fd)
    case TagUnintercepted(fd) => Unintercept(v, fd)
    case PartitionNode(node) => Partition(v, node)
    case RecoverNode(node) => Recover(v, node)
  }

  ghost predicate IsRun(v: View, ops: seq<Op>)
    decreases |ops|
  {
    ops == [] || (Enabled(v, ops[0]) && IsRun(Step(v, ops[0]), ops[1..]))
  }

  ghost function Exec(v: View, ops: seq<Op>): View
    requires IsRun(v, ops)
    decreases |ops|
  {
    if ops == [] then v else Exec(Step(v, ops[0]), ops[1..])
  }

  lemma StepKeepsInv(v: View, op: Op)
    requires Inv(v) && Enabled(v, op)
    ensures Inv(Step(v, op))
  {
    match op
    case OpenConnection(srcFd, dstFd, srcCell, dstCell, src, dst) =>
      OpenKeepsInv(v, srcFd, dstFd, srcCell, dstCell, src, dst);
    case Arrive(fd, body, writeOk) => EnqueueKeepsInv(v, fd, body, writeOk);
    case DeliverFrom(channel, writeOk) => DeliverKeepsInv(v, channel, writeOk);
    case CloseConnection(fd) => CloseKeepsInv(v, fd, []);
    case TagUnintercepted(fd) => UninterceptKeepsInv(v, fd);
    case PartitionNode(node) => PartitionKeepsInv(v, node);
    case RecoverNode(node) => RecoverClears(v, node);
  }

  /** In every run the table stays paired, every live message faces the entry that owns its cell, and what came in
      for an untagged end is written or queued, in order. */
  lemma {:induction false} RunKeepsInv(v: View, ops: seq<Op>)
    requires Inv(v) && IsRun(v, ops)
    ensures Inv(Exec(v, ops))
    decreases |ops|
  {
    if ops != [] {
      StepKeepsInv(v, ops[0]);
      RunKeepsInv(Step(v, ops[0]), ops[1..]);
    }
  }

  lemma InitInv(isDirect: bool)
    ensures Inv(InitView(isDirect))
  {
  }

  /** In every state of every run from the start: each entry's peer is there, with swapped channel and cells and the
      same tag. */
  lemma TableStaysPaired(isDirect: bool, ops: seq<Op>, fd: int)
    requires IsRun(InitView(isDirect), ops) && fd in Exec(InitView(isDirect), ops).table
    ensures var v := Exec(InitView(isDirect), ops);
            && Peer(v, fd) in v.table && Peer(v, fd) != fd && Peer(v, Peer(v, fd)) == fd
            && v.table[Peer(v, fd)].channel == v.table[fd].channel.Swap()
            && v.table[Peer(v, fd)].selfFd == v.table[fd].peerFd
            && v.table[Peer(v, fd)].peerFd == v.table[fd].selfFd
            && v.table[Peer(v, fd)].disconnected == v.table[fd].disconnected
  {
    InitInv(isDirect);
    RunKeepsInv(InitView(isDirect), ops);
    PeersMatch(Exec(InitView(isDirect), ops), fd, fd);
  }

  /** In every state of every run, a queued message is dead or its descriptor's entry owns its very cell and faces the
      queue's channel, however often descriptors were reused. */
  lemma NeverWrongConnection(isDirect: bool, ops: seq<Op>, channel: Channel, m: Msg)
    requires IsRun(InitView(isDirect), ops)
    requires var v := Exec(InitView(isDirect), ops); channel in v.queues && m in v.queues[channel]
    ensures var v := Exec(InitView(isDirect), ops);
            && m.fd in v.fds
            && (v.fds[m.fd] == -1
                || (v.fds[m.fd] in v.table && v.table[v.fds[m.fd]].selfFd == m.fd
                    && v.table[v.fds[m.fd]].channel == channel.Swap()))
  {
    InitInv(isDirect);
    RunKeepsInv(InitView(isDirect), ops);
    assert Faces(Exec(InitView(isDirect), ops), channel, m);
  }

  /** In every state of every run, for each end of an untagged connection: what came in for it is what was written to it
      followed by what its queue holds for it, in direct mode all of it written. */
  lemma NothingLost(isDirect: bool, ops: seq<Op>, c: Cell)
    requires IsRun(InitView(isDirect), ops) && Untagged(Exec(InitView(isDirect), ops), c)
    ensures var v := Exec(InitView(isDirect), ops);
            && c in v.received && c in v.written
            && v.received[c] == v.written[c] + Pending(QueueTo(v, c), c)
            && (v.isDirect ==> v.received[c] == v.written[c])
  {
    InitInv(isDirect);
    RunKeepsInv(InitView(isDirect), ops);
    var v := Exec(InitView(isDirect), ops);
    assert c in v.fds && ConservedAt(v, [], c);
    assert v.written[c] + [] == v.written[c];
    if v.isDirect {
      assert QueueTo(v, c) == [];
    }
  }

  /** No step revives a dead cell or writes for one. */
  lemma StepKeepsDead(v: View, op: Op, c: Cell)
    requires Inv(v) && Enabled(v, op) && c in v.fds && v.fds[c] == -1
    ensures c in Step(v, op).fds && Step(v, op).fds[c] == -1
    ensures c in v.written && c in Step(v, op).written && Step(v, op).written[c] == v.written[c]
  {
    match op
    case OpenConnection(_, _, _, _, _, _) =>
    case Arrive(fd, body, writeOk) =>
      EnqueueKeepsInv(v, fd, body, writeOk);
      EnqueueKeepsDead(v, fd, body, writeOk, c);
    case DeliverFrom(channel, writeOk) =>
      DeliverKeepsInv(v, channel, writeOk);
      DeliverKeepsDead(v, channel, writeOk, c);
    case CloseConnection(fd) => if fd in v.table { CloseView(v, fd); }
    case TagUnintercepted(_) =>
    case PartitionNode(_) =>
    case RecoverNode(_) =>
  }

  lemma DispatchKeepsDead(v: View, m: Msg, writeOk: bool, c: Cell)
    requires Wired(v) && c in v.fds && v.fds[c] == -1
    ensures c in Dispatch(v, m, writeOk).0.fds && Dispatch(v, m, writeOk).0.fds[c] == -1
  {
    var fd := FdOf(v, m.fd);
    if fd in v.table {
      CloseView(v, fd);
    }
  }

  lemma EnqueueKeepsDead(v: View, fd: int, body: Bytes, writeOk: bool, c: Cell)
    requires Inv(v) && fd in v.table && c in v.fds && v.fds[c] == -1
    ensures c in Enqueue(v, fd, body, writeOk).fds && Enqueue(v, fd, body, writeOk).fds[c] == -1
  {
    var m := Msg(v.table[fd].peerFd, body);
    ReceiveHolds(v, m);
    DispatchKeepsDead(Receive(v, m), m, writeOk, c);
  }

  lemma DeliverKeepsDead(v: View, channel: Channel, writeOk: bool, c: Cell)
    requires Inv(v) && c in v.fds && v.fds[c] == -1
    ensures c in Deliver(v, channel, writeOk).0.fds && Deliver(v, channel, writeOk).0.fds[c] == -1
  {
    if channel in v.queues {
      var q := v.queues[channel];
      var n := DeadFront(v, q);
      PopKeeps(v, channel);
      if n < |q| {
        DispatchKeepsDead(v.(queues := v.queues[channel := q[n + 1..]]), q[n], writeOk, c);
      }
    }
  }

  lemma {:induction false} RunKeepsDead(v: View, ops: seq<Op>, c: Cell)
    requires Inv(v) && IsRun(v, ops) && c in v.fds && v.fds[c] == -1
    ensures c in Exec(v, ops).fds && Exec(v, ops).fds[c] == -1
    ensures c in v.written && c in Exec(v, ops).written && Exec(v, ops).written[c] == v.written[c]
    decreases |ops|
  {
    if ops != [] {
      StepKeepsInv(v, ops[0]);
      StepKeepsDead(v, ops[0], c);
      RunKeepsDead(Step(v, ops[0]), ops[1..], c);
    }
  }

  /** The step hands a message for this cell to write: the first live one of a queue, or in direct mode a body that
      has just come in. */
  ghost predicate Dispatches(v: View, op: Op, c: Cell)
    requires Enabled(v, op)
  {
    match op
    case DeliverFrom(channel, _) =>
      && channel in v.queues
      && var q := v.queues[channel]; DeadFront(v, q) < |q| && q[DeadFront(v, q)].fd == c
    case Arrive(fd, _, _) => v.isDirect && !v.table[fd].disconnected && v.table[fd].peerFd == c
    case _ => false
  }

  lemma DeadNotDispatched(v: View, op: Op, c: Cell)
    requires Inv(v) && Enabled(v, op) && c in v.fds && v.fds[c] == -1
    ensures !Dispatches(v, op, c)
  {
    if op.DeliverFrom? && op.channel in v.queues {
      DeadFrontDead(v, v.queues[op.channel], c);
    }
  }

  lemma RunSplit(v: View, ops: seq<Op>, i: nat)
    requires IsRun(v, ops) && i < |ops|
    ensures IsRun(v, ops[..i]) && Enabled(Exec(v, ops[..i]), ops[i])
    decreases i
  {
    if i > 0 {
      RunSplit(Step(v, ops[0]), ops[1..], i - 1);
      assert ops[..i][1..] == ops[1..][..i - 1];
    }
  }

  lemma {:induction false} RunDispatchesNoDead(v: View, ops: seq<Op>, c: Cell, i: nat)
    requires Inv(v) && IsRun(v, ops) && c in v.fds && v.fds[c] == -1 && i < |ops|
    ensures IsRun(v, ops[..i]) && Enabled(Exec(v, ops[..i]), ops[i])
    ensures !Dispatches(Exec(v, ops[..i]), ops[i], c)
  {
    RunSplit(v, ops, i);
    RunKeepsInv(v, ops[..i]);
    RunKeepsDead(v, ops[..i], c);
    DeadNotDispatched(Exec(v, ops[..i]), ops[i], c);
  }

  /** Whatever happens after recover(node), with descriptors given out again as the system likes: no message that was
      queued on a channel from or to the node is ever taken up for writing, to whatever descriptor; its cell stays dead,
      and nothing is added to what was written to the end it was for. */
  lemma RecoveredNeverWritten(v: View, node: Addr, ops: seq<Op>, channel: Channel, m: Msg)
    requires Inv(v) && IsRun(Recover(v, node), ops)
    requires channel in v.queues && m in v.queues[channel] && channel.Touches(node)
    ensures forall i :: 0 <= i < |ops| ==>
              && IsRun(Recover(v, node), ops[..i]) && Enabled(Exec(Recover(v, node), ops[..i]), ops[i])
              && !Dispatches(Exec(Recover(v, node), ops[..i]), ops[i], m.fd)
    ensures var w := Exec(Recover(v, node), ops);
            && m.fd in w.fds && w.fds[m.fd] == -1
            && m.fd in v.written && m.fd in w.written && w.written[m.fd] == v.written[m.fd]
  {
    RecoverClears(v, node);
    assert Faces(v, channel, m);
    RunKeepsDead(Recover(v, node), ops, m.fd);
    forall i | 0 <= i < |ops|
      ensures IsRun(Recover(v, node), ops[..i]) && Enabled(Exec(Recover(v, node), ops[..i]), ops[i])
      ensures !Dispatches(Exec(Recover(v, node), ops[..i]), ops[i], m.fd)
    {
      RunDispatchesNoDead(Recover(v, node), ops, m.fd, i);
    }
  }

  // ---- A severed end stays severed

  /** The end's connection is tagged, or closed. */
  ghost predicate Severed(v: View, c: Cell) {
    c in v.fds && (v.fds[c] == -1 || (v.fds[c] in v.table && v.table[v.fds[c]].disconnected))
  }

  lemma ClosedKeepsSevered(v: View, w: View, gone: set<int>, c: Cell)
    requires Closed(v, w, gone) && Severed(v, c)
    ensures Severed(w, c) && w.written == v.written
  {
  }

  lemma TagKeepsSevered(v: View, fd: int, c: Cell)
    requires Linked(v) && Severed(v, c)
    ensures Severed(Tag(v, fd), c) && Tag(v, fd).written == v.written
  {
    if fd in v.table {
      TagTable(v, fd);
    }
  }

  lemma CloseKeepsSevered(v: View, fd: int, c: Cell)
    requires Linked(v) && Severed(v, c)
    ensures Severed(Close(v, fd), c) && Close(v, fd).written == v.written
  {
    if fd in v.table {
      CloseIsClosed(v, fd);
      ClosedKeepsSevered(v, Close(v, fd), {fd, Peer(v, fd)}, c);
    }
  }

  lemma DispatchKeepsSevered(v: View, m: Msg, writeOk: bool, c: Cell)
    requires Linked(v) && Severed(v, c) && c in v.written
    ensures var w := Dispatch(v, m, writeOk).0; Severed(w, c) && c in w.written && w.written[c] == v.written[c]
  {
    var fd := FdOf(v, m.fd);
    if fd in v.table {
      CloseKeepsSevered(v, fd, c);
      TagKeepsSevered(v, fd, c);
      assert v.fds[v.table[fd].selfFd] == fd;
    }
  }

  lemma EnqueueKeepsSevered(v: View, fd: int, body: Bytes, writeOk: bool, c: Cell)
    requires Inv(v) && fd in v.table && Severed(v, c) && c in v.written
    ensures var w := Enqueue(v, fd, body, writeOk); Severed(w, c) && c in w.written && w.written[c] == v.written[c]
  {
    var m := Msg(v.table[fd].peerFd, body);
    ReceiveHolds(v, m);
    DispatchKeepsSevered(Receive(v, m), m, writeOk, c);
  }

  lemma DeliverKeepsSevered(v: View, channel: Channel, writeOk: bool, c: Cell)
    requires Inv(v) && Severed(v, c) && c in v.written
    ensures var w := Deliver(v, channel, writeOk).0; Severed(w, c) && c in w.written && w.written[c] == v.written[c]
  {
    if channel in v.queues {
      var q := v.queues[channel];
      var n := DeadFront(v, q);
      if n < |q| {
        DispatchKeepsSevered(v.(queues := v.queues[channel := q[n + 1..]]), q[n], writeOk, c);
      }
    }
  }

  lemma StepKeepsSevered(v: View, op: Op, c: Cell)
    requires Inv(v) && Enabled(v, op) && Severed(v, c)
    ensures Severed(Step(v, op), c)
    ensures c in v.written && c in Step(v, op).written && Step(v, op).written[c] == v.written[c]
  {
    match op
    case OpenConnection(_, _, _, _, _, _) =>
    case Arrive(fd, body, writeOk) => EnqueueKeepsSevered(v, fd, body, writeOk, c);
    case DeliverFrom(channel, writeOk) => DeliverKeepsSevered(v, channel, writeOk, c);
    case CloseConnection(fd) => CloseKeepsSevered(v, fd, c);
    case TagUnintercepted(_) =>
    case PartitionNode(_) =>
    case RecoverNode(node) =>
      RecoverIsClosed(v, node);
      ClosedKeepsSevered(v, Recover(v, node), Touching(v, node), c);
  }

  lemma {:induction false} RunKeepsSevered(v: View, ops: seq<Op>, c: Cell)
    requires Inv(v) && IsRun(v, ops) && Severed(v, c)
    ensures Severed(Exec(v, ops), c)
    ensures c in v.written && c in Exec(v, ops).written && Exec(v, ops).written[c] == v.written[c]
    decreases |ops|
  {
    if ops != [] {
      StepKeepsInv(v, ops[0]);
      StepKeepsSevered(v, ops[0], c);
      RunKeepsSevered(Step(v, ops[0]), ops[1..], c);
    }
  }

  /** After partition(node), and whatever happens then, recovers and reused descriptors included: nothing is ever
      written again to either end of a connection that touched the node. */
  lemma PartitionLasts(v: View, node: Addr, ops: seq<Op>, fd: int)
    requires Inv(v) && IsRun(Partition(v, node), ops) && fd in v.table && v.table[fd].channel.Touches(node)
    ensures var w := Exec(Partition(v, node), ops);
            && Severed(w, v.table[fd].selfFd) && Severed(w, v.table[fd].peerFd)
            && forall c :: c in {v.table[fd].selfFd, v.table[fd].peerFd} ==>
                 c in v.written && c in w.written && w.written[c] == v.written[c]
  {
    PartitionKeepsInv(v, node);
    PeersMatch(v, fd, fd);
    RunKeepsSevered(Partition(v, node), ops, v.table[fd].selfFd);
    RunKeepsSevered(Partition(v, node), ops, v.table[fd].peerFd);
  }

  // ---- Nothing is made up

  /** Also of tagged and closed connections: what was written to an end is the beginning of what came in for it. */
  ghost predicate WrittenCameIn(v: View) {
    forall c :: c in v.fds ==> c in v.written && c in v.received && v.written[c] <= v.received[c]
  }

  lemma ReceivedCameIn(v: View, m: Msg)
    requires Wired(v) && WrittenCameIn(v)
    ensures WrittenCameIn(Receive(v, m))
  {
  }

  lemma WriteCameIn(v: View, m: Msg)
    requires Wired(v) && Conserved(v, [m]) && WrittenCameIn(v) && Untagged(v, m.fd)
    ensures m.fd in v.written
    ensures WrittenCameIn(v.(written := v.written[m.fd := v.written[m.fd] + [m.body]]))
  {
    assert ConservedAt(v, [m], m.fd);
    PendingOne(m, m.fd);
  }

  lemma DispatchCameIn(v: View, channel: Channel, m: Msg, writeOk: bool)
    requires Wired(v) && Conserved(v, [m]) && Faces(v, channel, m) && v.fds[m.fd] >= 0 && WrittenCameIn(v)
    ensures WrittenCameIn(Dispatch(v, m, writeOk).0)
  {
    var fd, w := v.fds[m.fd], Dispatch(v, m, writeOk).0;
    DispatchKeepsInv(v, channel, m, writeOk);
    if Dispatch(v, m, writeOk).1 == Delivered {
      WriteCameIn(v, m);
    } else {
      CloseView(v, fd);
      assert w.written == v.written && w.received == v.received && w.fds.Keys == v.fds.Keys;
    }
  }

  lemma EnqueueCameIn(v: View, fd: int, body: Bytes, writeOk: bool)
    requires Inv(v) && fd in v.table && WrittenCameIn(v)
    ensures WrittenCameIn(Enqueue(v, fd, body, writeOk))
  {
    var e := v.table[fd];
    var m := Msg(e.peerFd, body);
    ReceivedCameIn(v, m);
    if !e.disconnected && v.isDirect {
      ReceiveDirect(v, m);
      DispatchCameIn(Receive(v, m), e.channel, m, writeOk);
    }
  }

  lemma DeliverCameIn(v: View, channel: Channel, writeOk: bool)
    requires Inv(v) && WrittenCameIn(v)
    ensures WrittenCameIn(Deliver(v, channel, writeOk).0)
  {
    if channel in v.queues {
      var q := v.queues[channel];
      var n := DeadFront(v, q);
      PopKeeps(v, channel);
      if n < |q| {
        DispatchCameIn(v.(queues := v.queues[channel := q[n + 1..]]), channel, q[n], writeOk);
      }
    }
  }

  lemma StepCameIn(v: View, op: Op)
    requires Inv(v) && Enabled(v, op) && WrittenCameIn(v)
    ensures WrittenCameIn(Step(v, op))
  {
    match op
    case OpenConnection(_, _, _, _, _, _) =>
    case Arrive(fd, body, writeOk) => EnqueueCameIn(v, fd, body, writeOk);
    case DeliverFrom(channel, writeOk) => DeliverCameIn(v, channel, writeOk);
    case CloseConnection(fd) => if fd in v.table { CloseIsClosed(v, fd); }
    case TagUnintercepted(_) =>
    case PartitionNode(_) =>
    case RecoverNode(_) =>
  }

  lemma {:induction false} RunCameIn(v: View, ops: seq<Op>)
    requires Inv(v) && IsRun(v, ops) && WrittenCameIn(v)
    ensures WrittenCameIn(Exec(v, ops))
    decreases |ops|
  {
    if ops != [] {
      StepKeepsInv(v, ops[0]);
      StepCameIn(v, ops[0]);
      RunCameIn(Step(v, ops[0]), ops[1..]);
    }
  }

  /** In every state of every run, for every end ever opened: what was written to it is the beginning of what came in
      for it.  Nothing is made up, repeated or put out of order, failed writes, partitions and recovers included. */
  lemma NothingMadeUp(isDirect: bool, ops: seq<Op>, c: Cell)
    requires IsRun(InitView(isDirect), ops) && c in Exec(InitView(isDirect), ops).fds
    ensures var v := Exec(InitView(isDirect), ops);
            c in v.written && c in v.received && v.written[c] <= v.received[c]
  {
    InitInv(isDirect);
    RunCameIn(InitView(isDirect), ops);
  }

  // ---- Channels go by the address of the node

  ghost predicate BareChannel(ch: Channel) {
    ch.first.port == 0 && ch.second.port == 0
  }

  ghost predicate NoPorts(v: View) {
    && (forall f :: f in v.table ==> BareChannel(v.table[f].channel))
    && (forall ch :: ch in v.queues ==> BareChannel(ch))
  }

  lemma EnqueueNoPorts(v: View, fd: int, body: Bytes, writeOk: bool)
    requires Inv(v) && fd in v.table && NoPorts(v)
    ensures NoPorts(Enqueue(v, fd, body, writeOk))
  {
    EnqueueMeans(v, fd, body, writeOk);
  }

  lemma DeliverNoPorts(v: View, channel: Channel, writeOk: bool)
    requires Inv(v) && NoPorts(v)
    ensures NoPorts(Deliver(v, channel, writeOk).0)
  {
    var k := DeliverMeans(v, channel, writeOk);
  }

  lemma StepNoPorts(v: View, op: Op)
    requires Inv(v) && Enabled(v, op) && NoPorts(v)
    ensures NoPorts(Step(v, op))
  {
    match op
    case OpenConnection(srcFd, dstFd, srcCell, dstCell, src, dst) =>
      OpenEntries(v, srcFd, dstFd, srcCell, dstCell, src, dst);
    case Arrive(fd, body, writeOk) => EnqueueNoPorts(v, fd, body, writeOk);
    case DeliverFrom(channel, writeOk) => DeliverNoPorts(v, channel, writeOk);
    case CloseConnection(fd) => if fd in v.table { CloseIsClosed(v, fd); }
    case TagUnintercepted(_) =>
    case PartitionNode(_) =>
    case RecoverNode(node) => RecoverMeans(v, node);
  }

  lemma {:induction false} RunNoPorts(v: View, ops: seq<Op>)
    requires Inv(v) && IsRun(v, ops) && NoPorts(v)
    ensures NoPorts(Exec(v, ops))
    decreases |ops|
  {
    if ops != [] {
      StepKeepsInv(v, ops[0]);
      StepNoPorts(v, ops[0]);
      RunNoPorts(Step(v, ops[0]), ops[1..]);
    }
  }

  /** In every state of every run all entries and queues go by addresses without ports, whatever ports the connections
      came from: so the commands, which name nodes by such addresses, reach them all. */
  lemma ChannelsAreBare(isDirect: bool, ops: seq<Op>)
    requires IsRun(InitView(isDirect), ops)
    ensures NoPorts(Exec(InitView(isDirect), ops))
  {
    InitInv(isDirect);
    RunNoPorts(InitView(isDirect), ops);
  }

  /** A partition of either end's bare address cuts a new connection, whatever its ports. */
  lemma OpenedIsCut(
      v: View, srcFd: int, dstFd: int, srcCell: Cell, dstCell: Cell, src: Addr, dst: Addr, node: Addr)
    requires Inv(v) && Enabled(v, OpenConnection(srcFd, dstFd, srcCell, dstCell, src, dst))
    requires node == Bare(src) || node == Bare(dst)
    ensures var w := Partition(Open(v, srcFd, dstFd, srcCell, dstCell, src, dst), node);
            && srcFd in w.table && w.table[srcFd].disconnected
            && dstFd in w.table && w.table[dstFd].disconnected
  {
    var u := Open(v, srcFd, dstFd, srcCell, dstCell, src, dst);
    OpenEntries(v, srcFd, dstFd, srcCell, dstCell, src, dst);
    OpenKeepsInv(v, srcFd, dstFd, srcCell, dstCell, src, dst);
    PartitionCuts(u, node, srcFd, [], true);
    PartitionCuts(u, node, dstFd, [], true);
  }
}
