/** What every run of the network keeps: numbering, FIFO delivery, counters, and no message on a severed link.

    A run is a list of calls of the network's API; the constant FLUSH_DISCONN is a parameter. */
module NetworkRuns {
  import opened Options
  import opened FifoNetwork
  import opened Connectivity
  import opened Wires

  datatype Op =
    | Send(m: Envelope)
    | SendAll(ms: seq<Envelope>)
    | Receive(src: Node, dst: Node)
    | Answer(src: Node, dst: Node, response: Body)
    | Connect(nodes: set<Node>)
    | Disconnect(nodes: set<Node>)
    | Partition(nodes: set<Node>)
    | Cure

  predicate EnvelopeOk(nodes: set<Node>, m: Envelope) {
    m.src in nodes && m.dst in nodes && m.src != m.dst
  }

  /** What the callers guarantee: addresses are nodes, and only a message NetGetMsg returned is taken out. */
  predicate Enabled(nodes: set<Node>, net: Net, op: Op) {
    match op
    case Send(m) => EnvelopeOk(nodes, m)
    case SendAll(ms) => forall m :: m in ms ==> EnvelopeOk(nodes, m)
    case Receive(src, dst) => NetGetMsg(net, src, dst).Some?
    case Answer(src, dst, _) => NetGetMsg(net, src, dst).Some?
    case Connect(ns) => ns <= nodes
    case Disconnect(ns) => ns <= nodes
    case Partition(ns) => ns <= nodes
    case Cure => true
  }

  /** None only where the specification asserts FALSE. */
  ghost function Apply(net: Net, op: Op, flush: bool): Option<Net>
    requires op.Receive? || op.Answer? ==> NetGetMsg(net, op.src, op.dst).Some?
  {
    match op
    case Send(m) => Some(NetAddMsg(net, m))
    case SendAll(ms) => Some(NetBatchAddMsg(net, ms))
    case Receive(src, dst) => NetDelMsg(net, src, dst, NetGetMsg(net, src, dst).value.seqno)
    case Answer(src, dst, response) => NetReplyMsg(net, response, src, dst, NetGetMsg(net, src, dst).value.seqno)
    case Connect(ns) => Some(NetAddConn(net, ns))
    case Disconnect(ns) => Some(NetDelConn(net, ns, flush))
    case Partition(ns) => Some(NetPartConn(net, ns, flush))
    case Cure => Some(NetCureConn(net))
  }

  ghost function Exec(nodes: set<Node>, flush: bool, ops: seq<Op>): Option<Net> {
    if ops == [] then Some(InitNet(nodes))
    else
      match Exec(nodes, flush, ops[..|ops| - 1])
      case None => None
      case Some(net) =>
        if Enabled(nodes, net, ops[|ops| - 1]) then Apply(net, ops[|ops| - 1], flush) else None
  }

  /** The sequence numbers handed to d from s so far, in order of delivery. */
  ghost function Delivered(nodes: set<Node>, flush: bool, ops: seq<Op>, s: Node, d: Node): seq<int> {
    if ops == [] then []
    else
      var init, op := ops[..|ops| - 1], ops[|ops| - 1];
      Delivered(nodes, flush, init, s, d) +
      match Exec(nodes, flush, init)
      case None => []
      case Some(net) =>
        if (op.Receive? || op.Answer?) && op.src == s && op.dst == d && NetGetMsg(net, s, d).Some?
        then [NetGetMsg(net, s, d).value.seqno]
        else []
  }

  // ---- The invariants

  ghost predicate Numbered(net: Net) {
    forall s, d, i :: 0 <= i < |Queue(net.msgs, s, d)| ==> 1 <= Queue(net.msgs, s, d)[i].seqno <= net.man.sent
  }

  ghost predicate Increasing(q: seq<Msg>) {
    forall i, j :: 0 <= i < j < |q| ==> q[i].seqno < q[j].seqno
  }

  ghost predicate AllIncreasing(net: Net) {
    forall s, d :: Increasing(Queue(net.msgs, s, d))
  }

  /** No sequence number sits in two queues. */
  ghost predicate Unshared(net: Net) {
    forall s, d, i, s', d', j ::
      && 0 <= i < |Queue(net.msgs, s, d)|
      && 0 <= j < |Queue(net.msgs, s', d')|
      && Queue(net.msgs, s, d)[i].seqno == Queue(net.msgs, s', d')[j].seqno
      ==> s == s' && d == d'
  }

  ghost predicate Counted(net: Net) {
    && 0 <= net.man.recv
    && |Slots(net.msgs)| <= net.man.wire
    && net.man.recv + net.man.wire <= net.man.sent
  }

  ghost predicate ExactlyCounted(net: Net) {
    && |Slots(net.msgs)| == net.man.wire
    && net.man.recv + net.man.wire == net.man.sent
  }

  ghost predicate NoSeveredMessage(net: Net) {
    forall s, d :: Queue(net.msgs, s, d) != [] ==> IsConn(net.man.conn, s, d)
  }

  /** Strictly increasing, already numbered, and ahead of everything still queued. */
  ghost predicate Behind(delivered: seq<int>, q: seq<Msg>, sent: int) {
    && (forall i, j :: 0 <= i < j < |delivered| ==> delivered[i] < delivered[j])
    && (forall i :: 0 <= i < |delivered| ==> delivered[i] <= sent)
    && (forall i, k :: 0 <= i < |delivered| && 0 <= k < |q| ==> delivered[i] < q[k].seqno)
  }

  ghost predicate Inv(nodes: set<Node>, net: Net) {
    && Meshed(nodes, net.msgs)
    && Numbered(net)
    && AllIncreasing(net)
    && Unshared(net)
    && Counted(net)
  }

  // ---- Adding one message

  /** A connected message joins the end of its queue under the next number; an unconnected one changes nothing. */
  lemma AddQueue(nodes: set<Node>, net: Net, m: Envelope)
    requires Meshed(nodes, net.msgs) && EnvelopeOk(nodes, m)
    ensures Meshed(nodes, NetAddMsg(net, m).msgs)
    ensures !IsConn(net.man.conn, m.src, m.dst) ==> NetAddMsg(net, m) == net
    ensures forall s, d :: Queue(NetAddMsg(net, m).msgs, s, d) ==
                           if s == m.src && d == m.dst && IsConn(net.man.conn, s, d)
                           then Queue(net.msgs, s, d) + [Msg(net.man.sent + 1, m.body)]
                           else Queue(net.msgs, s, d)
  {
    if IsConn(net.man.conn, m.src, m.dst) {
      PutQueue(nodes, net.msgs, m.src, m.dst, Msg(net.man.sent + 1, m.body));
      assert NetAddMsg(net, m).msgs == Put(net.msgs, m.src, m.dst, Msg(net.man.sent + 1, m.body));
    } else {
      assert NetAddMsg(net, m) == net;
    }
  }

  lemma AddCounts(nodes: set<Node>, net: Net, m: Envelope)
    requires Meshed(nodes, net.msgs) && EnvelopeOk(nodes, m)
    ensures |Slots(NetAddMsg(net, m).msgs)| - |Slots(net.msgs)| == NetAddMsg(net, m).man.wire - net.man.wire
  {
    AddQueue(nodes, net, m);
    if IsConn(net.man.conn, m.src, m.dst) {
      OneMoreSlot(net.msgs, NetAddMsg(net, m).msgs, m.src, m.dst);
    }
  }

  ghost predicate NumberedQueue(q: seq<Msg>, sent: int) {
    Increasing(q) && forall i :: 0 <= i < |q| ==> 1 <= q[i].seqno <= sent
  }

  lemma SnocNumbered(q: seq<Msg>, sent: int, body: Body)
    requires NumberedQueue(q, sent) && sent >= 0
    ensures NumberedQueue(q + [Msg(sent + 1, body)], sent + 1)
  {
  }

  lemma AddKeepsNumberedAt(nodes: set<Node>, net: Net, m: Envelope, s: Node, d: Node)
    requires Meshed(nodes, net.msgs) && EnvelopeOk(nodes, m) && net.man.sent >= 0
    requires NumberedQueue(Queue(net.msgs, s, d), net.man.sent)
    ensures NumberedQueue(Queue(NetAddMsg(net, m).msgs, s, d), NetAddMsg(net, m).man.sent)
  {
    AddQueue(nodes, net, m);
    SnocNumbered(Queue(net.msgs, s, d), net.man.sent, m.body);
  }

  lemma AddKeepsNumbered(nodes: set<Node>, net: Net, m: Envelope)
    requires Inv(nodes, net) && EnvelopeOk(nodes, m)
    ensures Numbered(NetAddMsg(net, m)) && AllIncreasing(NetAddMsg(net, m))
  {
    var after := NetAddMsg(net, m);
    forall s, d ensures NumberedQueue(Queue(after.msgs, s, d), after.man.sent) {
      assert Increasing(Queue(net.msgs, s, d));
      AddKeepsNumberedAt(nodes, net, m, s, d);
    }
  }

  lemma AddKeepsUnshared(nodes: set<Node>, net: Net, m: Envelope)
    requires Meshed(nodes, net.msgs) && Numbered(net) && Unshared(net) && EnvelopeOk(nodes, m)
    ensures Unshared(NetAddMsg(net, m))
  {
    AddQueue(nodes, net, m);
    var after := NetAddMsg(net, m);
    forall s, d, i, s', d', j |
      && 0 <= i < |Queue(after.msgs, s, d)|
      && 0 <= j < |Queue(after.msgs, s', d')|
      && Queue(after.msgs, s, d)[i].seqno == Queue(after.msgs, s', d')[j].seqno
      ensures s == s' && d == d'
    {
      if Queue(after.msgs, s, d)[i].seqno <= net.man.sent {
        assert Queue(net.msgs, s, d)[i] == Queue(after.msgs, s, d)[i];
        assert Queue(net.msgs, s', d')[j] == Queue(after.msgs, s', d')[j];
      }
    }
  }

  lemma AddKeepsInv(nodes: set<Node>, net: Net, m: Envelope)
    requires Inv(nodes, net) && EnvelopeOk(nodes, m)
    ensures Inv(nodes, NetAddMsg(net, m))
  {
    AddQueue(nodes, net, m);
    AddCounts(nodes, net, m);
    AddKeepsNumbered(nodes, net, m);
    AddKeepsUnshared(nodes, net, m);
  }

  lemma AddKeepsBehind(nodes: set<Node>, net: Net, m: Envelope, s: Node, d: Node, delivered: seq<int>)
    requires Meshed(nodes, net.msgs) && EnvelopeOk(nodes, m)
    requires Behind(delivered, Queue(net.msgs, s, d), net.man.sent)
    ensures Behind(delivered, Queue(NetAddMsg(net, m).msgs, s, d), NetAddMsg(net, m).man.sent)
  {
    AddQueue(nodes, net, m);
  }

  // ---- Taking one message out

  lemma DelQueue(nodes: set<Node>, net: Net, src: Node, dst: Node)
    requires Meshed(nodes, net.msgs) && NetGetMsg(net, src, dst).Some?
    ensures src in nodes && dst in nodes && src != dst
    ensures NetDelMsg(net, src, dst, NetGetMsg(net, src, dst).value.seqno).Some?
    ensures var after := NetDelMsg(net, src, dst, NetGetMsg(net, src, dst).value.seqno).value;
            && Meshed(nodes, after.msgs)
            && after.man == net.man.(wire := net.man.wire - 1, recv := net.man.recv + 1)
            && forall s, d :: Queue(after.msgs, s, d) ==
                              if s == src && d == dst then Queue(net.msgs, s, d)[1..] else Queue(net.msgs, s, d)
  {
    DelMsgQueue(nodes, net.msgs, src, dst, NetGetMsg(net, src, dst).value.seqno);
  }

  ghost function Taken(net: Net, src: Node, dst: Node): Net
    requires NetGetMsg(net, src, dst).Some?
  {
    match NetDelMsg(net, src, dst, NetGetMsg(net, src, dst).value.seqno)
    case Some(after) => after
    case None => net
  }

  lemma DelCounts(nodes: set<Node>, net: Net, src: Node, dst: Node)
    requires Meshed(nodes, net.msgs) && NetGetMsg(net, src, dst).Some?
    ensures |Slots(Taken(net, src, dst).msgs)| == |Slots(net.msgs)| - 1
  {
    DelQueue(nodes, net, src, dst);
    OneMoreSlot(Taken(net, src, dst).msgs, net.msgs, src, dst);
  }

  lemma TailIncreasing(q: seq<Msg>)
    requires Increasing(q) && q != []
    ensures Increasing(q[1..])
  {
  }

  /** Every message left after taking one out was there before. */
  lemma TakenFrom(nodes: set<Node>, net: Net, src: Node, dst: Node, s: Node, d: Node, i: int)
    requires Meshed(nodes, net.msgs) && NetGetMsg(net, src, dst).Some?
    requires 0 <= i < |Queue(Taken(net, src, dst).msgs, s, d)|
    ensures exists i' :: 0 <= i' < |Queue(net.msgs, s, d)|
                         && Queue(net.msgs, s, d)[i'] == Queue(Taken(net, src, dst).msgs, s, d)[i]
  {
    DelQueue(nodes, net, src, dst);
    var i' := if s == src && d == dst then i + 1 else i;
    assert Queue(net.msgs, s, d)[i'] == Queue(Taken(net, src, dst).msgs, s, d)[i];
  }

  lemma DelKeepsUnshared(nodes: set<Node>, net: Net, src: Node, dst: Node)
    requires Meshed(nodes, net.msgs) && NetGetMsg(net, src, dst).Some? && Unshared(net)
    ensures Unshared(Taken(net, src, dst))
  {
    var after := Taken(net, src, dst);
    forall s, d, i, s', d', j |
      && 0 <= i < |Queue(after.msgs, s, d)|
      && 0 <= j < |Queue(after.msgs, s', d')|
      && Queue(after.msgs, s, d)[i].seqno == Queue(after.msgs, s', d')[j].seqno
      ensures s == s' && d == d'
    {
      TakenFrom(nodes, net, src, dst, s, d, i);
      TakenFrom(nodes, net, src, dst, s', d', j);
    }
  }

  lemma DelKeepsNumbered(nodes: set<Node>, net: Net, src: Node, dst: Node)
    requires Meshed(nodes, net.msgs) && NetGetMsg(net, src, dst).Some? && Numbered(net)
    ensures Numbered(Taken(net, src, dst))
  {
    DelQueue(nodes, net, src, dst);
    var after := Taken(net, src, dst);
    forall s, d, i | 0 <= i < |Queue(after.msgs, s, d)|
      ensures 1 <= Queue(after.msgs, s, d)[i].seqno <= after.man.sent
    {
      TakenFrom(nodes, net, src, dst, s, d, i);
    }
  }

  lemma DelKeepsInv(nodes: set<Node>, net: Net, src: Node, dst: Node)
    requires Inv(nodes, net) && NetGetMsg(net, src, dst).Some?
    ensures Inv(nodes, Taken(net, src, dst))
  {
    DelQueue(nodes, net, src, dst);
    DelCounts(nodes, net, src, dst);
    DelKeepsNumbered(nodes, net, src, dst);
    DelKeepsUnshared(nodes, net, src, dst);
    var after := Taken(net, src, dst);
    forall s, d ensures Increasing(Queue(after.msgs, s, d)) {
      assert Increasing(Queue(net.msgs, s, d));
      if s == src && d == dst {
        TailIncreasing(Queue(net.msgs, s, d));
      }
    }
  }

  lemma BehindTail(delivered: seq<int>, q: seq<Msg>, sent: int)
    requires Behind(delivered, q, sent) && Increasing(q) && q != [] && q[0].seqno <= sent
    ensures Behind(delivered + [q[0].seqno], q[1..], sent)
  {
  }

  lemma DelAdvances(nodes: set<Node>, net: Net, src: Node, dst: Node, s: Node, d: Node, delivered: seq<int>)
    requires Inv(nodes, net) && NetGetMsg(net, src, dst).Some?
    requires Behind(delivered, Queue(net.msgs, s, d), net.man.sent)
    ensures Behind(
        delivered + if s == src && d == dst then [NetGetMsg(net, src, dst).value.seqno] else [],
        Queue(Taken(net, src, dst).msgs, s, d), net.man.sent)
  {
    DelQueue(nodes, net, src, dst);
    var q := Queue(net.msgs, s, d);
    if s == src && d == dst {
      assert Increasing(q);
      assert 1 <= q[0].seqno <= net.man.sent;
      BehindTail(delivered, q, net.man.sent);
    } else {
      assert delivered + [] == delivered;
    }
  }

  /** Answering is receiving the request and then sending the response. */
  lemma ReplyIsDelThenAdd(nodes: set<Node>, net: Net, response: Body, src: Node, dst: Node)
    requires Meshed(nodes, net.msgs) && NetGetMsg(net, src, dst).Some?
    ensures NetReplyMsg(net, response, src, dst, NetGetMsg(net, src, dst).value.seqno)
            == Some(NetAddMsg(Taken(net, src, dst), Envelope(dst, src, response)))
  {
    DelQueue(nodes, net, src, dst);
  }

  // ---- Flushing

  /** After the step every queue is what it was, or empty. */
  ghost predicate OnlyFlushed(net: Net, after: Net) {
    forall s, d :: Queue(after.msgs, s, d) == Queue(net.msgs, s, d) || Queue(after.msgs, s, d) == []
  }

  lemma FlushShrinks(net: Net, after: Net)
    requires OnlyFlushed(net, after)
    ensures Slots(after.msgs) <= Slots(net.msgs)
    ensures |Slots(after.msgs)| <= |Slots(net.msgs)|
  {
    forall x | x in Slots(after.msgs) ensures x in Slots(net.msgs) {
      SlotsMeans(after.msgs, x.0, x.1, x.2);
      SlotsMeans(net.msgs, x.0, x.1, x.2);
    }
    SubsetCount(Slots(after.msgs), Slots(net.msgs));
  }

  lemma SubsetCount<T>(small: set<T>, big: set<T>)
    requires small <= big
    ensures |small| <= |big|
    ensures |small| == |big| ==> small == big
  {
    DisjointCount(big, small, big - small);
  }

  lemma FlushKeepsInv(nodes: set<Node>, net: Net, after: Net)
    requires Inv(nodes, net) && OnlyFlushed(net, after) && Meshed(nodes, after.msgs)
    requires after.man.sent == net.man.sent && after.man.recv == net.man.recv
    requires after.man.wire == |Slots(net.msgs)| || after.man.wire == net.man.wire
    ensures Inv(nodes, after)
  {
    FlushShrinks(net, after);
    forall s, d ensures Increasing(Queue(after.msgs, s, d)) {
      assert Increasing(Queue(net.msgs, s, d));
    }
  }

  lemma PartQueues(nodes: set<Node>, net: Net, part: set<Node>, flush: bool)
    requires Meshed(nodes, net.msgs) && part <= nodes
    ensures var after := NetPartConn(net, part, flush);
            && Meshed(nodes, after.msgs)
            && (flush ==>
                 forall s, d :: Queue(after.msgs, s, d) == if Crosses(part, s, d) then [] else Queue(net.msgs, s, d))
            && OnlyFlushed(net, after)
            && after.man.wire == if flush then |Slots(net.msgs)| else net.man.wire
  {
    FlushMsgsQueues(nodes, part, net.msgs);
    WireSumCounts(net.msgs);
  }

  lemma DelConnQueues(nodes: set<Node>, net: Net, deleted: set<Node>, flush: bool)
    requires Meshed(nodes, net.msgs) && deleted <= nodes
    ensures var after := NetDelConn(net, deleted, flush);
            && Meshed(nodes, after.msgs)
            && (flush ==> forall s, d :: Queue(after.msgs, s, d) ==
                                         if s in deleted || d in deleted then [] else Queue(net.msgs, s, d))
            && OnlyFlushed(net, after)
            && after.man.wire == if flush then |Slots(net.msgs)| else net.man.wire
  {
    FlushMsgsDelQueues(nodes, deleted, net.msgs);
    WireSumCounts(net.msgs);
  }

  // ---- Batches

  lemma {:induction false} AddEachKeepsInv(nodes: set<Node>, net: Net, ms: seq<Envelope>)
    requires Inv(nodes, net) && forall m :: m in ms ==> EnvelopeOk(nodes, m)
    ensures Inv(nodes, AddEach(net, ms))
  {
    if ms != [] {
      AddEachKeepsInv(nodes, net, ms[..|ms| - 1]);
      AddKeepsInv(nodes, AddEach(net, ms[..|ms| - 1]), ms[|ms| - 1]);
    }
  }

  lemma {:induction false} AddEachKeepsBehind(nodes: set<Node>, net: Net, ms: seq<Envelope>,
                                              s: Node, d: Node, delivered: seq<int>)
    requires Inv(nodes, net) && forall m :: m in ms ==> EnvelopeOk(nodes, m)
    requires Behind(delivered, Queue(net.msgs, s, d), net.man.sent)
    ensures Behind(delivered, Queue(AddEach(net, ms).msgs, s, d), AddEach(net, ms).man.sent)
  {
    if ms != [] {
      AddEachKeepsBehind(nodes, net, ms[..|ms| - 1], s, d, delivered);
      AddEachKeepsInv(nodes, net, ms[..|ms| - 1]);
      AddKeepsBehind(nodes, AddEach(net, ms[..|ms| - 1]), ms[|ms| - 1], s, d, delivered);
    }
  }

  // ---- One step

  /** No Assert fires on an enabled call, and the invariants survive it. */
  lemma StepKeepsInv(nodes: set<Node>, net: Net, op: Op, flush: bool)
    requires Inv(nodes, net) && Enabled(nodes, net, op)
    ensures Apply(net, op, flush).Some?
    ensures Inv(nodes, Apply(net, op, flush).value)
  {
    match op
    case Send(m) => AddKeepsInv(nodes, net, m);
    case SendAll(ms) =>
      BatchIsAddEach(net, ms);
      AddEachKeepsInv(nodes, net, ms);
    case Receive(src, dst) =>
      DelQueue(nodes, net, src, dst);
      DelKeepsInv(nodes, net, src, dst);
    case Answer(src, dst, response) =>
      DelQueue(nodes, net, src, dst);
      ReplyIsDelThenAdd(nodes, net, response, src, dst);
      DelKeepsInv(nodes, net, src, dst);
      AddKeepsInv(nodes, Taken(net, src, dst), Envelope(dst, src, response));
    case Connect(ns) => FlushKeepsInv(nodes, net, NetAddConn(net, ns));
    case Disconnect(ns) =>
      DelConnQueues(nodes, net, ns, flush);
      FlushKeepsInv(nodes, net, NetDelConn(net, ns, flush));
    case Partition(ns) =>
      PartQueues(nodes, net, ns, flush);
      FlushKeepsInv(nodes, net, NetPartConn(net, ns, flush));
    case Cure => FlushKeepsInv(nodes, net, NetCureConn(net));
  }

  lemma FlushKeepsBehind(net: Net, after: Net, s: Node, d: Node, delivered: seq<int>)
    requires Behind(delivered, Queue(net.msgs, s, d), net.man.sent)
    requires OnlyFlushed(net, after) && after.man.sent == net.man.sent
    ensures Behind(delivered, Queue(after.msgs, s, d), after.man.sent)
  {
  }

  lemma StepAdvances(nodes: set<Node>, net: Net, op: Op, flush: bool, s: Node, d: Node, delivered: seq<int>)
    requires Inv(nodes, net) && Enabled(nodes, net, op) && Apply(net, op, flush).Some?
    requires Behind(delivered, Queue(net.msgs, s, d), net.man.sent)
    ensures var after := Apply(net, op, flush).value;
            var taken := if (op.Receive? || op.Answer?) && op.src == s && op.dst == d && NetGetMsg(net, s, d).Some?
                         then [NetGetMsg(net, s, d).value.seqno] else [];
            Behind(delivered + taken, Queue(after.msgs, s, d), after.man.sent)
  {
    assert delivered + [] == delivered;
    match op
    case Send(m) => AddKeepsBehind(nodes, net, m, s, d, delivered);
    case SendAll(ms) =>
      BatchIsAddEach(net, ms);
      AddEachKeepsBehind(nodes, net, ms, s, d, delivered);
    case Receive(src, dst) =>
      DelQueue(nodes, net, src, dst);
      DelAdvances(nodes, net, src, dst, s, d, delivered);
    case Answer(src, dst, response) =>
      DelQueue(nodes, net, src, dst);
      DelAdvances(nodes, net, src, dst, s, d, delivered);
      DelKeepsInv(nodes, net, src, dst);
      ReplyIsDelThenAdd(nodes, net, response, src, dst);
      AddKeepsBehind(nodes, Taken(net, src, dst), Envelope(dst, src, response), s, d,
        delivered + if s == src && d == dst then [NetGetMsg(net, src, dst).value.seqno] else []);
    case Connect(ns) => FlushKeepsBehind(net, NetAddConn(net, ns), s, d, delivered);
    case Disconnect(ns) =>
      DelConnQueues(nodes, net, ns, flush);
      FlushKeepsBehind(net, NetDelConn(net, ns, flush), s, d, delivered);
    case Partition(ns) =>
      PartQueues(nodes, net, ns, flush);
      FlushKeepsBehind(net, NetPartConn(net, ns, flush), s, d, delivered);
    case Cure => FlushKeepsBehind(net, NetCureConn(net), s, d, delivered);
  }

  // ---- Whole runs

  lemma InitInv(nodes: set<Node>)
    ensures Inv(nodes, InitNet(nodes)) && ExactlyCounted(InitNet(nodes)) && NoSeveredMessage(InitNet(nodes))
  {
    var net := InitNet(nodes);
    forall s, d ensures Queue(net.msgs, s, d) == [] {}
    assert Slots(net.msgs) == {};
  }

  lemma {:induction false} RunInv(nodes: set<Node>, flush: bool, ops: seq<Op>)
    requires Exec(nodes, flush, ops).Some?
    ensures Inv(nodes, Exec(nodes, flush, ops).value)
  {
    if ops == [] {
      InitInv(nodes);
    } else {
      RunInv(nodes, flush, ops[..|ops| - 1]);
      StepKeepsInv(nodes, Exec(nodes, flush, ops[..|ops| - 1]).value, ops[|ops| - 1], flush);
    }
  }

  /** FIFO delivery: on every channel of every run the delivered numbers strictly increase,
      and stay below everything still in the queue. */
  lemma {:induction false} DeliveryIncreases(nodes: set<Node>, flush: bool, ops: seq<Op>, s: Node, d: Node)
    requires Exec(nodes, flush, ops).Some?
    ensures var net := Exec(nodes, flush, ops).value;
            Behind(Delivered(nodes, flush, ops, s, d), Queue(net.msgs, s, d), net.man.sent)
  {
    if ops != [] {
      var init := ops[..|ops| - 1];
      DeliveryIncreases(nodes, flush, init, s, d);
      RunInv(nodes, flush, init);
      StepAdvances(nodes, Exec(nodes, flush, init).value, ops[|ops| - 1], flush, s, d,
        Delivered(nodes, flush, init, s, d));
    }
  }

  /** The numbers in flight are all different, wherever they sit. */
  lemma NumbersUnique(nodes: set<Node>, flush: bool, ops: seq<Op>, s: Node, d: Node, i: int, s': Node, d': Node, j: int)
    requires Exec(nodes, flush, ops).Some?
    requires 0 <= i < |Queue(Exec(nodes, flush, ops).value.msgs, s, d)|
    requires 0 <= j < |Queue(Exec(nodes, flush, ops).value.msgs, s', d')|
    requires Queue(Exec(nodes, flush, ops).value.msgs, s, d)[i].seqno
             == Queue(Exec(nodes, flush, ops).value.msgs, s', d')[j].seqno
    ensures s == s' && d == d' && i == j
  {
    RunInv(nodes, flush, ops);
    var net := Exec(nodes, flush, ops).value;
    assert Increasing(Queue(net.msgs, s, d));
  }

  ghost predicate FlushFree(ops: seq<Op>) {
    forall op :: op in ops ==> !op.Partition? && !op.Disconnect?
  }

  ghost predicate Flushes(op: Op, flush: bool) {
    flush && (op.Partition? || op.Disconnect?)
  }

  /** How many messages the last flush threw away. */
  ghost function LastThrown(nodes: set<Node>, flush: bool, ops: seq<Op>): int
    requires Exec(nodes, flush, ops).Some?
  {
    if ops == [] then 0
    else
      var init := ops[..|ops| - 1];
      if Flushes(ops[|ops| - 1], flush)
      then |Slots(Exec(nodes, flush, init).value.msgs)| - |Slots(Exec(nodes, flush, ops).value.msgs)|
      else LastThrown(nodes, flush, init)
  }

  /** How many all flushes threw away. */
  ghost function AllThrown(nodes: set<Node>, flush: bool, ops: seq<Op>): int
    requires Exec(nodes, flush, ops).Some?
  {
    if ops == [] then 0
    else
      var init := ops[..|ops| - 1];
      AllThrown(nodes, flush, init) +
      if Flushes(ops[|ops| - 1], flush)
      then |Slots(Exec(nodes, flush, init).value.msgs)| - |Slots(Exec(nodes, flush, ops).value.msgs)|
      else 0
  }

  /** Queues and counters move together. */
  ghost predicate Steady(net: Net, after: Net) {
    && after.man.wire - |Slots(after.msgs)| == net.man.wire - |Slots(net.msgs)|
    && after.man.sent - after.man.recv - |Slots(after.msgs)| == net.man.sent - net.man.recv - |Slots(net.msgs)|
  }

  lemma {:induction false} AddEachSteady(nodes: set<Node>, net: Net, ms: seq<Envelope>)
    requires Inv(nodes, net) && forall m :: m in ms ==> EnvelopeOk(nodes, m)
    ensures Steady(net, AddEach(net, ms))
  {
    if ms != [] {
      AddEachSteady(nodes, net, ms[..|ms| - 1]);
      AddEachKeepsInv(nodes, net, ms[..|ms| - 1]);
      AddCounts(nodes, AddEach(net, ms[..|ms| - 1]), ms[|ms| - 1]);
    }
  }

  /** Only a flush takes queues and counters apart. */
  lemma StepSteady(nodes: set<Node>, net: Net, op: Op, flush: bool)
    requires Inv(nodes, net) && Enabled(nodes, net, op) && Apply(net, op, flush).Some? && !Flushes(op, flush)
    ensures Steady(net, Apply(net, op, flush).value)
  {
    match op
    case Send(m) => AddCounts(nodes, net, m);
    case SendAll(ms) =>
      BatchIsAddEach(net, ms);
      AddEachSteady(nodes, net, ms);
    case Receive(src, dst) =>
      DelQueue(nodes, net, src, dst);
      DelCounts(nodes, net, src, dst);
    case Answer(src, dst, response) =>
      DelQueue(nodes, net, src, dst);
      DelCounts(nodes, net, src, dst);
      DelKeepsInv(nodes, net, src, dst);
      ReplyIsDelThenAdd(nodes, net, response, src, dst);
      AddCounts(nodes, Taken(net, src, dst), Envelope(dst, src, response));
    case _ =>
  }

  lemma FlushCounts(net: Net, op: Op)
    requires Flushes(op, true)
    ensures var after := Apply(net, op, true).value;
            after.man.wire == |Slots(net.msgs)| && after.man.sent == net.man.sent && after.man.recv == net.man.recv
  {
    WireSumCounts(net.msgs);
  }

  /** Conservation, over every run: n_wire is the number of queued messages and of those that the last flush threw away;
      every message sent was delivered, is queued, or was thrown away by some flush. */
  lemma {:induction false} MessagesConserved(nodes: set<Node>, flush: bool, ops: seq<Op>)
    requires Exec(nodes, flush, ops).Some?
    ensures var net := Exec(nodes, flush, ops).value;
            && net.man.wire == |Slots(net.msgs)| + LastThrown(nodes, flush, ops)
            && net.man.sent == net.man.recv + |Slots(net.msgs)| + AllThrown(nodes, flush, ops)
  {
    if ops == [] {
      InitInv(nodes);
    } else {
      var init, op := ops[..|ops| - 1], ops[|ops| - 1];
      MessagesConserved(nodes, flush, init);
      RunInv(nodes, flush, init);
      if Flushes(op, flush) {
        FlushCounts(Exec(nodes, flush, init).value, op);
      } else {
        StepSteady(nodes, Exec(nodes, flush, init).value, op, flush);
      }
    }
  }

  lemma {:induction false} NothingThrown(nodes: set<Node>, flush: bool, ops: seq<Op>)
    requires Exec(nodes, flush, ops).Some? && FlushFree(ops)
    ensures LastThrown(nodes, flush, ops) == 0 && AllThrown(nodes, flush, ops) == 0
  {
    if ops != [] {
      assert ops[|ops| - 1] in ops;
      NothingThrown(nodes, flush, ops[..|ops| - 1]);
    }
  }

  /** Until the first partition the counters are exact. */
  lemma CountersExact(nodes: set<Node>, flush: bool, ops: seq<Op>)
    requires Exec(nodes, flush, ops).Some? && FlushFree(ops)
    ensures ExactlyCounted(Exec(nodes, flush, ops).value)
  {
    MessagesConserved(nodes, flush, ops);
    NothingThrown(nodes, flush, ops);
  }

  /** Right after a flushing partition, n_wire is the number of queued messages exactly when
      no message sat on a queue crossing the partition; otherwise it is too large. */
  lemma PartitionCountExact(nodes: set<Node>, net: Net, part: set<Node>)
    requires Inv(nodes, net) && part <= nodes
    ensures var after := NetPartConn(net, part, true);
            after.man.wire == |Slots(after.msgs)| <==>
            forall s, d :: Crosses(part, s, d) ==> Queue(net.msgs, s, d) == []
  {
    var after := NetPartConn(net, part, true);
    PartQueues(nodes, net, part, true);
    FlushShrinks(net, after);
    SubsetCount(Slots(after.msgs), Slots(net.msgs));
    if after.man.wire == |Slots(after.msgs)| {
      forall s, d | Crosses(part, s, d) ensures Queue(net.msgs, s, d) == [] {
        SlotsMeans(after.msgs, s, d, 0);
        SlotsMeans(net.msgs, s, d, 0);
      }
    } else {
      assert Slots(after.msgs) != Slots(net.msgs);
      var x :| x in Slots(net.msgs) && x !in Slots(after.msgs);
      SlotsMeans(after.msgs, x.0, x.1, x.2);
      SlotsMeans(net.msgs, x.0, x.1, x.2);
      assert Crosses(part, x.0, x.1) && Queue(net.msgs, x.0, x.1) != [];
    }
  }

  // ---- Severed links

  lemma {:induction false} AddEachLive(nodes: set<Node>, net: Net, ms: seq<Envelope>)
    requires Inv(nodes, net) && NoSeveredMessage(net) && forall m :: m in ms ==> EnvelopeOk(nodes, m)
    ensures NoSeveredMessage(AddEach(net, ms))
  {
    if ms != [] {
      AddEachLive(nodes, net, ms[..|ms| - 1]);
      AddEachKeepsInv(nodes, net, ms[..|ms| - 1]);
      AddQueue(nodes, AddEach(net, ms[..|ms| - 1]), ms[|ms| - 1]);
    }
  }

  /** Messages that are sent find a link; the links do not change. */
  lemma MessageLive(nodes: set<Node>, net: Net, op: Op)
    requires Inv(nodes, net) && Enabled(nodes, net, op) && Apply(net, op, true).Some? && NoSeveredMessage(net)
    requires op.Send? || op.SendAll? || op.Receive? || op.Answer?
    ensures NoSeveredMessage(Apply(net, op, true).value)
  {
    match op
    case Send(m) => AddQueue(nodes, net, m);
    case SendAll(ms) =>
      BatchIsAddEach(net, ms);
      AddEachLive(nodes, net, ms);
    case Receive(src, dst) => DelQueue(nodes, net, src, dst);
    case Answer(src, dst, response) =>
      DelQueue(nodes, net, src, dst);
      ReplyIsDelThenAdd(nodes, net, response, src, dst);
      AddQueue(nodes, Taken(net, src, dst), Envelope(dst, src, response));
  }

  lemma StepLive(nodes: set<Node>, net: Net, op: Op)
    requires Inv(nodes, net) && Enabled(nodes, net, op) && Apply(net, op, true).Some? && NoSeveredMessage(net)
    ensures NoSeveredMessage(Apply(net, op, true).value)
  {
    var after := Apply(net, op, true).value;
    match op
    case Connect(ns) =>
      forall s, d | Queue(after.msgs, s, d) != [] ensures IsConn(after.man.conn, s, d) {
        AddConnPairs(ns, net.man.conn, s, d);
      }
    case Disconnect(ns) =>
      DelConnQueues(nodes, net, ns, true);
      forall s, d | Queue(after.msgs, s, d) != [] ensures IsConn(after.man.conn, s, d) {
        DelConnPairs(ns, net.man.conn, s, d);
      }
    case Partition(ns) =>
      PartQueues(nodes, net, ns, true);
      forall s, d | Queue(after.msgs, s, d) != [] ensures IsConn(after.man.conn, s, d) {
        PartConnPairs(ns, net.man.conn, s, d);
      }
    case Cure =>
      forall s, d | Queue(after.msgs, s, d) != [] ensures IsConn(after.man.conn, s, d) {
        IsConnMeans(after.man.conn, s, d);
        assert nodes in after.man.conn;
      }
    case _ => MessageLive(nodes, net, op);
  }

  /** With FLUSH_DISCONN no message ever sits on a severed link. */
  lemma {:induction false} RunLive(nodes: set<Node>, ops: seq<Op>)
    requires Exec(nodes, true, ops).Some?
    ensures NoSeveredMessage(Exec(nodes, true, ops).value)
  {
    if ops == [] {
      InitInv(nodes);
    } else {
      RunLive(nodes, ops[..|ops| - 1]);
      RunInv(nodes, true, ops[..|ops| - 1]);
      StepLive(nodes, Exec(nodes, true, ops[..|ops| - 1]).value, ops[|ops| - 1]);
    }
  }

  // ---- The connection list over runs that only partition and cure

  ghost predicate PartsAndCures(ops: seq<Op>) {
    forall op :: op in ops ==> !op.Connect? && !op.Disconnect?
  }

  lemma {:induction false} AddEachConn(net: Net, ms: seq<Envelope>)
    ensures AddEach(net, ms).man.conn == net.man.conn
  {
    if ms != [] {
      AddEachConn(net, ms[..|ms| - 1]);
    }
  }

  /** Partitions and cures keep the list a list of pairwise disjoint groups. */
  lemma {:induction false} RunGroups(nodes: set<Node>, flush: bool, ops: seq<Op>)
    requires Exec(nodes, flush, ops).Some? && PartsAndCures(ops)
    ensures Groups(nodes, Exec(nodes, flush, ops).value.man.conn)
  {
    if ops != [] {
      var init, op := ops[..|ops| - 1], ops[|ops| - 1];
      assert PartsAndCures(init) && op in ops;
      RunGroups(nodes, flush, init);
      RunInv(nodes, flush, init);
      var net := Exec(nodes, flush, init).value;
      match op
      case Send(_) =>
      case SendAll(ms) =>
        BatchIsAddEach(net, ms);
        AddEachConn(net, ms);
      case Receive(_, _) =>
      case Answer(_, _, _) =>
      case Partition(ns) => PartConnGroups(nodes, net.man.conn, ns);
      case Cure =>
    }
  }

  /** So being connected is symmetric and transitive, and NetIsParted says that some pair is cut off. */
  lemma RunConnectivity(nodes: set<Node>, flush: bool, ops: seq<Op>, a: Node, b: Node, c: Node)
    requires Exec(nodes, flush, ops).Some? && PartsAndCures(ops)
    ensures var net := Exec(nodes, flush, ops).value;
            && (IsConn(net.man.conn, a, b) ==> IsConn(net.man.conn, b, a))
            && (IsConn(net.man.conn, a, b) && IsConn(net.man.conn, b, c) ==> IsConn(net.man.conn, a, c))
            && (|nodes| >= 2 ==>
                 (IsParted(net) <==>
                  exists x, y :: x in nodes && y in nodes && x != y && !IsConn(net.man.conn, x, y)))
  {
    var net := Exec(nodes, flush, ops).value;
    RunGroups(nodes, flush, ops);
    RunInv(nodes, flush, ops);
    GroupsSymTrans(nodes, net.man.conn, a, b, c);
    if |nodes| >= 2 {
      IsPartedMeans(net);
    }
  }

  // ---- What one call does to the connections, and what the counters count

  /** Which pairs of distinct nodes each call connects. */
  lemma StepConnects(nodes: set<Node>, net: Net, op: Op, flush: bool, a: Node, b: Node)
    requires Meshed(nodes, net.msgs) && Enabled(nodes, net, op) && Apply(net, op, flush).Some? && a != b
    ensures var before, after := IsConn(net.man.conn, a, b), IsConn(Apply(net, op, flush).value.man.conn, a, b);
            match op
            case Connect(ns) => after <==> before || (a in ns && b in ns)
            case Disconnect(ns) => after <==> before && a !in ns && b !in ns
            case Partition(ns) => after <==> (a in ns && b in ns) || (before && a !in ns && b !in ns)
            case Cure => after <==> a in nodes && b in nodes
            case _ => after <==> before
  {
    match op
    case Connect(ns) => AddConnPairs(ns, net.man.conn, a, b);
    case Disconnect(ns) => DelConnPairs(ns, net.man.conn, a, b);
    case Partition(ns) => PartConnPairs(ns, net.man.conn, a, b);
    case Cure => IsConnMeans([nodes], a, b);
    case SendAll(ms) =>
      BatchIsAddEach(net, ms);
      AddEachConn(net, ms);
    case _ =>
  }

  function Number(ops: seq<Op>, counts: Op -> bool): nat {
    if ops == [] then 0
    else Number(ops[..|ops| - 1], counts) + if counts(ops[|ops| - 1]) then 1 else 0
  }

  lemma {:induction false} AddEachCountsOnly(net: Net, ms: seq<Envelope>)
    ensures var after := AddEach(net, ms);
            after.man.parts == net.man.parts && after.man.cures == net.man.cures && after.man.recv == net.man.recv
  {
    if ms != [] {
      AddEachCountsOnly(net, ms[..|ms| - 1]);
    }
  }

  lemma StepCountsOne(net: Net, op: Op, flush: bool)
    requires op.Receive? || op.Answer? ==> NetGetMsg(net, op.src, op.dst).Some?
    requires Apply(net, op, flush).Some?
    ensures var after := Apply(net, op, flush).value;
            && after.man.parts == net.man.parts + (if op.Partition? then 1 else 0)
            && after.man.cures == net.man.cures + (if op.Cure? then 1 else 0)
            && after.man.recv == net.man.recv + if op.Receive? || op.Answer? then 1 else 0
  {
    if op.SendAll? {
      BatchIsAddEach(net, op.ms);
      AddEachCountsOnly(net, op.ms);
    }
  }

  /** In every run n_part, n_cure and n_recv are the numbers of partitions, cures and deliveries. */
  lemma {:induction false} CountersCount(nodes: set<Node>, flush: bool, ops: seq<Op>)
    requires Exec(nodes, flush, ops).Some?
    ensures var man := Exec(nodes, flush, ops).value.man;
            && man.parts == Number(ops, (op: Op) => op.Partition?)
            && man.cures == Number(ops, (op: Op) => op.Cure?)
            && man.recv == Number(ops, (op: Op) => op.Receive? || op.Answer?)
  {
    if ops != [] {
      var init := ops[..|ops| - 1];
      CountersCount(nodes, flush, init);
      StepCountsOne(Exec(nodes, flush, init).value, ops[|ops| - 1], flush);
    }
  }
}
