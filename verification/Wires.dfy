/** The queues themselves: what counting, flushing, adding and deleting do to them. */
module Wires {
  import opened FifoNetwork

  /** One queue per ordered pair of distinct nodes. */
  ghost predicate Meshed(nodes: set<Node>, msgs: Wires) {
    && msgs.Keys == nodes
    && forall s :: s in nodes ==> msgs[s].Keys == nodes - {s}
  }

  /** Every place a message occupies. */
  ghost function Slots(msgs: Wires): set<(Node, Node, int)> {
    set s, d, i | s in msgs && d in msgs[s] && 0 <= i < |msgs[s][d]| :: (s, d, i)
  }

  lemma SlotsMeans(msgs: Wires, s: Node, d: Node, i: int)
    ensures (s, d, i) in Slots(msgs) <==> 0 <= i < |Queue(msgs, s, d)|
  {
  }

  // ---- Counting

  ghost function QueueSlots(s: Node, d: Node, n: nat): set<(Node, Node, int)> {
    set i | 0 <= i < n :: (s, d, i)
  }

  ghost function RowSlots(s: Node, nodes: set<Node>, row: Row): set<(Node, Node, int)>
    requires nodes <= row.Keys
  {
    set d, i | d in nodes && 0 <= i < |row[d]| :: (s, d, i)
  }

  ghost function WireSlots(nodes: set<Node>, msgs: Wires): set<(Node, Node, int)>
    requires nodes <= msgs.Keys
  {
    set s, d, i | s in nodes && d in msgs[s] && 0 <= i < |msgs[s][d]| :: (s, d, i)
  }

  lemma {:induction false} QueueSlotsCount(s: Node, d: Node, n: nat)
    ensures |QueueSlots(s, d, n)| == n
  {
    if n > 0 {
      QueueSlotsCount(s, d, n - 1);
      assert QueueSlots(s, d, n) == QueueSlots(s, d, n - 1) + {(s, d, n - 1)};
    }
  }

  lemma DisjointCount<T>(whole: set<T>, a: set<T>, b: set<T>)
    requires whole == a + b && a !! b
    ensures |whole| == |a| + |b|
  {
  }

  lemma {:induction false} RowSumCounts(s: Node, nodes: set<Node>, res: int, row: Row)
    requires nodes <= row.Keys
    ensures WireReduce(AddQueueLength(row), nodes, res) == res + |RowSlots(s, nodes, row)|
    decreases |nodes|
  {
    if nodes == {} {
      assert RowSlots(s, nodes, row) == {};
    } else {
      var n := Pick(nodes);
      RowSumCounts(s, nodes - {n}, res + |row[n]|, row);
      QueueSlotsCount(s, n, |row[n]|);
      DisjointCount(RowSlots(s, nodes, row), RowSlots(s, nodes - {n}, row), QueueSlots(s, n, |row[n]|));
    }
  }

  lemma WireSlotsSplit(nodes: set<Node>, n: Node, msgs: Wires)
    requires nodes <= msgs.Keys && n in nodes
    ensures |WireSlots(nodes, msgs)| == |WireSlots(nodes - {n}, msgs)| + |RowSlots(n, msgs[n].Keys, msgs[n])|
  {
    var rest, row := WireSlots(nodes - {n}, msgs), RowSlots(n, msgs[n].Keys, msgs[n]);
    forall x ensures x in WireSlots(nodes, msgs) <==> x in rest + row {
      assert x == (x.0, x.1, x.2);
    }
    DisjointCount(WireSlots(nodes, msgs), rest, row);
  }

  lemma NoWireSlots(msgs: Wires)
    ensures |WireSlots({}, msgs)| == 0
  {
    assert WireSlots({}, msgs) == {};
  }

  lemma AddRowSumCounts(msgs: Wires, n: Node, res: int)
    requires n in msgs
    ensures AddRowSum(msgs)(n, res) == res + |RowSlots(n, msgs[n].Keys, msgs[n])|
  {
    RowSumCounts(n, msgs[n].Keys, 0, msgs[n]);
  }

  lemma {:induction false} WireReduceCounts(helper: (Node, int) -> int, nodes: set<Node>, res: int, msgs: Wires)
    requires nodes <= msgs.Keys
    requires forall n, r :: n in msgs ==> helper(n, r) == r + |RowSlots(n, msgs[n].Keys, msgs[n])|
    ensures WireReduce(helper, nodes, res) == res + |WireSlots(nodes, msgs)|
    decreases |nodes|
  {
    if nodes == {} {
      NoWireSlots(msgs);
    } else {
      var n := Pick(nodes);
      WireSlotsSplit(nodes, n, msgs);
      WireReduceCounts(helper, nodes - {n}, helper(n, res), msgs);
    }
  }

  /** _WireSum counts every queued message once, whatever nodes the recursion picks first. */
  lemma WireSumCounts(msgs: Wires)
    ensures WireSum(msgs) == |Slots(msgs)|
  {
    forall n, r | n in msgs ensures AddRowSum(msgs)(n, r) == r + |RowSlots(n, msgs[n].Keys, msgs[n])| {
      AddRowSumCounts(msgs, n, r);
    }
    WireReduceCounts(AddRowSum(msgs), msgs.Keys, 0, msgs);
    assert WireSlots(msgs.Keys, msgs) == Slots(msgs);
  }

  // ---- Flushing

  /** The recursion replaces exactly the rows of the given nodes, whatever its pick order. */
  lemma {:induction false} FlushReduceRows(flushRow: (Node, set<Node>, Row) -> Row, nodes: set<Node>, res: Wires,
                                           part: set<Node>, msgs: Wires, n: Node)
    requires nodes <= msgs.Keys
    ensures n in FlushReduce(flushRow, nodes, res, part, msgs) <==> n in nodes || n in res
    ensures n in nodes ==> FlushReduce(flushRow, nodes, res, part, msgs)[n] == flushRow(n, part, msgs[n])
    ensures n in res && n !in nodes ==> FlushReduce(flushRow, nodes, res, part, msgs)[n] == res[n]
    decreases |nodes|
  {
    if nodes != {} {
      var m := Pick(nodes);
      FlushReduceRows(flushRow, nodes - {m}, res[m := flushRow(m, part, msgs[m])], part, msgs, n);
    }
  }

  /** True of a pair with one end inside the set and one outside it. */
  predicate Crosses(part: set<Node>, s: Node, d: Node) {
    (s in part) != (d in part)
  }

  lemma FlushedRows(nodes: set<Node>, part: set<Node>, msgs: Wires, after: Wires)
    requires Meshed(nodes, msgs) && part <= nodes && after.Keys == nodes
    requires forall n :: n in nodes ==> after[n] == FlushRow(n, part, msgs[n])
    ensures Meshed(nodes, after)
    ensures forall s, d :: Queue(after, s, d) == if Crosses(part, s, d) then [] else Queue(msgs, s, d)
  {
    forall n | n in nodes ensures after[n].Keys == nodes - {n} {
      assert msgs[n].Keys == nodes - {n};
    }
    forall s, d ensures Queue(after, s, d) == if Crosses(part, s, d) then [] else Queue(msgs, s, d) {
      if s in nodes {
        assert after[s] == FlushRow(s, part, msgs[s]);
      }
    }
  }

  /** A partition flush empties exactly the queues that cross the partition. */
  lemma FlushMsgsQueues(nodes: set<Node>, part: set<Node>, msgs: Wires)
    requires Meshed(nodes, msgs) && part <= nodes
    ensures Meshed(nodes, FlushMsgs(part, msgs))
    ensures forall s, d :: Queue(FlushMsgs(part, msgs), s, d) == if Crosses(part, s, d) then [] else Queue(msgs, s, d)
  {
    var after := FlushMsgs(part, msgs);
    forall n
      ensures n in after <==> n in nodes
      ensures n in nodes ==> after[n] == FlushRow(n, part, msgs[n])
    {
      FlushReduceRows(FlushRow, msgs.Keys, msgs, part, msgs, n);
    }
    FlushedRows(nodes, part, msgs, after);
  }

  /** A deletion flush empties exactly the queues with an end among the deleted nodes. */
  lemma FlushMsgsDelQueues(nodes: set<Node>, deleted: set<Node>, msgs: Wires)
    requires Meshed(nodes, msgs) && deleted <= nodes
    ensures Meshed(nodes, FlushMsgsDel(deleted, msgs))
    ensures forall s, d :: Queue(FlushMsgsDel(deleted, msgs), s, d) ==
                           if s in deleted || d in deleted then [] else Queue(msgs, s, d)
  {
    forall n
      ensures n in FlushMsgsDel(deleted, msgs) <==> n in nodes
      ensures n in nodes ==> FlushMsgsDel(deleted, msgs)[n] == FlushRowDel(n, deleted, msgs[n])
    {
      FlushReduceRows(FlushRowDel, msgs.Keys, msgs, deleted, msgs, n);
    }
  }

  // ---- Adding and deleting

  ghost predicate OneLonger(small: Wires, big: Wires, src: Node, dst: Node) {
    forall s, d :: |Queue(big, s, d)| == |Queue(small, s, d)| + if s == src && d == dst then 1 else 0
  }

  lemma OneMoreSlotAt(small: Wires, big: Wires, src: Node, dst: Node, x: (Node, Node, int))
    requires OneLonger(small, big, src, dst)
    ensures x in Slots(big) <==> x in Slots(small) || x == (src, dst, |Queue(small, src, dst)|)
  {
    SlotsMeans(small, x.0, x.1, x.2);
    SlotsMeans(big, x.0, x.1, x.2);
    assert x == (x.0, x.1, x.2);
    assert |Queue(big, x.0, x.1)| == |Queue(small, x.0, x.1)| + if x.0 == src && x.1 == dst then 1 else 0;
  }

  /** One queue grew by one message and the others kept their lengths. */
  lemma OneMoreSlot(small: Wires, big: Wires, src: Node, dst: Node)
    requires OneLonger(small, big, src, dst)
    ensures |Slots(big)| == |Slots(small)| + 1
  {
    var last := (src, dst, |Queue(small, src, dst)|);
    forall x ensures x in Slots(big) <==> x in Slots(small) || x == last {
      OneMoreSlotAt(small, big, src, dst, x);
    }
    SlotsMeans(small, src, dst, last.2);
    SetPlusOne(Slots(small), Slots(big), last);
  }

  lemma SetPlusOne<T(!new)>(small: set<T>, big: set<T>, last: T)
    requires last !in small && forall x :: x in big <==> x in small || x == last
    ensures |big| == |small| + 1
  {
    assert big == small + {last};
  }

  /** Put appends to one queue and leaves the others. */
  lemma PutQueue(nodes: set<Node>, msgs: Wires, src: Node, dst: Node, m: Msg)
    requires Meshed(nodes, msgs) && src in nodes && dst in nodes && src != dst
    ensures Meshed(nodes, Put(msgs, src, dst, m))
    ensures forall s, d :: Queue(Put(msgs, src, dst, m), s, d) ==
                           if s == src && d == dst then Queue(msgs, s, d) + [m] else Queue(msgs, s, d)
  {
  }

  /** Deleting takes the head of one queue, and succeeds exactly on the sequence number of that head. */
  lemma DelMsgQueue(nodes: set<Node>, msgs: Wires, src: Node, dst: Node, seqno: int)
    requires Meshed(nodes, msgs)
    ensures DelMsg(src, dst, seqno, msgs).Some? <==>
            Queue(msgs, src, dst) != [] && Queue(msgs, src, dst)[0].seqno == seqno
    ensures DelMsg(src, dst, seqno, msgs).Some? ==>
            var after := DelMsg(src, dst, seqno, msgs).value;
            && src in nodes && dst in nodes && src != dst
            && Meshed(nodes, after)
            && forall s, d :: Queue(after, s, d) ==
                              if s == src && d == dst then Queue(msgs, s, d)[1..] else Queue(msgs, s, d)
  {
  }

  // ---- Batches

  /** Sends the messages of the list one call at a time. */
  function AddEach(net: Net, ms: seq<Envelope>): Net {
    if ms == [] then net else NetAddMsg(AddEach(net, ms[..|ms| - 1]), ms[|ms| - 1])
  }

  lemma {:induction false} BatchCount(net: Net, ms: seq<Envelope>)
    ensures var (count, msgs) := BatchAddMsgs(net.man, ms, net.msgs);
            && AddEach(net, ms).msgs == msgs
            && AddEach(net, ms).man == net.man.(sent := net.man.sent + count, wire := net.man.wire + count)
  {
    if ms != [] {
      BatchCount(net, ms[..|ms| - 1]);
    }
  }

  /** Sending a batch is sending its messages one by one: same queues, numbers and counters. */
  lemma BatchIsAddEach(net: Net, ms: seq<Envelope>)
    ensures NetBatchAddMsg(net, ms) == AddEach(net, ms)
  {
    BatchCount(net, ms);
  }
}
