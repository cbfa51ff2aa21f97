/** The partitionable FIFO network of PySyncObjTLA/FifoNetwork.tla.

    One queue of numbered messages per ordered pair of nodes, a list of sets of
    nodes that can talk to each other, and counters.  Every operator of the
    specification is a function here; recursion follows the specification's own. */
module FifoNetwork {

  import opened Options

  datatype Node = Node(id: nat)

  /** What a message carries; the network never looks inside. */
  datatype Body =
    | RequestVote(term: int, lastLogIdx: int, lastLogTerm: int)
    | RequestVoteResponse(term: int)

  /** A message as stored: source and destination are the queue it sits in. */
  datatype Msg = Msg(seqno: int, body: Body)

  datatype Envelope = Envelope(src: Node, dst: Node, body: Body)

  type Row = map<Node, seq<Msg>>
  type Wires = map<Node, Row>

  datatype Manager = Manager(
    sent: int,
    recv: int,
    wire: int,
    conn: seq<set<Node>>,
    parts: int,
    cures: int)

  datatype Net = Net(man: Manager, msgs: Wires)

  ghost function InitNet(nodes: set<Node>): Net {
    Net(
      Manager(0, 0, 0, [nodes], 0, 0),
      map s | s in nodes :: map d | d in nodes - {s} :: [])
  }

  /** The queue from s to d; empty when there is none. */
  function Queue(msgs: Wires, s: Node, d: Node): seq<Msg> {
    if s in msgs && d in msgs[s] then msgs[s][d] else []
  }

  /** CHOOSE n \in nodes: TRUE. */
  ghost function Pick(nodes: set<Node>): (n: Node)
    requires nodes != {}
    ensures n in nodes
  {
    var n :| n in nodes; n
  }

  // ---- Counting the messages on the wire

  ghost function WireReduce(helper: (Node, int) -> int, nodes: set<Node>, res: int): int
    decreases |nodes|
  {
    if nodes == {} then res
    else
      var n := Pick(nodes);
      WireReduce(helper, nodes - {n}, helper(n, res))
  }

  /** _WireNodeSumHelper on one row. */
  function AddQueueLength(row: Row): (Node, int) -> int {
    (n: Node, res: int) => res + if n in row then |row[n]| else 0
  }

  /** _WireSumHelper. */
  ghost function AddRowSum(msgs: Wires): (Node, int) -> int {
    (n: Node, res: int) => res + if n in msgs then WireReduce(AddQueueLength(msgs[n]), msgs[n].Keys, 0) else 0
  }

  ghost function WireSum(msgs: Wires): int {
    WireReduce(AddRowSum(msgs), msgs.Keys, 0)
  }

  // ---- Connections

  function SelectSeq<T>(s: seq<T>, test: T -> bool): seq<T> {
    if s == [] then []
    else
      var rest := SelectSeq(s[..|s| - 1], test);
      if test(s[|s| - 1]) then rest + [s[|s| - 1]] else rest
  }

  function AddConn(nodes: set<Node>, conn: seq<set<Node>>): seq<set<Node>> {
    if |nodes| <= 1 || |SelectSeq(conn, (p: set<Node>) => nodes <= p)| > 0 then conn
    else SelectSeq(conn, (p: set<Node>) => !(p <= nodes)) + [nodes]
  }

  function DelConn(nodes: set<Node>, conn: seq<set<Node>>): seq<set<Node>> {
    if conn == [] then []
    else
      var rest := DelConn(nodes, conn[..|conn| - 1]);
      var left := conn[|conn| - 1] - nodes;
      if |left| <= 1 then rest else rest + [left]
  }

  function PartConn(nodes: set<Node>, conn: seq<set<Node>>): seq<set<Node>> {
    AddConn(nodes, DelConn(nodes, conn))
  }

  predicate IsConn(conn: seq<set<Node>>, a: Node, b: Node) {
    |SelectSeq(conn, (p: set<Node>) => {a, b} <= p)| != 0
  }

  predicate IsParted(net: Net) {
    |net.man.conn| != 1 || net.man.conn[0] != net.msgs.Keys
  }

  // ---- Flushing

  function FlushRow(n: Node, part: set<Node>, row: Row): Row {
    var flushed := if n in part then row.Keys - part else part;
    row + map x | x in flushed :: []
  }

  function FlushRowDel(n: Node, deleted: set<Node>, row: Row): Row {
    var flushed := if n in deleted then row.Keys else deleted;
    row + map x | x in flushed :: []
  }

  ghost function FlushReduce(flushRow: (Node, set<Node>, Row) -> Row, nodes: set<Node>, res: Wires,
                             part: set<Node>, msgs: Wires): Wires
    requires nodes <= msgs.Keys
    decreases |nodes|
  {
    if nodes == {} then res
    else
      var n := Pick(nodes);
      FlushReduce(flushRow, nodes - {n}, res[n := flushRow(n, part, msgs[n])], part, msgs)
  }

  ghost function FlushMsgs(part: set<Node>, msgs: Wires): Wires {
    FlushReduce(FlushRow, msgs.Keys, msgs, part, msgs)
  }

  ghost function FlushMsgsDel(deleted: set<Node>, msgs: Wires): Wires {
    FlushReduce(FlushRowDel, msgs.Keys, msgs, deleted, msgs)
  }

  // ---- Messages in and out of the queues

  /** Append(@, m) at [src][dst]; an index outside the domain changes nothing. */
  function Put(msgs: Wires, src: Node, dst: Node, m: Msg): Wires {
    if src in msgs && dst in msgs[src]
    then msgs[src := msgs[src][dst := msgs[src][dst] + [m]]]
    else msgs
  }

  /** How many messages were added (none when the two are not connected), and the result. */
  function AddMsgSeq(conn: seq<set<Node>>, src: Node, dst: Node, seqno: int, body: Body, msgs: Wires): (int, Wires) {
    if IsConn(conn, src, dst) then (1, Put(msgs, src, dst, Msg(seqno, body))) else (0, msgs)
  }

  function BatchAddMsgs(man: Manager, ms: seq<Envelope>, msgs: Wires): (int, Wires) {
    if ms == [] then (0, msgs)
    else
      var (count, before) := BatchAddMsgs(man, ms[..|ms| - 1], msgs);
      var m := ms[|ms| - 1];
      var (added, after) := AddMsgSeq(man.conn, m.src, m.dst, man.sent + count + 1, m.body, before);
      (count + added, after)
  }

  /** None stands for the failed Assert on a sequence mismatch, and for reading an empty queue. */
  function DelMsg(src: Node, dst: Node, seqno: int, msgs: Wires): Option<Wires> {
    if src in msgs && dst in msgs[src] && msgs[src][dst] != [] && msgs[src][dst][0].seqno == seqno
    then Some(msgs[src := msgs[src][dst := msgs[src][dst][1..]]])
    else None
  }

  function NetGetMsg(net: Net, src: Node, dst: Node): Option<Msg> {
    var q := Queue(net.msgs, src, dst);
    if q != [] then Some(q[0]) else None
  }

  function NetDelMsg(net: Net, src: Node, dst: Node, seqno: int): Option<Net> {
    match DelMsg(src, dst, seqno, net.msgs)
    case None => None
    case Some(msgs) => Some(Net(net.man.(wire := net.man.wire - 1, recv := net.man.recv + 1), msgs))
  }

  function NetAddMsg(net: Net, m: Envelope): Net {
    var (added, msgs) := AddMsgSeq(net.man.conn, m.src, m.dst, net.man.sent + 1, m.body, net.msgs);
    if added == 1
    then Net(net.man.(wire := net.man.wire + 1, sent := net.man.sent + 1), msgs)
    else Net(net.man, msgs)
  }

  /** Takes the request out of src -> dst and tries to send the response back. */
  function NetReplyMsg(net: Net, response: Body, src: Node, dst: Node, seqno: int): Option<Net> {
    match DelMsg(src, dst, seqno, net.msgs)
    case None => None
    case Some(deleted) =>
      var (added, msgs) := AddMsgSeq(net.man.conn, dst, src, net.man.sent + 1, response, deleted);
      if 1 - added == 0
      then Some(Net(net.man.(sent := net.man.sent + 1, recv := net.man.recv + 1), msgs))
      else Some(Net(net.man.(wire := net.man.wire - 1, recv := net.man.recv + 1), msgs))
  }

  function NetBatchAddMsg(net: Net, ms: seq<Envelope>): Net {
    var (count, msgs) := BatchAddMsgs(net.man, ms, net.msgs);
    Net(net.man.(sent := net.man.sent + count, wire := net.man.wire + count), msgs)
  }

  // ---- Changing the connections.  Both flushing operators count the messages before the flush.

  function NetAddConn(net: Net, nodes: set<Node>): Net {
    Net(net.man.(conn := AddConn(nodes, net.man.conn)), net.msgs)
  }

  ghost function NetDelConn(net: Net, nodes: set<Node>, flush: bool): Net {
    var conn := DelConn(nodes, net.man.conn);
    if flush
    then Net(net.man.(conn := conn, wire := WireSum(net.msgs)), FlushMsgsDel(nodes, net.msgs))
    else Net(net.man.(conn := conn), net.msgs)
  }

  ghost function NetPartConn(net: Net, nodes: set<Node>, flush: bool): Net {
    var conn := PartConn(nodes, net.man.conn);
    if flush
    then Net(net.man.(conn := conn, wire := WireSum(net.msgs), parts := net.man.parts + 1), FlushMsgs(nodes, net.msgs))
    else Net(net.man.(conn := conn, parts := net.man.parts + 1), net.msgs)
  }

  function NetCureConn(net: Net): Net {
    Net(net.man.(conn := [net.msgs.Keys], cures := net.man.cures + 1), net.msgs)
  }
}
