/** The transparent proxy's connection table and message queues (tproxy/TcpNetwork.cpp).

    A connection is two entries of the table, one per end, that share two heap cells holding the descriptors
    of the ends.  A queued message points to the cell of the end it is for; closing a connection writes -1
    into its cells, so that its messages are dead even when the descriptor number is given out again.

    This module has the state as a value, what each operation of the proxy does to it, and what each keeps;
    ProxyRuns.dfy has what all runs keep, and TcpNetwork.dfy the object that the operations update in place. */
module ProxyState {
  import opened Framing

  datatype Addr = Addr(ip: int, port: int)

  datatype Channel = Channel(first: Addr, second: Addr) {
    function Swap(): Channel { Channel(second, first) }

    predicate Touches(node: Addr) { first == node || second == node }
  }

  /** The shared_ptr<int> of a descriptor. */
  class Cell {
    var fd: int

    constructor (fd: int)
      ensures this.fd == fd
    {
      this.fd := fd;
    }
  }

  datatype Entry = Entry(channel: Channel, selfFd: Cell, peerFd: Cell, disconnected: bool)

  datatype Msg = Msg(fd: Cell, body: Bytes)

  type Table = map<int, Entry>
  type Queues = map<Channel, seq<Msg>>

  datatype Delivery = NoChannel | TimedOut | Disconnected | WriteFailed | Delivered

  function QueueOf(queues: Queues, channel: Channel): seq<Msg> {
    if channel in queues then queues[channel] else []
  }

  /** The bodies a queue holds for one end. */
  function Pending(q: seq<Msg>, c: Cell): seq<Bytes> {
    if q == [] then []
    else (if q[0].fd == c then [q[0].body] else []) + Pending(q[1..], c)
  }

  lemma {:induction false} PendingConcat(a: seq<Msg>, b: seq<Msg>, c: Cell)
    ensures Pending(a + b, c) == Pending(a, c) + Pending(b, c)
  {
    if a == [] {
      assert a + b == b;
    } else {
      assert (a + b)[0] == a[0] && (a + b)[1..] == a[1..] + b;
      PendingConcat(a[1..], b, c);
      var first := if a[0].fd == c then [a[0].body] else [];
      assert first + (Pending(a[1..], c) + Pending(b, c)) == first + Pending(a[1..], c) + Pending(b, c);
    }
  }

  lemma PendingOne(m: Msg, c: Cell)
    ensures Pending([m], c) == if m.fd == c then [m.body] else []
  {
    assert [m][1..] == [];
  }

  /** The state of the proxy.  fds says what every cell ever made holds.  received and written are kept by the proof
      only: per cell, the bodies that came in for that end, and those written to it. */
  datatype View = View(
    isDirect: bool,
    table: Table,
    fds: map<Cell, int>,
    queues: Queues,
    unintercepted: set<int>,
    received: map<Cell, seq<Bytes>>,
    written: map<Cell, seq<Bytes>>)

  function InitView(isDirect: bool): View {
    View(isDirect, map[], map[], map[], {}, map[], map[])
  }

  // ---- Operations

  function Open(v: View, srcFd: int, dstFd: int, srcCell: Cell, dstCell: Cell, src: Addr, dst: Addr): View {
    var from, to := src.(port := 0), dst.(port := 0);
    v.(table := v.table[srcFd := Entry(Channel(from, to), srcCell, dstCell, false)]
                       [dstFd := Entry(Channel(to, from), dstCell, srcCell, false)],
       fds := v.fds[srcCell := srcFd][dstCell := dstFd],
       received := v.received[srcCell := []][dstCell := []],
       written := v.written[srcCell := []][dstCell := []])
  }

  function FdOf(v: View, c: Cell): int {
    if c in v.fds then v.fds[c] else -1
  }

  /** The descriptor of the other end. */
  function Peer(v: View, fd: int): int
    requires fd in v.table
  {
    FdOf(v, v.table[fd].peerFd)
  }

  function TagOne(table: Table, fd: int): Table {
    if fd in table then table[fd := table[fd].(disconnected := true)] else table
  }

  /** close_connection with the tag: both ends are marked, nothing is closed. */
  function Tag(v: View, fd: int): View {
    if fd in v.table then v.(table := TagOne(TagOne(v.table, fd), Peer(v, fd))) else v
  }

  /** do_close. */
  function CloseOne(v: View, fd: int): View {
    if fd in v.table
    then v.(unintercepted := v.unintercepted - {fd},
            fds := v.fds[v.table[fd].selfFd := -1],
            table := v.table - {fd})
    else v
  }

  /** close_connection without the tag: both ends are marked and then closed. */
  function Close(v: View, fd: int): View {
    if fd in v.table then CloseOne(CloseOne(Tag(v, fd), fd), Peer(v, fd)) else v
  }

  function Write(v: View, fd: int, body: Bytes): View {
    if fd in v.table && v.table[fd].selfFd in v.written
    then v.(written := v.written[v.table[fd].selfFd := v.written[v.table[fd].selfFd] + [body]])
    else v
  }

  /** The second half of deliver_msg, for a message whose cell lives. */
  function Dispatch(v: View, m: Msg, writeOk: bool): (View, Delivery) {
    var fd := FdOf(v, m.fd);
    if fd !in v.table then (v, NoChannel)
    else if v.table[fd].disconnected then (v, Disconnected)
    else if writeOk then (Write(v, fd, m.body), Delivered)
    else (if v.isDirect then Close(v, fd) else Tag(v, fd), WriteFailed)
  }

  /** How many messages at the front of the queue are dead. */
  function DeadFront(v: View, q: seq<Msg>): (n: nat)
    ensures n <= |q|
  {
    if q == [] || FdOf(v, q[0].fd) >= 0 then 0 else 1 + DeadFront(v, q[1..])
  }

  function Deliver(v: View, channel: Channel, writeOk: bool): (View, Delivery) {
    if channel !in v.queues then (v, NoChannel)
    else
      var q := v.queues[channel];
      var n := DeadFront(v, q);
      if n == |q| then (v.(queues := v.queues[channel := []]), TimedOut)
      else Dispatch(v.(queues := v.queues[channel := q[n + 1..]]), q[n], writeOk)
  }

  function Receive(v: View, m: Msg): View {
    if m.fd in v.received then v.(received := v.received[m.fd := v.received[m.fd] + [m.body]]) else v
  }

  function Append(v: View, channel: Channel, m: Msg): View {
    v.(queues := v.queues[channel := QueueOf(v.queues, channel) + [m]])
  }

  /** enqueue_msg, for a body that arrived on fd. */
  function Enqueue(v: View, fd: int, body: Bytes, writeOk: bool): View
    requires fd in v.table
  {
    var e := v.table[fd];
    var m := Msg(e.peerFd, body);
    var v' := Receive(v, m);
    if e.disconnected then v'
    else if v.isDirect then Dispatch(v', m, writeOk).0
    else Append(v', e.channel, m)
  }

  function Unintercept(v: View, fd: int): View {
    v.(unintercepted := v.unintercepted + {fd})
  }

  function PartitionTable(table: Table, node: Addr): Table {
    map f | f in table :: if table[f].channel.Touches(node) then table[f].(disconnected := true) else table[f]
  }

  /** What partition(node) comes to: every connection touching the node is tagged at both ends. */
  function Partition(v: View, node: Addr): View {
    v.(table := PartitionTable(v.table, node))
  }

  predicate HasChannel(table: Table, channel: Channel) {
    exists f :: f in table && table[f].channel == channel
  }

  /** What recover(node) comes to: the connections touching the node are gone, their cells are dead, and the queues of
      their channels from the node are empty. */
  ghost function Recover(v: View, node: Addr): View {
    var gone := set f | f in v.table && v.table[f].channel.Touches(node);
    v.(table := v.table - gone,
       unintercepted := v.unintercepted - gone,
       fds := map c | c in v.fds :: if v.fds[c] in gone then -1 else v.fds[c],
       queues := map ch | ch in v.queues :: if ch.first == node && HasChannel(v.table, ch) then [] else v.queues[ch])
  }

  // ---- Invariants

  /** Every entry owns its descriptor's cell, and its peer is there with swapped channel and swapped cells. */
  ghost predicate Paired(table: Table, fds: map<Cell, int>) {
    forall f :: f in table ==>
      var e := table[f];
      && f >= 0
      && e.selfFd in fds && e.peerFd in fds && e.selfFd != e.peerFd
      && fds[e.selfFd] == f
      && fds[e.peerFd] in table
      && table[fds[e.peerFd]].selfFd == e.peerFd
      && table[fds[e.peerFd]].peerFd == e.selfFd
      && table[fds[e.peerFd]].channel == e.channel.Swap()
  }

  ghost predicate TagsAgree(table: Table, fds: map<Cell, int>) {
    forall f :: f in table && table[f].peerFd in fds && fds[table[f].peerFd] in table ==>
      table[fds[table[f].peerFd]].disconnected == table[f].disconnected
  }

  /** A cell that is not dead is the own cell of the entry of its descriptor. */
  ghost predicate CellsOwned(table: Table, fds: map<Cell, int>) {
    forall c :: c in fds ==> fds[c] == -1 || (fds[c] in table && table[fds[c]].selfFd == c)
  }

  /** A queued message is for the end that faces its channel, as long as its cell lives. */
  ghost predicate Faces(v: View, channel: Channel, m: Msg) {
    && m.fd in v.fds
    && (v.fds[m.fd] >= 0 ==> v.fds[m.fd] in v.table && v.table[v.fds[m.fd]].channel == channel.Swap())
  }

  ghost predicate MessagesFace(v: View) {
    forall ch, m :: ch in v.queues && m in v.queues[ch] ==> Faces(v, ch, m)
  }

  ghost predicate Linked(v: View) {
    Paired(v.table, v.fds) && CellsOwned(v.table, v.fds)
  }

  ghost predicate Wired(v: View) {
    && Linked(v) && TagsAgree(v.table, v.fds) && MessagesFace(v)
    && v.unintercepted <= v.table.Keys
    && v.received.Keys == v.written.Keys == v.fds.Keys
    && (v.isDirect ==> forall ch :: QueueOf(v.queues, ch) == [])
  }

  /** Is the end an end of an untagged connection? */
  predicate Untagged(v: View, c: Cell) {
    FdOf(v, c) in v.table && !v.table[FdOf(v, c)].disconnected
  }

  function QueueTo(v: View, c: Cell): seq<Msg>
    requires FdOf(v, c) in v.table
  {
    QueueOf(v.queues, v.table[FdOf(v, c)].channel.Swap())
  }

  /** What came in for an end of an untagged connection was written to it, or is held, or is queued: in this order
      and without loss. */
  ghost predicate ConservedAt(v: View, held: seq<Msg>, c: Cell) {
    c in v.received && c in v.written && Untagged(v, c) ==>
      v.received[c] == v.written[c] + Pending(held, c) + Pending(QueueTo(v, c), c)
  }

  ghost predicate Conserved(v: View, held: seq<Msg>) {
    forall c :: c in v.fds ==> ConservedAt(v, held, c)
  }

  ghost predicate Inv(v: View) {
    Wired(v) && Conserved(v, [])
  }

  lemma {:induction false} NothingPending(q: seq<Msg>, c: Cell)
    requires forall m :: m in q ==> m.fd != c
    ensures Pending(q, c) == []
  {
    if q != [] {
      NothingPending(q[1..], c);
    }
  }

  /** If the entries, cells and queues an end depends on are the same, so is its account. */
  lemma ConservedFrame(v: View, w: View, held: seq<Msg>, c: Cell)
    requires ConservedAt(v, held, c) && c in v.received && c in v.written
    requires Untagged(w, c) ==> Untagged(v, c) && QueueTo(w, c) == QueueTo(v, c)
    requires c in w.received && c in w.written && w.received[c] == v.received[c] && w.written[c] == v.written[c]
    ensures ConservedAt(w, held, c)
  {
  }

  lemma PeersMatch(v: View, f: int, fd: int)
    requires Linked(v) && f in v.table && fd in v.table
    ensures Peer(v, f) in v.table && Peer(v, f) != f
    ensures v.table[Peer(v, f)].channel == v.table[f].channel.Swap()
    ensures Peer(v, f) == fd <==> f == Peer(v, fd)
  {
    assert Peer(v, Peer(v, f)) == f && Peer(v, Peer(v, fd)) == fd;
  }

  /** The address of a node: a channel may have several connections, from any ports. */
  function Bare(a: Addr): Addr {
    Addr(a.ip, 0)
  }

  // ---- Opening

  /** The two new entries: each end has its own channel, without ports, its own cell and the other's. */
  lemma OpenEntries(v: View, srcFd: int, dstFd: int, srcCell: Cell, dstCell: Cell, src: Addr, dst: Addr)
    requires srcFd != dstFd && srcCell != dstCell
    ensures var w := Open(v, srcFd, dstFd, srcCell, dstCell, src, dst);
            && w.table.Keys == v.table.Keys + {srcFd, dstFd} && w.fds.Keys == v.fds.Keys + {srcCell, dstCell}
            && w.table[srcFd] == Entry(Channel(Bare(src), Bare(dst)), srcCell, dstCell, false)
            && w.table[dstFd] == Entry(Channel(Bare(dst), Bare(src)), dstCell, srcCell, false)
            && (forall f :: f in v.table && f != srcFd && f != dstFd ==> w.table[f] == v.table[f])
            && w.fds[srcCell] == srcFd && w.fds[dstCell] == dstFd
            && (forall c :: c in v.fds && c != srcCell && c != dstCell ==> w.fds[c] == v.fds[c])
            && w.queues == v.queues && w.unintercepted == v.unintercepted && w.isDirect == v.isDirect
  {
  }

  lemma OpenLinked(v: View, srcFd: int, dstFd: int, srcCell: Cell, dstCell: Cell, src: Addr, dst: Addr)
    requires Linked(v)
    requires 0 <= srcFd && 0 <= dstFd && srcFd != dstFd && srcFd !in v.table && dstFd !in v.table
    requires srcCell != dstCell && srcCell !in v.fds && dstCell !in v.fds
    ensures Linked(Open(v, srcFd, dstFd, srcCell, dstCell, src, dst))
  {
  }

  lemma OpenFaces(v: View, srcFd: int, dstFd: int, srcCell: Cell, dstCell: Cell, src: Addr, dst: Addr)
    requires MessagesFace(v)
    requires 0 <= srcFd && 0 <= dstFd && srcFd != dstFd && srcFd !in v.table && dstFd !in v.table
    requires srcCell != dstCell && srcCell !in v.fds && dstCell !in v.fds
    ensures MessagesFace(Open(v, srcFd, dstFd, srcCell, dstCell, src, dst))
  {
    var w := Open(v, srcFd, dstFd, srcCell, dstCell, src, dst);
    forall ch, m | ch in w.queues && m in w.queues[ch] ensures Faces(w, ch, m) {
      assert Faces(v, ch, m);
    }
  }

  lemma OpenWired(v: View, srcFd: int, dstFd: int, srcCell: Cell, dstCell: Cell, src: Addr, dst: Addr)
    requires Wired(v)
    requires 0 <= srcFd && 0 <= dstFd && srcFd != dstFd && srcFd !in v.table && dstFd !in v.table
    requires srcCell != dstCell && srcCell !in v.fds && dstCell !in v.fds
    ensures Wired(Open(v, srcFd, dstFd, srcCell, dstCell, src, dst))
  {
    OpenLinked(v, srcFd, dstFd, srcCell, dstCell, src, dst);
    OpenFaces(v, srcFd, dstFd, srcCell, dstCell, src, dst);
  }

  lemma OpenKeepsInv(v: View, srcFd: int, dstFd: int, srcCell: Cell, dstCell: Cell, src: Addr, dst: Addr)
    requires Inv(v)
    requires 0 <= srcFd && 0 <= dstFd && srcFd != dstFd && srcFd !in v.table && dstFd !in v.table
    requires srcCell != dstCell && srcCell !in v.fds && dstCell !in v.fds
    ensures Inv(Open(v, srcFd, dstFd, srcCell, dstCell, src, dst))
  {
    var w := Open(v, srcFd, dstFd, srcCell, dstCell, src, dst);
    OpenWired(v, srcFd, dstFd, srcCell, dstCell, src, dst);
    forall c | c in w.fds ensures ConservedAt(w, [], c) {
      if c in v.fds {
        assert ConservedAt(v, [], c);
        ConservedFrame(v, w, [], c);
      } else {
        forall m | m in QueueTo(w, c) ensures m.fd != c {
          assert Faces(v, w.table[w.fds[c]].channel.Swap(), m);
        }
        NothingPending(QueueTo(w, c), c);
      }
    }
  }

  // ---- Tagging

  lemma TagTable(v: View, fd: int)
    requires Linked(v) && fd in v.table
    ensures Peer(v, fd) in v.table && Peer(v, fd) != fd
    ensures Tag(v, fd).table == map f | f in v.table ::
              if f == fd || f == Peer(v, fd) then v.table[f].(disconnected := true) else v.table[f]
  {
  }

  /** Tags only grow, in pairs; nothing else changes. */
  ghost predicate MoreTags(v: View, w: View) {
    && w == v.(table := w.table)
    && w.table.Keys == v.table.Keys
    && (forall f :: f in v.table ==> w.table[f] == v.table[f].(disconnected := w.table[f].disconnected))
    && (forall f :: f in v.table && v.table[f].disconnected ==> w.table[f].disconnected)
    && (forall f :: f in v.table ==>
         Peer(v, f) in w.table && w.table[Peer(v, f)].disconnected == w.table[f].disconnected)
  }

  lemma MoreTagsKeepInv(v: View, w: View, held: seq<Msg>)
    requires Wired(v) && Conserved(v, held) && MoreTags(v, w)
    ensures Wired(w) && Conserved(w, held)
  {
    forall ch, m | ch in w.queues && m in w.queues[ch] ensures Faces(w, ch, m) {
      assert Faces(v, ch, m);
    }
    forall c | c in w.fds ensures ConservedAt(w, held, c) {
      assert ConservedAt(v, held, c);
      ConservedFrame(v, w, held, c);
    }
  }

  lemma TagKeepsInv(v: View, fd: int, held: seq<Msg>)
    requires Wired(v) && Conserved(v, held)
    ensures Wired(Tag(v, fd)) && Conserved(Tag(v, fd), held)
    ensures fd in v.table ==> MoreTags(v, Tag(v, fd))
  {
    if fd in v.table {
      TagTable(v, fd);
      TagIsMoreTags(v, fd);
      MoreTagsKeepInv(v, Tag(v, fd), held);
    }
  }

  lemma TagIsMoreTags(v: View, fd: int)
    requires Wired(v) && fd in v.table
    ensures MoreTags(v, Tag(v, fd))
  {
    TagTable(v, fd);
    forall f | f in v.table
      ensures Peer(v, f) in v.table
      ensures (Peer(v, f) == fd <==> f == Peer(v, fd)) && (f == fd <==> Peer(v, f) == Peer(v, fd))
    {
      assert v.fds[v.table[f].selfFd] == f;
    }
  }

  lemma PartitionIsMoreTags(v: View, node: Addr)
    requires Wired(v)
    ensures MoreTags(v, Partition(v, node))
  {
  }

  lemma PartitionKeepsInv(v: View, node: Addr)
    requires Inv(v)
    ensures Inv(Partition(v, node)) && MoreTags(v, Partition(v, node))
  {
    PartitionIsMoreTags(v, node);
    MoreTagsKeepInv(v, Partition(v, node), []);
  }

  /** After partition(node) every connection that touched the node is tagged at both ends, so a body arriving on it
      reaches no queue and no peer, and the other connections are as they were. */
  lemma PartitionCuts(v: View, node: Addr, fd: int, body: Bytes, writeOk: bool)
    requires Inv(v) && fd in v.table
    ensures Inv(Partition(v, node))
    ensures var w := Partition(v, node);
            if v.table[fd].channel.Touches(node)
            then && w.table[fd].disconnected && w.table[Peer(v, fd)].disconnected
                 && Enqueue(w, fd, body, writeOk).queues == w.queues
                 && Enqueue(w, fd, body, writeOk).written == w.written
            else w.table[fd] == v.table[fd]
  {
    PartitionKeepsInv(v, node);
  }

  // ---- Closing

  lemma CloseView(v: View, fd: int)
    requires Linked(v) && fd in v.table
    ensures var p := Peer(v, fd);
            && p in v.table && p != fd
            && Close(v, fd) == v.(
                 table := v.table - {fd, p},
                 unintercepted := v.unintercepted - {fd, p},
                 fds := v.fds[v.table[fd].selfFd := -1][v.table[p].selfFd := -1])
  {
    TagTable(v, fd);
    var p := Peer(v, fd);
    var t := Tag(v, fd);
    assert t.table[fd].selfFd == v.table[fd].selfFd && t.table[p].selfFd == v.table[p].selfFd;
    assert t.table - {fd} - {p} == v.table - {fd, p};
    assert t.unintercepted - {fd} - {p} == v.unintercepted - {fd, p};
  }

  /** Some connections are gone, at both ends, and exactly their cells are dead. */
  ghost predicate Closed(v: View, w: View, gone: set<int>) {
    && gone <= v.table.Keys
    && (forall f :: f in gone ==> Peer(v, f) in gone)
    && w.table == v.table - gone
    && w.unintercepted == v.unintercepted - gone
    && w.fds.Keys == v.fds.Keys
    && (forall c :: c in v.fds ==> w.fds[c] == if v.fds[c] in gone then -1 else v.fds[c])
    && w.received == v.received && w.written == v.written && w.isDirect == v.isDirect
  }

  lemma CloseIsClosed(v: View, fd: int)
    requires Linked(v) && fd in v.table
    ensures Closed(v, Close(v, fd), {fd, Peer(v, fd)}) && Close(v, fd).queues == v.queues
  {
    CloseView(v, fd);
    var p, w := Peer(v, fd), Close(v, fd);
    forall c | c in v.fds ensures w.fds[c] == if v.fds[c] in {fd, p} then -1 else v.fds[c] {
      assert v.fds[c] == -1 || v.table[v.fds[c]].selfFd == c;
    }
  }

  lemma ClosedPaired(v: View, w: View, gone: set<int>)
    requires Linked(v) && Closed(v, w, gone)
    ensures Linked(w)
    ensures TagsAgree(v.table, v.fds) ==> TagsAgree(w.table, w.fds)
  {
    forall f | f in w.table ensures Peer(v, f) !in gone {
      assert Peer(v, Peer(v, f)) == f;
    }
  }

  lemma ClosedWired(v: View, w: View, gone: set<int>)
    requires Wired(v) && Closed(v, w, gone)
    requires forall ch :: ch in w.queues ==> ch in v.queues && (w.queues[ch] == v.queues[ch] || w.queues[ch] == [])
    ensures Wired(w)
  {
    ClosedPaired(v, w, gone);
    forall ch, m | ch in w.queues && m in w.queues[ch] ensures Faces(w, ch, m) {
      assert Faces(v, ch, m);
      assert v.fds[m.fd] == -1 || v.fds[m.fd] >= 0;
    }
    if w.isDirect {
      forall ch ensures QueueOf(w.queues, ch) == [] {
        assert QueueOf(v.queues, ch) == [];
      }
    }
  }

  lemma ClosedKeepsInv(v: View, w: View, gone: set<int>, held: seq<Msg>)
    requires Wired(v) && Conserved(v, held) && Closed(v, w, gone)
    requires forall ch :: ch in w.queues ==> ch in v.queues && (w.queues[ch] == v.queues[ch] || w.queues[ch] == [])
    requires forall f :: f in w.table ==>
               QueueOf(w.queues, w.table[f].channel.Swap()) == QueueOf(v.queues, v.table[f].channel.Swap())
    ensures Wired(w) && Conserved(w, held)
  {
    ClosedWired(v, w, gone);
    forall c | c in w.fds ensures ConservedAt(w, held, c) {
      assert ConservedAt(v, held, c);
      ConservedFrame(v, w, held, c);
    }
  }

  lemma CloseKeepsInv(v: View, fd: int, held: seq<Msg>)
    requires Wired(v) && Conserved(v, held)
    ensures Wired(Close(v, fd)) && Conserved(Close(v, fd), held)
  {
    if fd in v.table {
      CloseIsClosed(v, fd);
      ClosedKeepsInv(v, Close(v, fd), {fd, Peer(v, fd)}, held);
    }
  }

  // ---- Delivering

  lemma WriteKeeps(v: View, m: Msg)
    requires Wired(v) && Conserved(v, [m]) && FdOf(v, m.fd) in v.table
    ensures Wired(Write(v, FdOf(v, m.fd), m.body)) && Conserved(Write(v, FdOf(v, m.fd), m.body), [])
    ensures m.fd in v.written
    ensures Write(v, FdOf(v, m.fd), m.body) == v.(written := v.written[m.fd := v.written[m.fd] + [m.body]])
  {
    var w := Write(v, FdOf(v, m.fd), m.body);
    assert v.table[FdOf(v, m.fd)].selfFd == m.fd;
    forall ch, n | ch in w.queues && n in w.queues[ch] ensures Faces(w, ch, n) {
      assert Faces(v, ch, n);
    }
    forall c | c in w.fds ensures ConservedAt(w, [], c) {
      assert ConservedAt(v, [m], c);
      PendingOne(m, c);
      if Untagged(w, c) {
        assert QueueTo(w, c) == QueueTo(v, c);
      }
    }
  }

  /** A held message for an end without an untagged connection is nobody's loss. */
  lemma Release(v: View, m: Msg)
    requires Conserved(v, [m]) && !Untagged(v, m.fd)
    ensures Conserved(v, [])
  {
    forall c | c in v.fds ensures ConservedAt(v, [], c) {
      assert ConservedAt(v, [m], c);
      PendingOne(m, c);
    }
  }

  /** After a failed write: in direct mode the connection is closed, otherwise it is tagged at both ends. */
  ghost predicate Broken(v: View, w: View, fd: int)
    requires fd in v.table
  {
    if v.isDirect then Closed(v, w, {fd, Peer(v, fd)}) && w.queues == v.queues
    else
      && MoreTags(v, w)
      && forall f :: f in v.table ==>
           w.table[f].disconnected == (v.table[f].disconnected || f == fd || f == Peer(v, fd))
  }

  /** A live message always finds the entry of its own end; its body is written there, or dropped with the connection
      tagged or closed. */
  lemma DispatchKeepsInv(v: View, channel: Channel, m: Msg, writeOk: bool)
    requires Wired(v) && Conserved(v, [m]) && Faces(v, channel, m) && v.fds[m.fd] >= 0
    ensures Inv(Dispatch(v, m, writeOk).0)
    ensures Dispatch(v, m, writeOk).1 in {Disconnected, WriteFailed, Delivered}
    ensures v.table[v.fds[m.fd]].selfFd == m.fd && v.table[v.fds[m.fd]].channel == channel.Swap()
    ensures Dispatch(v, m, writeOk).1 == Delivered ==>
              && !v.table[v.fds[m.fd]].disconnected
              && Dispatch(v, m, writeOk).0 == v.(written := v.written[m.fd := v.written[m.fd] + [m.body]])
    ensures Dispatch(v, m, writeOk).1 != Delivered ==> Dispatch(v, m, writeOk).0.written == v.written
    ensures Dispatch(v, m, writeOk).1 == Disconnected <==> v.table[v.fds[m.fd]].disconnected
    ensures Dispatch(v, m, writeOk).1 == Disconnected ==> Dispatch(v, m, writeOk).0 == v
    ensures Dispatch(v, m, writeOk).1 == WriteFailed <==> !v.table[v.fds[m.fd]].disconnected && !writeOk
    ensures Dispatch(v, m, writeOk).1 == WriteFailed ==> Broken(v, Dispatch(v, m, writeOk).0, v.fds[m.fd])
  {
    var fd := v.fds[m.fd];
    if v.table[fd].disconnected {
      Release(v, m);
    } else if writeOk {
      WriteKeeps(v, m);
    } else if v.isDirect {
      CloseKeepsInv(v, fd, [m]);
      CloseIsClosed(v, fd);
      Release(Close(v, fd), m);
      assert Broken(v, Close(v, fd), fd);
    } else {
      TagKeepsInv(v, fd, [m]);
      TagTable(v, fd);
      Release(Tag(v, fd), m);
      assert Broken(v, Tag(v, fd), fd);
    }
  }

  lemma {:induction false} DeadFrontDead(v: View, q: seq<Msg>, c: Cell)
    ensures forall i :: 0 <= i < DeadFront(v, q) ==> FdOf(v, q[i].fd) < 0
    ensures DeadFront(v, q) < |q| ==> FdOf(v, q[DeadFront(v, q)].fd) >= 0
    ensures FdOf(v, c) >= 0 ==> Pending(q[DeadFront(v, q)..], c) == Pending(q, c)
  {
    if q != [] && FdOf(v, q[0].fd) < 0 {
      DeadFrontDead(v, q[1..], c);
      assert q[1..][DeadFront(v, q[1..])..] == q[DeadFront(v, q)..];
    } else {
      assert q[0..] == q;
    }
  }

  /** Taking the dead front and one more message off a queue, which is then held. */
  lemma PopKeeps(v: View, channel: Channel)
    requires Inv(v) && channel in v.queues
    ensures var q := v.queues[channel];
            var n := DeadFront(v, q);
            && (n < |q| ==>
                 var w := v.(queues := v.queues[channel := q[n + 1..]]);
                 Wired(w) && Conserved(w, [q[n]]) && Faces(w, channel, q[n]) && w.fds[q[n].fd] >= 0)
            && (n == |q| ==> Inv(v.(queues := v.queues[channel := []])))
  {
    var q := v.queues[channel];
    var n := DeadFront(v, q);
    PopConserved(v, channel);
    if n < |q| {
      DeadFrontDead(v, q, q[n].fd);
      assert q[n] in v.queues[channel] && Faces(v, channel, q[n]);
      PopWired(v, channel, q[n + 1..]);
    } else {
      PopWired(v, channel, []);
    }
  }

  lemma PopWired(v: View, channel: Channel, rest: seq<Msg>)
    requires Wired(v) && channel in v.queues
    requires |rest| <= |v.queues[channel]| && forall m :: m in rest ==> m in v.queues[channel]
    ensures Wired(v.(queues := v.queues[channel := rest]))
  {
    var w := v.(queues := v.queues[channel := rest]);
    forall ch, m | ch in w.queues && m in w.queues[ch] ensures Faces(w, ch, m) {
      assert m in v.queues[ch];
      assert Faces(v, ch, m);
    }
    if w.isDirect {
      assert QueueOf(v.queues, channel) == [];
      forall ch ensures QueueOf(w.queues, ch) == [] {
        assert QueueOf(v.queues, ch) == [];
      }
    }
  }

  lemma PopConservedAt(v: View, channel: Channel, c: Cell)
    requires Inv(v) && channel in v.queues && c in v.fds
    ensures var q := v.queues[channel];
            var n := DeadFront(v, q);
            var held := if n < |q| then [q[n]] else [];
            var rest := if n < |q| then q[n + 1..] else [];
            ConservedAt(v.(queues := v.queues[channel := rest]), held, c)
  {
    assert ConservedAt(v, [], c);
    assert Pending([], c) == [];
    if Untagged(v, c) && c in v.received && c in v.written {
      var q := v.queues[channel];
      var n := DeadFront(v, q);
      PopAccount(v, channel, c);
      assert v.received[c] == v.written[c] + Pending(QueueTo(v, c), c);
      var held := if n < |q| then [q[n]] else [];
      var rest := if n < |q| then q[n + 1..] else [];
      Append3(v.written[c], Pending(held, c),
        Pending(QueueOf(v.queues[channel := rest], v.table[FdOf(v, c)].channel.Swap()), c));
    }
  }

  lemma PopConserved(v: View, channel: Channel)
    requires Inv(v) && channel in v.queues
    ensures var q := v.queues[channel];
            var n := DeadFront(v, q);
            && (n < |q| ==> Conserved(v.(queues := v.queues[channel := q[n + 1..]]), [q[n]]))
            && (n == |q| ==> Conserved(v.(queues := v.queues[channel := []]), []))
  {
    var q := v.queues[channel];
    var n := DeadFront(v, q);
    var held := if n < |q| then [q[n]] else [];
    var w := v.(queues := v.queues[channel := if n < |q| then q[n + 1..] else []]);
    forall c | c in w.fds ensures ConservedAt(w, held, c) {
      PopConservedAt(v, channel, c);
    }
    assert Conserved(w, held);
  }

  /** The account of an end whose queue was popped, or of any other end. */
  lemma PopAccount(v: View, channel: Channel, c: Cell)
    requires Inv(v) && channel in v.queues && Untagged(v, c)
    ensures var q := v.queues[channel];
            var n := DeadFront(v, q);
            var held := if n < |q| then [q[n]] else [];
            var rest := if n < |q| then q[n + 1..] else [];
            Pending(held, c) + Pending(QueueOf(v.queues[channel := rest], v.table[FdOf(v, c)].channel.Swap()), c)
            == Pending(QueueTo(v, c), c)
  {
    var q := v.queues[channel];
    var n := DeadFront(v, q);
    var held := if n < |q| then [q[n]] else [];
    var rest := if n < |q| then q[n + 1..] else [];
    DeadFrontDead(v, q, c);
    assert held + rest == q[n..];
    PendingConcat(held, rest, c);
    if v.table[FdOf(v, c)].channel.Swap() != channel && n < |q| {
      assert Faces(v, channel, q[n]);
      PendingOne(q[n], c);
    }
  }

  /** deliver_msg: the messages dropped on the way are dead; what is written is the first live message of the queue,
      to the entry that owns the very cell of that message and faces the channel.  The lookup of its descriptor
      never fails. */
  lemma DeliverKeepsInv(v: View, channel: Channel, writeOk: bool)
    requires Inv(v)
    ensures Inv(Deliver(v, channel, writeOk).0)
    ensures Deliver(v, channel, writeOk).1 == NoChannel <==> channel !in v.queues
    ensures Deliver(v, channel, writeOk).1 == Delivered ==>
              var q := v.queues[channel];
              var n := DeadFront(v, q);
              && n < |q| && v.fds[q[n].fd] in v.table
              && v.table[v.fds[q[n].fd]].selfFd == q[n].fd
              && v.table[v.fds[q[n].fd]].channel == channel.Swap()
              && !v.table[v.fds[q[n].fd]].disconnected
              && Deliver(v, channel, writeOk).0 ==
                 v.(queues := v.queues[channel := q[n + 1..]],
                    written := v.written[q[n].fd := v.written[q[n].fd] + [q[n].body]])
    ensures Deliver(v, channel, writeOk).1 != Delivered ==> Deliver(v, channel, writeOk).0.written == v.written
  {
    if channel in v.queues {
      var q := v.queues[channel];
      var n := DeadFront(v, q);
      PopKeeps(v, channel);
      if n < |q| {
        DispatchKeepsInv(v.(queues := v.queues[channel := q[n + 1..]]), channel, q[n], writeOk);
      }
    }
  }

  /** What becomes of a live message that was taken up: its end's entry says it. */
  ghost predicate TakenUp(v: View, w: View, outcome: Delivery, m: Msg, writeOk: bool) {
    var fd := FdOf(v, m.fd);
    && fd in v.table && v.table[fd].selfFd == m.fd
    && if v.table[fd].disconnected then w == v && outcome == Disconnected
       else if writeOk then
         && outcome == Delivered && m.fd in v.written
         && w == v.(written := v.written[m.fd := v.written[m.fd] + [m.body]])
       else outcome == WriteFailed && Broken(v, w, fd)
  }

  lemma DispatchMeans(v: View, channel: Channel, m: Msg, writeOk: bool)
    requires Wired(v) && Conserved(v, [m]) && Faces(v, channel, m) && v.fds[m.fd] >= 0
    ensures TakenUp(v, Dispatch(v, m, writeOk).0, Dispatch(v, m, writeOk).1, m, writeOk)
  {
    WrittenKnown(v, m.fd);
    DispatchKeepsInv(v, channel, m, writeOk);
  }

  /** deliver_msg in every case: the dead messages at the front go, and the first live one is taken up. */
  lemma DeliverMeans(v: View, channel: Channel, writeOk: bool) returns (k: nat)
    requires Inv(v)
    ensures var (w, outcome) := Deliver(v, channel, writeOk);
            if channel !in v.queues then w == v && outcome == NoChannel
            else
              var q := v.queues[channel];
              && k <= |q| && (forall i :: 0 <= i < k ==> q[i].fd in v.fds && v.fds[q[i].fd] == -1)
              && if k == |q| then w == v.(queues := v.queues[channel := []]) && outcome == TimedOut
                 else TakenUp(v.(queues := v.queues[channel := q[k + 1..]]), w, outcome, q[k], writeOk)
  {
    k := 0;
    if channel in v.queues {
      var q := v.queues[channel];
      k := DeadFront(v, q);
      DeadAreClosed(v, channel);
      if k < |q| {
        PopKeeps(v, channel);
        DispatchMeans(v.(queues := v.queues[channel := q[k + 1..]]), channel, q[k], writeOk);
      }
    }
  }

  lemma WrittenKnown(v: View, c: Cell)
    requires Wired(v) && c in v.fds
    ensures c in v.written
  {
  }

  lemma DeadAreClosed(v: View, channel: Channel)
    requires Inv(v) && channel in v.queues
    ensures var q := v.queues[channel];
            forall i :: 0 <= i < DeadFront(v, q) ==> q[i].fd in v.fds && v.fds[q[i].fd] == -1
  {
    var q := v.queues[channel];
    forall i | 0 <= i < DeadFront(v, q) ensures q[i].fd in v.fds && v.fds[q[i].fd] == -1 {
      DeadFrontDead(v, q, q[i].fd);
      assert q[i] in q && Faces(v, channel, q[i]);
    }
  }

  // ---- Receiving

  lemma ReceiveHolds(v: View, m: Msg)
    requires Inv(v) && m.fd in v.fds
    ensures Wired(Receive(v, m))
    ensures forall c :: c in v.fds && c != m.fd ==> ConservedAt(Receive(v, m), [], c)
    ensures Untagged(v, m.fd) ==>
              Receive(v, m).received[m.fd] == v.written[m.fd] + (Pending(QueueTo(v, m.fd), m.fd) + [m.body])
  {
    var w := Receive(v, m);
    forall ch, n | ch in w.queues && n in w.queues[ch] ensures Faces(w, ch, n) {
      assert Faces(v, ch, n);
    }
    forall c | c in v.fds && c != m.fd ensures ConservedAt(w, [], c) {
      assert ConservedAt(v, [], c);
      ConservedFrame(v, w, [], c);
    }
    assert ConservedAt(v, [], m.fd);
    assert Pending([], m.fd) == [];
  }

  lemma AppendWired(v: View, channel: Channel, m: Msg)
    requires Wired(v) && !v.isDirect && Faces(v, channel, m)
    ensures Wired(Append(v, channel, m))
  {
    var w := Append(v, channel, m);
    forall ch, n | ch in w.queues && n in w.queues[ch] ensures Faces(w, ch, n) {
      if n != m || ch != channel {
        assert ch in v.queues && n in v.queues[ch];
        assert Faces(v, ch, n);
      }
    }
  }

  lemma AppendAccount(v: View, channel: Channel, m: Msg, c: Cell)
    requires Faces(v, channel, m) && Untagged(v, c) && v.fds[m.fd] >= 0
    ensures Pending(QueueTo(Append(v, channel, m), c), c)
            == Pending(QueueTo(v, c), c) + if c == m.fd then [m.body] else []
  {
    PendingConcat(QueueOf(v.queues, channel), [m], c);
    PendingOne(m, c);
  }

  lemma EnqueueQueues(v: View, channel: Channel, m: Msg)
    requires Inv(v) && !v.isDirect && Faces(v, channel, m) && v.fds[m.fd] >= 0
    ensures Inv(Append(Receive(v, m), channel, m))
  {
    ReceiveHolds(v, m);
    var w := Receive(v, m);
    var x := Append(w, channel, m);
    AppendWired(w, channel, m);
    forall c | c in x.fds ensures ConservedAt(x, [], c) {
      if Untagged(x, c) {
        AppendAccount(w, channel, m, c);
        assert Pending([], c) == [];
        if c != m.fd {
          assert ConservedAt(w, [], c);
        }
      }
    }
  }

  lemma ReceiveDirect(v: View, m: Msg)
    requires Inv(v) && v.isDirect && m.fd in v.fds && Untagged(v, m.fd)
    ensures Wired(Receive(v, m)) && Conserved(Receive(v, m), [m])
  {
    ReceiveHolds(v, m);
    var w := Receive(v, m);
    forall c | c in w.fds ensures ConservedAt(w, [m], c) {
      PendingOne(m, c);
      if Untagged(w, c) {
        assert QueueTo(w, c) == [] && Pending(QueueTo(w, c), c) == [];
        if c != m.fd {
          assert ConservedAt(w, [], c);
          assert Pending([], c) == [];
        }
      }
    }
  }

  /** enqueue_msg keeps the account: a body that arrives on an untagged connection is queued for, or in direct mode
      written to, the other end of that connection. */
  lemma EnqueueKeepsInv(v: View, fd: int, body: Bytes, writeOk: bool)
    requires Inv(v) && fd in v.table
    ensures Inv(Enqueue(v, fd, body, writeOk))
    ensures Peer(v, fd) in v.table
    ensures Enqueue(v, fd, body, writeOk).written ==
            if v.isDirect && writeOk && !v.table[fd].disconnected
            then v.written[v.table[fd].peerFd := v.written[v.table[fd].peerFd] + [body]]
            else v.written
  {
    var e := v.table[fd];
    var m := Msg(e.peerFd, body);
    ReceiveHolds(v, m);
    if e.disconnected {
      forall c | c in v.fds ensures ConservedAt(Receive(v, m), [], c) {}
    } else if v.isDirect {
      ReceiveDirect(v, m);
      DispatchKeepsInv(Receive(v, m), e.channel, m, writeOk);
    } else {
      EnqueueQueues(v, e.channel, m);
    }
  }

  /** enqueue_msg in every case. */
  lemma EnqueueMeans(v: View, fd: int, body: Bytes, writeOk: bool)
    requires Inv(v) && fd in v.table
    ensures var w, ch, peer := Enqueue(v, fd, body, writeOk), v.table[fd].channel, v.table[fd].peerFd;
            && peer in v.received && peer in v.written
            && var u := v.(received := v.received[peer := v.received[peer] + [body]]);
            if v.table[fd].disconnected then w == u
            else if !v.isDirect then
              w == u.(queues := v.queues[ch := (if ch in v.queues then v.queues[ch] else []) + [Msg(peer, body)]])
            else if writeOk then w == u.(written := v.written[peer := v.written[peer] + [body]])
            else Peer(v, fd) in u.table && Broken(u, w, Peer(v, fd))
  {
    var e := v.table[fd];
    var m := Msg(e.peerFd, body);
    WrittenKnown(v, e.peerFd);
    ReceiveHolds(v, m);
    if !e.disconnected && v.isDirect {
      ReceiveDirect(v, m);
      DispatchKeepsInv(Receive(v, m), e.channel, m, writeOk);
    }
  }

  lemma UninterceptKeepsInv(v: View, fd: int)
    requires Inv(v) && fd in v.table
    ensures Inv(Unintercept(v, fd))
  {
    var w := Unintercept(v, fd);
    forall ch, n | ch in w.queues && n in w.queues[ch] ensures Faces(w, ch, n) {
      assert Faces(v, ch, n);
    }
    forall c | c in w.fds ensures ConservedAt(w, [], c) {
      assert ConservedAt(v, [], c);
      ConservedFrame(v, w, [], c);
    }
  }

  // ---- Recovering

  ghost function Touching(v: View, node: Addr): set<int> {
    set f | f in v.table && v.table[f].channel.Touches(node)
  }

  lemma RecoverIsClosed(v: View, node: Addr)
    requires Wired(v)
    ensures Closed(v, Recover(v, node), Touching(v, node))
  {
  }

  lemma RecoverSpares(v: View, node: Addr)
    ensures var w := Recover(v, node);
            && (forall ch :: ch in w.queues ==> ch in v.queues && (w.queues[ch] == v.queues[ch] || w.queues[ch] == []))
            && (forall f :: f in w.table ==>
                 QueueOf(w.queues, w.table[f].channel.Swap()) == QueueOf(v.queues, v.table[f].channel.Swap()))
  {
  }

  /** After recover(node) no entry touches the node, and every message that was queued on a channel from or to it is
      dead, whether its queue was cleared or not. */
  lemma RecoverClears(v: View, node: Addr)
    requires Inv(v)
    ensures Inv(Recover(v, node))
    ensures forall f :: f in Recover(v, node).table ==> !Recover(v, node).table[f].channel.Touches(node)
    ensures forall ch, m :: ch in v.queues && m in v.queues[ch] && ch.Touches(node) ==> Recover(v, node).fds[m.fd] == -1
  {
    var w := Recover(v, node);
    RecoverIsClosed(v, node);
    RecoverSpares(v, node);
    ClosedKeepsInv(v, w, Touching(v, node), []);
    forall ch, m | ch in v.queues && m in v.queues[ch] && ch.Touches(node) ensures m.fd in w.fds && w.fds[m.fd] == -1 {
      assert Faces(v, ch, m);
    }
  }

  /** What recover(node) does to each entry, mark, cell and queue. */
  lemma RecoverMeans(v: View, node: Addr)
    requires Linked(v)
    ensures var w := Recover(v, node);
            && (forall f :: f in w.table <==> f in v.table && !v.table[f].channel.Touches(node))
            && (forall f :: f in w.table ==> w.table[f] == v.table[f])
            && (forall f :: f in w.unintercepted <==> f in v.unintercepted && !(f in v.table && f !in w.table))
            && w.fds.Keys == v.fds.Keys && w.queues.Keys == v.queues.Keys
            && (forall f :: f in v.table ==>
                 w.fds[v.table[f].selfFd] == if v.table[f].channel.Touches(node) then -1 else f)
            && (forall f :: f in v.table && v.table[f].channel.first == node && v.table[f].channel in v.queues ==>
                 w.queues[v.table[f].channel] == [])
            && (forall ch :: ch in v.queues && (ch.first != node || !HasChannel(v.table, ch)) ==>
                 w.queues[ch] == v.queues[ch])
            && w.received == v.received && w.written == v.written && w.isDirect == v.isDirect
  {
    var w := Recover(v, node);
    forall f | f in v.table && v.table[f].channel.first == node && v.table[f].channel in v.queues
      ensures w.queues[v.table[f].channel] == []
    {
      assert HasChannel(v.table, v.table[f].channel);
    }
  }

  /** After partition(node), before new connections come, a deliver from a channel touching the node writes nothing. */
  lemma PartitionStopsDelivery(v: View, node: Addr, channel: Channel, writeOk: bool)
    requires Inv(v) && channel.Touches(node)
    ensures Deliver(Partition(v, node), channel, writeOk).1 != Delivered
    ensures Deliver(Partition(v, node), channel, writeOk).0.written == v.written
  {
    PartitionKeepsInv(v, node);
    DeliverKeepsInv(Partition(v, node), channel, writeOk);
  }
}
