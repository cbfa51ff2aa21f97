/** do_receive of tproxy/TcpNetwork.cpp as a function: how many frames one call takes off a stream, why it stops, and
    what it leaves.  What the system does meanwhile is given beforehand, with the socket and the call. */
module Receiving {
  import opened Framing
  import opened ProxyState
  import opened ProxyArrivals

  /** The bytes a descriptor still delivers, and how many of them have come.  coming says how many more come before each
      of the next looks, and late for each of the next waits whether the time limit ends it; where coming runs out
      nothing more comes, and where late does waits last until they are met. */
  datatype Sock = Sock(unread: Bytes, arrived: nat, coming: seq<nat>, late: seq<bool>, ended: bool) {
    ghost predicate Valid() { arrived <= |unread| }
  }

  function Min(a: nat, b: nat): nat {
    if a <= b then a else b
  }

  function Look(s: Sock): (l: Sock)
    requires s.Valid()
    ensures l.Valid() && l.arrived >= s.arrived && l == s.(arrived := l.arrived, coming := l.coming)
  {
    if s.coming == [] then s
    else s.(arrived := Min(s.arrived + s.coming[0], |s.unread|), coming := s.coming[1..])
  }

  /** Waiting for so many bytes with MSG_WAITALL: until they or the end have come, or the time is over. */
  function Await(s: Sock, size: nat): (a: Sock)
    requires s.Valid()
    ensures a.Valid() && a.arrived >= s.arrived
    ensures a == s.(arrived := a.arrived, coming := a.coming, late := a.late)
    ensures true !in s.late ==> a.arrived >= Min(size, |s.unread|)
    ensures true in a.late ==> true in s.late
  {
    if s.late != [] && s.late[0] then Look(s.(late := s.late[1..]))
    else
      var enough := Min(size, |s.unread|);
      s.(arrived := if enough > s.arrived then enough else s.arrived, late := if s.late == [] then [] else s.late[1..])
  }

  function Take(s: Sock, n: nat): (t: Sock)
    requires s.Valid() && n <= s.arrived
    ensures t.Valid()
  {
    s.(unread := s.unread[n..], arrived := s.arrived - n)
  }

  datatype Reception = UnknownDescriptor | FrameRead | NotFramed | ClosedDown | Waiting

  datatype Round = Round(outcome: Reception, body: Bytes, s: Sock)

  /** One round of the loop: a peek, and if a good header is there its frame. */
  function ReadFrame(s: Sock, header: Bytes): (r: Round)
    requires s.Valid() && |header| == HEADER_SIZE
    ensures r.s.Valid() && r.outcome != UnknownDescriptor
    ensures r.outcome == FrameRead ==> |r.s.unread| < |s.unread|
  {
    var l := Look(s);
    var seen := Peek(header, l.unread[..Peeked(l.arrived)]);
    if l.arrived == 0 then Round(if l.unread == [] && l.ended then ClosedDown else Waiting, [], l)
    else if !PacketValidation(seen, Peeked(l.arrived)) then Round(NotFramed, [], l)
    else if l.arrived < HEADER_SIZE then Round(Waiting, [], l)
    else
      var size := HEADER_SIZE + Size(seen);
      var a := Await(l, size);
      if a.arrived < size then Round(ClosedDown, [], Take(a, a.arrived))
      else Round(FrameRead, a.unread[HEADER_SIZE..size], Take(a, size))
  }

  /** What one call comes to: why it stops, what it read, and what it leaves of the proxy and of the socket. */
  datatype Call = Call(outcome: Reception, bodies: seq<Bytes>, v: View, s: Sock)

  /** The loop, up to what stops it.  FrameRead as its outcome means that the write of the last body failed and closed
      the connection; the source then goes on with a dangling iterator. */
  function ReadFrames(v: View, fd: int, s: Sock, header: Bytes, writes: seq<bool>): (c: Call)
    requires fd in v.table && s.Valid() && |header| == HEADER_SIZE
    ensures c.s.Valid() && c.outcome != UnknownDescriptor
    decreases |s.unread|
  {
    var r := ReadFrame(s, header);
    if r.outcome != FrameRead then Call(r.outcome, [], v, r.s)
    else
      var w := Enqueue(v, fd, r.body, NextOk(writes));
      if fd !in w.table then Call(FrameRead, [r.body], w, r.s)
      else
        var rest := ReadFrames(w, fd, r.s, Header(|r.body|), LaterOks(writes));
        rest.(bodies := [r.body] + rest.bodies)
  }

  /** What a call does after its frames. */
  function AfterReception(v: View, fd: int, outcome: Reception): View {
    match outcome
    case NotFramed => Unintercept(v, fd)
    case ClosedDown => Close(v, fd)
    case _ => v
  }

  function DoReceive(v: View, fd: int, s: Sock, writes: seq<bool>): (c: Call)
    requires s.Valid()
    ensures c.s.Valid()
  {
    if fd !in v.table then Call(UnknownDescriptor, [], v, s)
    else if fd in v.unintercepted then Call(NotFramed, [], v, s)
    else
      var c := ReadFrames(v, fd, s, NO_HEADER, writes);
      c.(v := AfterReception(c.v, fd, c.outcome))
  }

  // ---- What happens to the proxy

  /** The bodies that are read, and no others, go one by one through enqueue_msg. */
  lemma {:induction false} ReadFramesEnqueue(v: View, fd: int, s: Sock, header: Bytes, writes: seq<bool>)
    requires fd in v.table && s.Valid() && |header| == HEADER_SIZE
    ensures var c := ReadFrames(v, fd, s, header, writes);
            && c.v == EnqueueAll(v, fd, c.bodies, writes) && AllTakenUp(v, fd, c.bodies, writes)
            && (c.outcome == FrameRead <==> fd !in c.v.table)
    decreases |s.unread|
  {
    var r := ReadFrame(s, header);
    if r.outcome == FrameRead {
      var w := Enqueue(v, fd, r.body, NextOk(writes));
      if fd in w.table {
        ReadFramesEnqueue(w, fd, r.s, Header(|r.body|), LaterOks(writes));
        var rest := ReadFrames(w, fd, r.s, Header(|r.body|), LaterOks(writes)).bodies;
        assert ([r.body] + rest)[1..] == rest;
      } else {
        assert [r.body][1..] == [];
      }
    }
  }

  lemma EndKeepsInv(v: View, fd: int, outcome: Reception)
    requires Inv(v) && (fd in v.table || outcome == FrameRead || outcome == UnknownDescriptor)
    ensures Inv(AfterReception(v, fd, outcome))
  {
    match outcome
    case NotFramed => UninterceptKeepsInv(v, fd);
    case ClosedDown => CloseKeepsInv(v, fd, []);
    case _ =>
  }

  lemma ReceiveKeepsInv(v: View, fd: int, s: Sock, writes: seq<bool>)
    requires Inv(v) && s.Valid()
    ensures Inv(DoReceive(v, fd, s, writes).v)
  {
    if fd in v.table && fd !in v.unintercepted {
      var c := ReadFrames(v, fd, s, NO_HEADER, writes);
      ReadFramesEnqueue(v, fd, s, NO_HEADER, writes);
      EnqueueAllKeepsInv(v, fd, c.bodies, writes);
      EndKeepsInv(c.v, fd, c.outcome);
    }
  }

  /** The connection is gone: neither end is in the table or marked, both cells are dead, and the rest is as it was. */
  ghost predicate Gone(v: View, w: View, fd: int)
    requires fd in v.table
  {
    var e, peer := v.table[fd], Peer(v, fd);
    && peer in v.table && peer != fd
    && w.table == v.table - {fd, peer} && w.unintercepted == v.unintercepted - {fd, peer}
    && e.selfFd in w.fds && w.fds[e.selfFd] == -1 && e.peerFd in w.fds && w.fds[e.peerFd] == -1
    && w.fds.Keys == v.fds.Keys
    && forall c :: c in v.fds && c != e.selfFd && c != e.peerFd ==> w.fds[c] == v.fds[c]
  }

  /** The table, the marks and the cells are as they were. */
  ghost predicate Undisturbed(v: View, w: View) {
    w.table == v.table && w.unintercepted == v.unintercepted && w.fds == v.fds
  }

  lemma CloseIsGone(v: View, fd: int)
    requires Linked(v) && fd in v.table
    ensures Gone(v, Close(v, fd), fd)
  {
    CloseView(v, fd);
  }

  lemma BrokenIsGone(v: View, w: View, fd: int)
    requires Linked(v) && fd in v.table && v.isDirect && Broken(v, w, Peer(v, fd))
    ensures Gone(v, w, fd)
  {
    PeersMatch(v, fd, fd);
    assert v.fds[v.table[fd].selfFd] == fd && v.fds[v.table[fd].peerFd] == Peer(v, fd);
    forall c | c in v.fds && c != v.table[fd].selfFd && c != v.table[fd].peerFd ensures w.fds[c] == v.fds[c] {
      assert v.fds[c] == -1 || v.table[v.fds[c]].selfFd == c;
    }
  }

  lemma EnqueueLeaves(v: View, fd: int, body: Bytes, ok: bool)
    requires Inv(v) && fd in v.table
    ensures var w := Enqueue(v, fd, body, ok);
            if fd in w.table then Undisturbed(v, w) else Gone(v, w, fd)
  {
    EnqueueTakesIn(v, fd, body, ok);
    EnqueueMeans(v, fd, body, ok);
    var peer := v.table[fd].peerFd;
    if fd !in Enqueue(v, fd, body, ok).table {
      var u := v.(received := v.received[peer := v.received[peer] + [body]]);
      BrokenIsGone(u, Enqueue(v, fd, body, ok), fd);
    }
  }

  lemma {:induction false} EnqueueAllLeaves(v: View, fd: int, bodies: seq<Bytes>, writes: seq<bool>)
    requires Inv(v) && fd in v.table
    ensures var w := EnqueueAll(v, fd, bodies, writes);
            if fd in w.table then Undisturbed(v, w) else Gone(v, w, fd)
    decreases |bodies|
  {
    if bodies != [] {
      var u := Enqueue(v, fd, bodies[0], NextOk(writes));
      EnqueueLeaves(v, fd, bodies[0], NextOk(writes));
      EnqueueKeepsInv(v, fd, bodies[0], NextOk(writes));
      if fd in u.table {
        EnqueueAllLeaves(u, fd, bodies[1..], LaterOks(writes));
      }
    }
  }

  /** What a call leaves, on any stream and in both modes.  If it closes, or a direct write fails, the connection is
      gone at both ends; if it gives up the framing the descriptor is marked; nothing else happens to the table, the
      marks or the cells. */
  lemma CallLeaves(v: View, fd: int, s: Sock, writes: seq<bool>)
    requires Inv(v) && s.Valid()
    ensures var c := DoReceive(v, fd, s, writes);
            if fd !in v.table then c.outcome == UnknownDescriptor && c.v == v && c.bodies == []
            else
              match c.outcome
              case ClosedDown => Gone(v, c.v, fd)
              case FrameRead => Gone(v, c.v, fd)
              case NotFramed =>
                c.v.table == v.table && c.v.fds == v.fds && c.v.unintercepted == v.unintercepted + {fd}
              case Waiting => Undisturbed(v, c.v)
              case UnknownDescriptor => false
  {
    if fd in v.table && fd !in v.unintercepted {
      var c := ReadFrames(v, fd, s, NO_HEADER, writes);
      ReadFramesEnqueue(v, fd, s, NO_HEADER, writes);
      EnqueueAllLeaves(v, fd, c.bodies, writes);
      EnqueueAllKeepsInv(v, fd, c.bodies, writes);
      if c.outcome == ClosedDown {
        CloseIsGone(c.v, fd);
      }
    } else if fd in v.table {
      assert v.unintercepted + {fd} == v.unintercepted;
    }
  }

  // ---- What happens to the stream

  /** Why a call stops, with left to go on the stream: less than a header is there, or bytes that are no header; or it
      is the end, or a frame of which only the tail was there when the wait for it was over, because of the time limit
      or because there is no more. */
  ghost predicate Stops(header: Bytes, outcome: Reception, tail: Bytes, left: Sock, late: bool)
    requires |header| == HEADER_SIZE
  {
    match outcome
    case Waiting =>
      && tail == [] && left.arrived < HEADER_SIZE && !Rejected(header, left.unread, left.arrived)
      && !(left.unread == [] && left.ended)
    case NotFramed => tail == [] && Rejected(header, left.unread, left.arrived)
    case ClosedDown =>
      || (tail == [] && left.unread == [] && left.ended)
      || (Truncated(tail) && (left.unread == [] || late))
    case FrameRead => tail == []
    case UnknownDescriptor => false
  }

  lemma Headed(s: Sock, header: Bytes)
    requires s.Valid() && |header| == HEADER_SIZE && Look(s).arrived >= HEADER_SIZE
    requires PacketValidation(Peek(header, s.unread[..HEADER_SIZE]), HEADER_SIZE)
    ensures var seen := Peek(header, s.unread[..HEADER_SIZE]);
            s.unread[..4] == MAGIC && Size(seen) == FromNetwork(s.unread[4..HEADER_SIZE])
  {
    var seen := Peek(header, s.unread[..HEADER_SIZE]);
    assert seen[4..] == s.unread[4..HEADER_SIZE] && seen[..4] == s.unread[..4];
  }

  /** Bytes that start with a header, up to its size and short of it. */
  lemma HeadOf(all: Bytes, n: nat, size: nat)
    requires HEADER_SIZE <= n <= |all| && all[..4] == MAGIC && size == FromNetwork(all[4..HEADER_SIZE])
    ensures n < HEADER_SIZE + size ==> Truncated(all[..n])
    ensures n == HEADER_SIZE + size ==> all[..n] == Frame(all[HEADER_SIZE..n]) && |all[HEADER_SIZE..n]| < TWO_32
  {
    var head := all[..n];
    assert head[..4] == all[..4] && head[4..HEADER_SIZE] == all[4..HEADER_SIZE];
    if n == HEADER_SIZE + size {
      WholeFrame(head);
      assert head[HEADER_SIZE..] == all[HEADER_SIZE..n];
    }
  }

  lemma SplitAt(b: Bytes, n: nat)
    requires n <= |b|
    ensures b == b[..n] + b[n..]
  {
  }

  /** A round that has a header waits for its frame. */
  lemma HeadedRound(s: Sock, header: Bytes) returns (a: Sock, size: nat)
    requires s.Valid() && |header| == HEADER_SIZE
    requires var r := ReadFrame(s, header); r.outcome == FrameRead || (r.outcome == ClosedDown && Look(s).arrived > 0)
    ensures a.Valid() && a.unread == s.unread && s.arrived <= a.arrived && HEADER_SIZE <= a.arrived
    ensures a.ended == s.ended && (true in a.late ==> true in s.late)
    ensures a.arrived >= Min(HEADER_SIZE + size, |s.unread|) || true in s.late
    ensures s.unread[..4] == MAGIC && size == FromNetwork(s.unread[4..HEADER_SIZE])
    ensures ReadFrame(s, header) ==
            if a.arrived < HEADER_SIZE + size then Round(ClosedDown, [], Take(a, a.arrived))
            else Round(FrameRead, a.unread[HEADER_SIZE..HEADER_SIZE + size], Take(a, HEADER_SIZE + size))
  {
    Headed(s, header);
    size := Size(Peek(header, s.unread[..HEADER_SIZE]));
    a := Await(Look(s), HEADER_SIZE + size);
  }

  lemma RoundStops(s: Sock, header: Bytes) returns (tail: Bytes)
    requires s.Valid() && |header| == HEADER_SIZE && ReadFrame(s, header).outcome != FrameRead
    ensures var r := ReadFrame(s, header);
            && s.unread == tail + r.s.unread && s.arrived <= |tail| + r.s.arrived
            && Stops(header, r.outcome, tail, r.s, true in s.late)
  {
    var r := ReadFrame(s, header);
    if r.outcome == ClosedDown && Look(s).arrived > 0 {
      var a, size := HeadedRound(s, header);
      tail := s.unread[..a.arrived];
      HeadOf(s.unread, a.arrived, size);
      SplitAt(s.unread, a.arrived);
    } else {
      tail := [];
      assert [] + r.s.unread == r.s.unread;
    }
  }

  lemma RoundReads(s: Sock, header: Bytes)
    requires s.Valid() && |header| == HEADER_SIZE && ReadFrame(s, header).outcome == FrameRead
    ensures var r := ReadFrame(s, header);
            && |r.body| < TWO_32 && s.unread == Frame(r.body) + r.s.unread
            && s.arrived <= |Frame(r.body)| + r.s.arrived
            && r.s.ended == s.ended && (true in r.s.late ==> true in s.late)
  {
    var a, size := HeadedRound(s, header);
    HeadOf(s.unread, HEADER_SIZE + size, size);
    SplitAt(s.unread, HEADER_SIZE + size);
  }

  /** A call takes exactly the frames of its bodies off the stream, and a tail if it closes; it forgets nothing that had
      come. */
  ghost predicate Reads(s: Sock, header: Bytes, c: Call, tail: Bytes)
    requires |header| == HEADER_SIZE
  {
    && AllShort(c.bodies)
    && s.unread == Frames(c.bodies) + tail + c.s.unread
    && s.arrived <= |Frames(c.bodies)| + |tail| + c.s.arrived
    && Stops(LastHeader(header, c.bodies), c.outcome, tail, c.s, true in s.late)
    && c.s.ended == s.ended && (true in c.s.late ==> true in s.late)
  }

  lemma FramesCons(body: Bytes, bodies: seq<Bytes>)
    ensures Frames([body] + bodies) == Frame(body) + Frames(bodies)
  {
    assert ([body] + bodies)[1..] == bodies;
  }

  lemma ReadsCons(s: Sock, header: Bytes, r: Round, c: Call, tail: Bytes)
    requires |header| == HEADER_SIZE && |r.body| < TWO_32
    requires s.unread == Frame(r.body) + r.s.unread && s.arrived <= |Frame(r.body)| + r.s.arrived
    requires r.s.ended == s.ended && (true in r.s.late ==> true in s.late)
    requires Reads(r.s, Header(|r.body|), c, tail)
    ensures Reads(s, header, c.(bodies := [r.body] + c.bodies), tail)
  {
    var bodies := [r.body] + c.bodies;
    FramesCons(r.body, c.bodies);
    Append3(Frame(r.body), Frames(c.bodies) + tail, c.s.unread);
    Append3(Frame(r.body), Frames(c.bodies), tail);
    assert LastHeader(header, bodies) == LastHeader(Header(|r.body|), c.bodies);
  }

  lemma {:induction false} ReadFramesReads(v: View, fd: int, s: Sock, header: Bytes, writes: seq<bool>)
    returns (tail: Bytes)
    requires fd in v.table && s.Valid() && |header| == HEADER_SIZE
    ensures Reads(s, header, ReadFrames(v, fd, s, header, writes), tail)
    decreases |s.unread|
  {
    var r := ReadFrame(s, header);
    if r.outcome != FrameRead {
      tail := RoundStops(s, header);
      assert Frames([]) + tail == tail;
    } else {
      RoundReads(s, header);
      var w := Enqueue(v, fd, r.body, NextOk(writes));
      if fd in w.table {
        tail := ReadFramesReads(w, fd, r.s, Header(|r.body|), LaterOks(writes));
        ReadsCons(s, header, r, ReadFrames(w, fd, r.s, Header(|r.body|), LaterOks(writes)), tail);
      } else {
        tail := [];
        ReadsCons(s, header, r, Call(FrameRead, [], w, r.s), []);
        assert [r.body] + [] == [r.body];
      }
    }
  }

  /** What a call of an intercepted descriptor does to the stream, whatever is on it. */
  lemma ReceiveReads(v: View, fd: int, s: Sock, writes: seq<bool>) returns (tail: Bytes)
    requires fd in v.table && fd !in v.unintercepted && s.Valid()
    ensures Reads(s, NO_HEADER, DoReceive(v, fd, s, writes), tail)
  {
    tail := ReadFramesReads(v, fd, s, NO_HEADER, writes);
  }

  // ---- On a stream of frames

  /** The first peek of the next call sees one to three bytes. */
  predicate ShortPeek(s: Sock)
    requires s.Valid()
  {
    0 < Look(s).arrived < 4
  }

  lemma ShortPeekGivesUp(v: View, fd: int, s: Sock, writes: seq<bool>)
    requires fd in v.table && s.Valid() && ShortPeek(s)
    ensures ReadFrames(v, fd, s, NO_HEADER, writes) == Call(NotFramed, [], v, Look(s))
  {
    FirstPeek(Look(s).unread[..Look(s).arrived]);
  }

  lemma NothingRead(v: View, fd: int, s: Sock, header: Bytes, writes: seq<bool>)
    requires fd in v.table && s.Valid() && |header| == HEADER_SIZE
    requires ReadFrames(v, fd, s, header, writes).bodies == []
    requires ReadFrames(v, fd, s, header, writes).outcome == NotFramed
    ensures ReadFrames(v, fd, s, header, writes).s == Look(s)
  {
  }

  lemma FramedTail(bodies: seq<Bytes>, tail: Bytes, unread: Bytes, left: seq<Bytes>)
    requires AllShort(bodies) && AllShort(left) && Frames(left) == Frames(bodies) + tail + unread
    ensures |bodies| <= |left| && bodies == left[..|bodies|]
    ensures tail == [] && unread == [] ==> bodies == left
    ensures Truncated(tail) ==> unread != []
  {
    Append3(Frames(bodies), tail, unread);
    FramedReception(left, bodies, tail + unread, |tail|);
    assert (tail + unread)[..|tail|] == tail;
  }

  /** A call that closes has met the end of all frames, or the time limit. */
  lemma FramedClose(s: Sock, c: Call, tail: Bytes, left: seq<Bytes>)
    requires Reads(s, NO_HEADER, c, tail) && s.unread == Frames(left) && AllShort(left) && c.outcome == ClosedDown
    ensures |c.bodies| <= |left| && c.bodies == left[..|c.bodies|]
    ensures (c.bodies == left && s.ended) || true in s.late
  {
    FramedTail(c.bodies, tail, c.s.unread, left);
  }

  lemma FramedLeft(bodies: seq<Bytes>, unread: Bytes, there: nat, left: seq<Bytes>)
    requires AllShort(bodies) && AllShort(left) && Frames(left) == Frames(bodies) + [] + unread && there <= |unread|
    ensures |bodies| <= |left| && bodies == left[..|bodies|] && unread == Frames(left[|bodies|..])
    ensures Rejected(LastHeader(NO_HEADER, bodies), unread, there) ==> bodies == [] && left != [] && 0 < there < 4
    ensures there == |unread| && there < HEADER_SIZE ==> bodies == left
  {
    Append3(Frames(bodies), [], unread);
    assert [] + unread == unread;
    FramedReception(left, bodies, unread, there);
  }

  lemma FramedStop(s: Sock, c: Call, tail: Bytes, left: seq<Bytes>)
    requires Reads(s, NO_HEADER, c, tail) && s.unread == Frames(left) && AllShort(left) && c.outcome != ClosedDown
    requires c.s.Valid()
    ensures |c.bodies| <= |left| && c.bodies == left[..|c.bodies|] && c.s.unread == Frames(left[|c.bodies|..])
    ensures c.outcome == NotFramed ==> c.bodies == [] && left != [] && 0 < c.s.arrived < 4
    ensures c.outcome == Waiting && s.arrived == |s.unread| ==> c.bodies == left
  {
    assert tail == [];
    FramedLeft(c.bodies, c.s.unread, c.s.arrived, left);
  }

  /** A call on a stream of frames reads the first buffers, and all if all has come and it goes on to wait.  It gives up
      exactly if its first peek sees one to three bytes, and closes only at the end of all or at the time limit. */
  lemma FramedCall(v: View, fd: int, s: Sock, writes: seq<bool>, left: seq<Bytes>)
    requires fd in v.table && fd !in v.unintercepted && s.Valid()
    requires s.unread == Frames(left) && AllShort(left)
    ensures var c := DoReceive(v, fd, s, writes);
            && |c.bodies| <= |left| && c.bodies == left[..|c.bodies|]
            && (c.outcome == NotFramed <==> ShortPeek(s))
            && (c.outcome == NotFramed ==> c.bodies == [] && left != [])
            && (c.outcome == ClosedDown ==> (c.bodies == left && s.ended) || true in s.late)
            && (c.outcome != ClosedDown ==> c.s.unread == Frames(left[|c.bodies|..]))
            && (c.outcome == Waiting && s.arrived == |s.unread| ==> c.bodies == left)
            && c.outcome != UnknownDescriptor
            && c.s.ended == s.ended && (true in c.s.late ==> true in s.late)
  {
    var c := DoReceive(v, fd, s, writes);
    var tail := ReceiveReads(v, fd, s, writes);
    if c.outcome == ClosedDown {
      FramedClose(s, c, tail, left);
    } else {
      FramedStop(s, c, tail, left);
    }
    if ShortPeek(s) {
      ShortPeekGivesUp(v, fd, s, writes);
    } else if c.outcome == NotFramed {
      NothingRead(v, fd, s, NO_HEADER, writes);
    }
  }
}
