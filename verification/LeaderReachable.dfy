/** From every reachable state of at least two servers some run goes on to elect a leader.

    Isolate every server, so that the network is empty; time every server out, so that none leads;
    raise one server above all terms; cure; time it out once more; deliver every request and reply. */
module LeaderReachable {
  import opened Options
  import opened FifoNetwork
  import opened Connectivity
  import opened Wires
  import opened PySyncObj
  import opened ElectionSafety
  import NetworkRuns

  /** More actions after the given ones, none of which leaves a role to chance. */
  ghost predicate Extension(acts: seq<Action>, more: seq<Action>) {
    |acts| <= |more| && more[..|acts|] == acts && Completed(more[|acts|..])
  }

  lemma Extend(nodes: set<Node>, acts: seq<Action>, a: Action) returns (more: seq<Action>)
    requires IsRun(nodes, acts) && Enabled(StateAfter(nodes, acts), a)
    ensures more == acts + [a] && IsRun(nodes, more)
    ensures !a.HandleRVRLoosely? ==> Extension(acts, more)
    ensures Step(StateAfter(nodes, acts), a) == Some(StateAfter(nodes, more))
  {
    more := acts + [a];
    NoAssertFails(nodes, acts, a);
    RunSnoc(nodes, acts, a);
  }

  lemma ExtensionTrans(a: seq<Action>, b: seq<Action>, c: seq<Action>)
    requires Extension(a, b) && Extension(b, c)
    ensures Extension(a, c)
  {
    assert c[..|a|] == c[..|b|][..|a|];
    assert c[|a|..] == b[|a|..] + c[|b|..];
  }

  /** The part of the invariants this module needs. */
  ghost predicate Shaped(nodes: set<Node>, s: State) {
    && s.servers.Keys == nodes
    && Meshed(nodes, s.net.msgs)
    && forall n :: n in s.servers ==> s.servers[n].log == INIT_LOG
  }

  lemma RunShaped(nodes: set<Node>, acts: seq<Action>)
    requires IsRun(nodes, acts)
    ensures Shaped(nodes, StateAfter(nodes, acts))
  {
    RunInv(nodes, acts);
    var s, h := StateAfter(nodes, acts), HistoryOf(nodes, acts);
    forall n | n in s.servers ensures s.servers[n].log == INIT_LOG {
      assert ServerOk(nodes, h, n, s.servers[n]);
    }
  }

  // ---- Isolation

  /** Every listed server is cut off: no link and no message to or from it. */
  ghost predicate Isolated(s: State, done: set<Node>) {
    forall x, y :: x != y && (x in done || y in done) ==>
      !IsConn(s.net.man.conn, x, y) && Queue(s.net.msgs, x, y) == []
  }

  lemma IsolateOne(nodes: set<Node>, s: State, done: set<Node>, n: Node)
    requires Shaped(nodes, s) && n in nodes && Isolated(s, done)
    ensures Isolated(Step(s, Partition(n)).value, done + {n})
    ensures Step(s, Partition(n)).value.servers == s.servers
  {
    NetworkRuns.PartQueues(nodes, s.net, {n}, true);
    var s' := Step(s, Partition(n)).value;
    forall x, y | x != y && (x in done + {n} || y in done + {n})
      ensures !IsConn(s'.net.man.conn, x, y) && Queue(s'.net.msgs, x, y) == []
    {
      PartConnPairs({n}, s.net.man.conn, x, y);
    }
  }

  lemma IsolateNext(nodes: set<Node>, acts: seq<Action>, done: set<Node>, n: Node) returns (next: seq<Action>)
    requires IsRun(nodes, acts) && n in nodes && Isolated(StateAfter(nodes, acts), done)
    ensures IsRun(nodes, next) && Extension(acts, next)
    ensures Isolated(StateAfter(nodes, next), done + {n})
    ensures StateAfter(nodes, next).servers == StateAfter(nodes, acts).servers
  {
    RunShaped(nodes, acts);
    IsolateOne(nodes, StateAfter(nodes, acts), done, n);
    next := Extend(nodes, acts, Partition(n));
  }

  lemma {:induction false} IsolateAll(nodes: set<Node>, acts: seq<Action>, done: set<Node>, todo: set<Node>)
    returns (more: seq<Action>)
    requires IsRun(nodes, acts) && done + todo == nodes && Isolated(StateAfter(nodes, acts), done)
    ensures IsRun(nodes, more) && Extension(acts, more)
    ensures Isolated(StateAfter(nodes, more), nodes)
    ensures StateAfter(nodes, more).servers == StateAfter(nodes, acts).servers
    decreases |todo|
  {
    if todo == {} {
      more := acts;
      assert done == nodes;
    } else {
      var n :| n in todo;
      var next := IsolateNext(nodes, acts, done, n);
      more := IsolateAll(nodes, next, done + {n}, todo - {n});
      ExtensionTrans(acts, next, more);
    }
  }

  // ---- Timing out in isolation

  lemma {:induction false} NothingSent(net: Net, ms: seq<Envelope>)
    requires forall m :: m in ms ==> !IsConn(net.man.conn, m.src, m.dst)
    ensures AddEach(net, ms) == net
  {
    if ms != [] {
      NothingSent(net, ms[..|ms| - 1]);
      assert ms[|ms| - 1] in ms;
    }
  }

  lemma TimeOutAlone(nodes: set<Node>, acts: seq<Action>, n: Node) returns (next: seq<Action>)
    requires IsRun(nodes, acts) && n in nodes && Isolated(StateAfter(nodes, acts), nodes)
    ensures IsRun(nodes, next) && Extension(acts, next)
    ensures Isolated(StateAfter(nodes, next), nodes)
    ensures n in StateAfter(nodes, acts).servers
    ensures var s := StateAfter(nodes, acts);
            StateAfter(nodes, next).servers == s.servers[n := BecomeCandidate(s.servers[n], n)]
  {
    var s := StateAfter(nodes, acts);
    RunShaped(nodes, acts);
    TimeOutBatch(s, n);
    BatchIsAddEach(s.net, Requests(s, n));
    NothingSent(s.net, Requests(s, n));
    next := Extend(nodes, acts, ElectionTimeout(n));
  }

  ghost predicate NoLeaderIn(s: State, done: set<Node>) {
    forall n :: n in done && n in s.servers ==> s.servers[n].role != Leader
  }

  lemma {:induction false} DeposeAll(nodes: set<Node>, acts: seq<Action>, done: set<Node>, todo: set<Node>)
    returns (more: seq<Action>)
    requires IsRun(nodes, acts) && done + todo == nodes
    requires Isolated(StateAfter(nodes, acts), nodes) && NoLeaderIn(StateAfter(nodes, acts), done)
    ensures IsRun(nodes, more) && Extension(acts, more)
    ensures Isolated(StateAfter(nodes, more), nodes) && NoLeaderIn(StateAfter(nodes, more), nodes)
    decreases |todo|
  {
    if todo == {} {
      more := acts;
      assert done == nodes;
    } else {
      var n :| n in todo;
      var next := TimeOutAlone(nodes, acts, n);
      more := DeposeAll(nodes, next, done + {n}, todo - {n});
      ExtensionTrans(acts, next, more);
    }
  }

  // ---- Raising one term above the others

  lemma {:induction false} TermBound(nodes: set<Node>, servers: map<Node, Server>) returns (bound: int)
    requires nodes <= servers.Keys
    ensures forall n :: n in nodes ==> servers[n].currentTerm <= bound
    decreases |nodes|
  {
    if nodes == {} {
      bound := 0;
    } else {
      var n :| n in nodes;
      bound := TermBound(nodes - {n}, servers);
      bound := if servers[n].currentTerm > bound then servers[n].currentTerm else bound;
    }
  }

  ghost predicate OthersKept(s: State, s': State, c: Node) {
    s'.servers.Keys == s.servers.Keys && forall n :: n in s.servers && n != c ==> s'.servers[n] == s.servers[n]
  }

  ghost predicate OthersBelow(s: State, c: Node, bound: int) {
    forall n :: n in s.servers && n != c ==> s.servers[n].currentTerm <= bound
  }

  lemma {:induction false} Raise(nodes: set<Node>, acts: seq<Action>, c: Node, bound: int, steps: nat)
    returns (more: seq<Action>)
    requires IsRun(nodes, acts) && c in nodes && c in StateAfter(nodes, acts).servers
    requires var s := StateAfter(nodes, acts);
             Isolated(s, nodes) && OthersBelow(s, c, bound) && s.servers[c].currentTerm + steps >= bound
    ensures IsRun(nodes, more) && Extension(acts, more)
    ensures var s := StateAfter(nodes, more);
            Isolated(s, nodes) && OthersBelow(s, c, bound) && c in s.servers && s.servers[c].currentTerm >= bound
    ensures OthersKept(StateAfter(nodes, acts), StateAfter(nodes, more), c)
    ensures NoLeaderIn(StateAfter(nodes, acts), nodes) ==> NoLeaderIn(StateAfter(nodes, more), nodes)
    decreases steps
  {
    if steps == 0 {
      more := acts;
    } else {
      var next := TimeOutAlone(nodes, acts, c);
      more := Raise(nodes, next, c, bound, steps - 1);
      ExtensionTrans(acts, next, more);
    }
  }

  // ---- The election

  ghost predicate AllLinked(s: State) {
    forall x, y :: x in s.servers && y in s.servers && x != y ==> IsConn(s.net.man.conn, x, y)
  }

  /** The candidate after k votes of others. */
  ghost predicate Ahead(me: Server, k: int, cluster: int) {
    || me.role == Leader
    || (me.role == Candidate && me.votesCount == 1 + k && (k > 0 ==> 2 * (1 + k) <= cluster))
  }

  /** A server that has just the request of a higher term in its queue, and nothing sent back. */
  ghost predicate Asked(s: State, c: Node, term: int, d: Node) {
    && d in s.servers
    && s.servers[d].role != Leader && s.servers[d].currentTerm < term && s.servers[d].log == INIT_LOG
    && Queue(s.net.msgs, d, c) == []
    && |Queue(s.net.msgs, c, d)| == 1
    && Queue(s.net.msgs, c, d)[0].body == RequestVote(term, 0, 1)
  }

  /** The votes of k servers are counted; the others have just the request in their queue. */
  ghost predicate Electing(s: State, c: Node, term: int, k: int, todo: set<Node>) {
    && c in s.servers && c !in todo && todo <= s.servers.Keys
    && s.servers[c].currentTerm == term
    && AllLinked(s)
    && Ahead(s.servers[c], k, |s.servers|)
    && forall d :: d in todo ==> Asked(s, c, term, d)
  }

  /** The state after server d got the request and voted. */
  ghost predicate Voted(s: State, s': State, c: Node, term: int, d: Node) {
    && s'.servers.Keys == s.servers.Keys
    && s'.net.man.conn == s.net.man.conn
    && d in s.servers && s'.servers[d] == s.servers[d].(currentTerm := term, role := Follower, votedFor := Some(c))
    && (forall n :: n in s.servers && n != d ==> s'.servers[n] == s.servers[n])
    && (forall x, y :: !(x == c && y == d) && !(x == d && y == c) ==>
         Queue(s'.net.msgs, x, y) == Queue(s.net.msgs, x, y))
    && |Queue(s'.net.msgs, d, c)| == 1
    && Queue(s'.net.msgs, d, c)[0].body == RequestVoteResponse(term)
  }

  lemma DeliverRequest(nodes: set<Node>, s: State, c: Node, term: int, d: Node)
    requires Shaped(nodes, s) && c in nodes && c != d && Asked(s, c, term, d) && IsConn(s.net.man.conn, d, c)
    ensures Enabled(s, HandleRV(c, d)) && Step(s, HandleRV(c, d)).Some?
    ensures Voted(s, Step(s, HandleRV(c, d)).value, c, term, d)
  {
    var response := RequestVoteResponse(term);
    assert GrantsVote(s.servers[d], RequestVote(term, 0, 1));
    NetworkRuns.DelQueue(nodes, s.net, c, d);
    NetworkRuns.ReplyIsDelThenAdd(nodes, s.net, response, c, d);
    NetworkRuns.AddQueue(nodes, NetworkRuns.Taken(s.net, c, d), Envelope(d, c, response));
    var s' := Step(s, HandleRV(c, d)).value;
    assert s'.servers.Keys == s.servers.Keys;
  }

  /** The state after the candidate counted the vote of d. */
  ghost predicate VoteCounted(s: State, s': State, c: Node, term: int, d: Node) {
    && s'.servers.Keys == s.servers.Keys && c in s.servers
    && s'.net.man.conn == s.net.man.conn
    && s'.servers[c] == CountVote(s.servers[c], term, |s.servers|)
    && (forall n :: n in s.servers && n != d && n != c ==> s'.servers[n] == s.servers[n])
    && (forall x, y :: !(x == c && y == d) && !(x == d && y == c) ==>
         Queue(s'.net.msgs, x, y) == Queue(s.net.msgs, x, y))
  }

  lemma CountStep(nodes: set<Node>, s: State, c: Node, term: int, d: Node)
    requires s.servers.Keys == nodes && Meshed(nodes, s.net.msgs) && c in nodes && d in nodes && c != d
    requires Queue(s.net.msgs, d, c) != [] && Queue(s.net.msgs, d, c)[0].body == RequestVoteResponse(term)
    ensures Enabled(s, HandleRVR(d, c))
    ensures Step(s, HandleRVR(d, c)) ==
            Some(State(s.servers[c := CountVote(s.servers[c], term, |s.servers|)], NetworkRuns.Taken(s.net, d, c)))
  {
    NetworkRuns.DelQueue(nodes, s.net, d, c);
  }

  lemma DeliverResponse(nodes: set<Node>, s: State, s': State, c: Node, term: int, d: Node)
    requires Shaped(nodes, s) && Shaped(nodes, s') && c in nodes && d in nodes && c != d && Voted(s, s', c, term, d)
    ensures Enabled(s', HandleRVR(d, c)) && Step(s', HandleRVR(d, c)).Some?
    ensures VoteCounted(s, Step(s', HandleRVR(d, c)).value, c, term, d)
  {
    CountStep(nodes, s', c, term, d);
    DeliverCounted(nodes, s, s', Step(s', HandleRVR(d, c)).value, c, term, d);
  }

  lemma DeliverCounted(nodes: set<Node>, s: State, s': State, s'': State, c: Node, term: int, d: Node)
    requires Shaped(nodes, s) && Shaped(nodes, s') && c in nodes && d in nodes && c != d && Voted(s, s', c, term, d)
    requires NetGetMsg(s'.net, d, c).Some?
    requires s'' == State(
        s'.servers[c := CountVote(s'.servers[c], term, |s'.servers|)], NetworkRuns.Taken(s'.net, d, c))
    ensures VoteCounted(s, s'', c, term, d)
  {
    NetworkRuns.DelQueue(nodes, s'.net, d, c);
    assert |s'.servers.Keys| == |s'.servers| && |s.servers.Keys| == |s.servers|;
    assert s''.servers.Keys == s'.servers.Keys;
    CountedFrom(s, s', s'', c, term, d);
  }

  lemma CountedFrom(s: State, s': State, s'': State, c: Node, term: int, d: Node)
    requires Voted(s, s', c, term, d) && c in s.servers && c != d && |s'.servers| == |s.servers|
    requires s''.servers == s'.servers[c := CountVote(s'.servers[c], term, |s'.servers|)]
    requires s''.servers.Keys == s'.servers.Keys && s''.net.man.conn == s'.net.man.conn
    requires forall x, y :: !(x == d && y == c) ==> Queue(s''.net.msgs, x, y) == Queue(s'.net.msgs, x, y)
    ensures VoteCounted(s, s'', c, term, d)
  {
  }

  lemma CountOne(s: State, s': State, c: Node, term: int, k: int, todo: set<Node>, d: Node)
    requires Electing(s, c, term, k, todo) && d in todo && VoteCounted(s, s', c, term, d) && k >= 0
    ensures Electing(s', c, term, k + 1, todo - {d})
  {
    assert |s'.servers.Keys| == |s'.servers| && |s.servers.Keys| == |s.servers|;
    forall e | e in todo - {d} ensures Asked(s', c, term, e) {
      assert Asked(s, c, term, e);
    }
  }

  lemma ElectNext(nodes: set<Node>, acts: seq<Action>, c: Node, term: int, k: nat, todo: set<Node>, d: Node)
    returns (next: seq<Action>)
    requires IsRun(nodes, acts) && Electing(StateAfter(nodes, acts), c, term, k, todo) && d in todo
    ensures IsRun(nodes, next) && Extension(acts, next)
    ensures Electing(StateAfter(nodes, next), c, term, k + 1, todo - {d})
  {
    var s := StateAfter(nodes, acts);
    RunShaped(nodes, acts);
    DeliverRequest(nodes, s, c, term, d);
    var voted := Extend(nodes, acts, HandleRV(c, d));
    RunShaped(nodes, voted);
    DeliverResponse(nodes, s, StateAfter(nodes, voted), c, term, d);
    next := Extend(nodes, voted, HandleRVR(d, c));
    CountOne(s, StateAfter(nodes, next), c, term, k, todo, d);
    ExtensionTrans(acts, voted, next);
  }

  lemma {:induction false} Elect(nodes: set<Node>, acts: seq<Action>, c: Node, term: int, k: nat, todo: set<Node>)
    returns (more: seq<Action>)
    requires IsRun(nodes, acts) && Electing(StateAfter(nodes, acts), c, term, k, todo)
    requires k + |todo| == |StateAfter(nodes, acts).servers| - 1 > 0
    ensures IsRun(nodes, more) && Extension(acts, more)
    ensures LeaderAt(StateAfter(nodes, more), c, term)
    decreases |todo|
  {
    if todo == {} {
      more := acts;
    } else {
      var d :| d in todo;
      var next := ElectNext(nodes, acts, c, term, k, todo, d);
      SameSize(nodes, acts, next);
      more := Elect(nodes, next, c, term, k + 1, todo - {d});
      ExtensionTrans(acts, next, more);
    }
  }

  lemma SameSize(nodes: set<Node>, acts: seq<Action>, more: seq<Action>)
    requires IsRun(nodes, acts) && IsRun(nodes, more)
    ensures |StateAfter(nodes, acts).servers| == |StateAfter(nodes, more).servers| == |nodes|
  {
    RunShaped(nodes, acts);
    RunShaped(nodes, more);
    assert |StateAfter(nodes, acts).servers.Keys| == |StateAfter(nodes, acts).servers|;
    assert |StateAfter(nodes, more).servers.Keys| == |StateAfter(nodes, more).servers|;
  }

  // ---- Opening the election

  function SentTo(ms: seq<Envelope>, d: Node): seq<Body> {
    if ms == [] then []
    else SentTo(ms[..|ms| - 1], d) + if ms[|ms| - 1].dst == d then [ms[|ms| - 1].body] else []
  }

  ghost predicate Carries(q: seq<Msg>, bodies: seq<Body>) {
    |q| == |bodies| && forall i :: 0 <= i < |q| ==> q[i].body == bodies[i]
  }

  /** On an empty network, a batch from c leaves in the queue to d the bodies sent to d. */
  lemma {:induction false} BatchFills(nodes: set<Node>, net: Net, c: Node, ms: seq<Envelope>, d: Node)
    requires Meshed(nodes, net.msgs) && c in nodes && IsConn(net.man.conn, c, d)
    requires Queue(net.msgs, c, d) == []
    requires forall m :: m in ms ==> m.src == c && m.dst in nodes && m.dst != c
    ensures Meshed(nodes, AddEach(net, ms).msgs) && AddEach(net, ms).man.conn == net.man.conn
    ensures Carries(Queue(AddEach(net, ms).msgs, c, d), SentTo(ms, d))
  {
    if ms != [] {
      var init, m := ms[..|ms| - 1], ms[|ms| - 1];
      assert m in ms;
      BatchFills(nodes, net, c, init, d);
      NetworkRuns.AddQueue(nodes, AddEach(net, init), m);
    }
  }

  lemma {:induction false} BatchSpares(nodes: set<Node>, net: Net, c: Node, ms: seq<Envelope>, x: Node, y: Node)
    requires Meshed(nodes, net.msgs) && c in nodes && x != c
    requires forall m :: m in ms ==> m.src == c && m.dst in nodes && m.dst != c
    ensures Meshed(nodes, AddEach(net, ms).msgs)
    ensures Queue(AddEach(net, ms).msgs, x, y) == Queue(net.msgs, x, y)
  {
    if ms != [] {
      var init, m := ms[..|ms| - 1], ms[|ms| - 1];
      assert m in ms;
      BatchSpares(nodes, net, c, init, x, y);
      NetworkRuns.AddQueue(nodes, AddEach(net, init), m);
    }
  }

  lemma {:induction false} SentOnce(ms: seq<Envelope>, d: Node, b: Body)
    requires forall j, k :: 0 <= j < k < |ms| ==> ms[j].dst != ms[k].dst
    requires forall m :: m in ms ==> m.body == b
    ensures SentTo(ms, d) == if exists m :: m in ms && m.dst == d then [b] else []
  {
    if ms != [] {
      var init, last := ms[..|ms| - 1], ms[|ms| - 1];
      SentOnce(init, d, b);
      assert last in ms;
      if last.dst == d {
        forall m | m in init ensures m.dst != d {}
      } else {
        assert (exists m :: m in ms && m.dst == d) <==> (exists m :: m in init && m.dst == d);
      }
    }
  }

  lemma CureAll(nodes: set<Node>, acts: seq<Action>) returns (next: seq<Action>)
    requires IsRun(nodes, acts)
    ensures IsRun(nodes, next) && Extension(acts, next)
    ensures var s, s' := StateAfter(nodes, acts), StateAfter(nodes, next);
            s'.servers == s.servers && s'.net.msgs == s.net.msgs && AllLinked(s')
  {
    RunShaped(nodes, acts);
    next := Extend(nodes, acts, Cure);
    var s, s' := StateAfter(nodes, acts), StateAfter(nodes, next);
    forall x, y | x in s'.servers && y in s'.servers ensures IsConn(s'.net.man.conn, x, y) {
      IsConnMeans(s'.net.man.conn, x, y);
      assert s.net.msgs.Keys in s'.net.man.conn;
    }
  }

  lemma BatchAsks(nodes: set<Node>, s: State, c: Node, d: Node)
    requires Shaped(nodes, s) && c in nodes && d in nodes && d != c
    requires IsConn(s.net.man.conn, c, d) && Queue(s.net.msgs, c, d) == []
    ensures var after := AddEach(s.net, Requests(s, c)).msgs;
            && Carries(Queue(after, c, d), [RequestOf(BecomeCandidate(s.servers[c], c))])
            && Queue(after, d, c) == Queue(s.net.msgs, d, c)
  {
    var ms, request := Requests(s, c), RequestOf(BecomeCandidate(s.servers[c], c));
    TimeOutBatch(s, c);
    SentOnce(ms, d, request);
    assert Envelope(c, d, request) in ms;
    BatchFills(nodes, s.net, c, ms, d);
    BatchSpares(nodes, s.net, c, ms, d, c);
  }

  lemma AskedByBatch(nodes: set<Node>, s: State, c: Node, d: Node)
    requires Shaped(nodes, s) && c in nodes && d in nodes && d != c
    requires s.servers[d].role != Leader && s.servers[d].currentTerm <= s.servers[c].currentTerm
    requires IsConn(s.net.man.conn, c, d) && Queue(s.net.msgs, c, d) == [] && Queue(s.net.msgs, d, c) == []
    ensures Step(s, ElectionTimeout(c)).Some?
    ensures Asked(Step(s, ElectionTimeout(c)).value, c, s.servers[c].currentTerm + 1, d)
  {
    TimeOutIs(s, c);
    BatchAsks(nodes, s, c, d);
  }

  lemma OpenElecting(nodes: set<Node>, s: State, s': State, c: Node)
    requires s.servers.Keys == nodes && c in nodes && AllLinked(s)
    requires s'.net.man.conn == s.net.man.conn && s'.servers == s.servers[c := BecomeCandidate(s.servers[c], c)]
    requires forall d :: d in nodes - {c} ==> Asked(s', c, s.servers[c].currentTerm + 1, d)
    ensures Electing(s', c, s.servers[c].currentTerm + 1, 0, nodes - {c})
  {
    assert s'.servers.Keys == nodes;
  }

  /** Every server linked, nothing on its way, and none above c. */
  ghost predicate Rested(nodes: set<Node>, s: State, c: Node) {
    && s.servers.Keys == nodes && c in nodes
    && OthersBelow(s, c, s.servers[c].currentTerm) && AllLinked(s)
    && forall x, y :: x != y && x in nodes ==> Queue(s.net.msgs, x, y) == []
  }

  /** And none leading. */
  ghost predicate Quiet(nodes: set<Node>, s: State, c: Node) {
    Rested(nodes, s, c) && NoLeaderIn(s, nodes)
  }

  lemma RaiseAndCure(nodes: set<Node>, acts: seq<Action>, c: Node) returns (more: seq<Action>)
    requires IsRun(nodes, acts) && c in nodes
    requires Isolated(StateAfter(nodes, acts), nodes)
    ensures IsRun(nodes, more) && Extension(acts, more) && Rested(nodes, StateAfter(nodes, more), c)
    ensures NoLeaderIn(StateAfter(nodes, acts), nodes) ==> Quiet(nodes, StateAfter(nodes, more), c)
    ensures OthersKept(StateAfter(nodes, acts), StateAfter(nodes, more), c)
  {
    RunShaped(nodes, acts);
    var bound := TermBound(nodes, StateAfter(nodes, acts).servers);
    var raised := Raise(nodes, acts, c, bound, bound - StateAfter(nodes, acts).servers[c].currentTerm);
    more := CureAll(nodes, raised);
    ExtensionTrans(acts, raised, more);
  }

  lemma Open(nodes: set<Node>, acts: seq<Action>, c: Node) returns (next: seq<Action>)
    requires IsRun(nodes, acts) && Quiet(nodes, StateAfter(nodes, acts), c)
    ensures IsRun(nodes, next) && Extension(acts, next) && next == acts + [ElectionTimeout(c)]
    ensures Electing(StateAfter(nodes, next), c, StateAfter(nodes, acts).servers[c].currentTerm + 1, 0, nodes - {c})
    ensures StateAfter(nodes, next).servers ==
            StateAfter(nodes, acts).servers[c := BecomeCandidate(StateAfter(nodes, acts).servers[c], c)]
  {
    var s := StateAfter(nodes, acts);
    RunShaped(nodes, acts);
    next := Extend(nodes, acts, ElectionTimeout(c));
    var s' := StateAfter(nodes, next);
    TimeOutIs(s, c);
    forall d | d in nodes - {c} ensures Asked(s', c, s.servers[c].currentTerm + 1, d) {
      AskedByBatch(nodes, s, c, d);
    }
    OpenElecting(nodes, s, s', c);
  }

  lemma OpenAndElect(nodes: set<Node>, acts: seq<Action>, c: Node) returns (more: seq<Action>)
    requires IsRun(nodes, acts) && |nodes| >= 2 && Quiet(nodes, StateAfter(nodes, acts), c)
    ensures IsRun(nodes, more) && Extension(acts, more)
    ensures LeaderAt(StateAfter(nodes, more), c, StateAfter(nodes, acts).servers[c].currentTerm + 1)
  {
    var started := Open(nodes, acts, c);
    SameSize(nodes, acts, started);
    assert |nodes - {c}| == |nodes| - 1;
    more := Elect(nodes, started, c, StateAfter(nodes, acts).servers[c].currentTerm + 1, 0, nodes - {c});
    ExtensionTrans(acts, started, more);
  }

  /** Every reachable state of a cluster of two or more can still reach an elected leader, with no role left to chance
      on the way. */
  lemma LeaderReachable(nodes: set<Node>, acts: seq<Action>) returns (more: seq<Action>, c: Node, term: int)
    requires IsRun(nodes, acts) && |nodes| >= 2
    ensures IsRun(nodes, more) && Extension(acts, more)
    ensures LeaderAt(StateAfter(nodes, more), c, term)
  {
    c :| c in nodes;
    var isolated := IsolateAll(nodes, acts, {}, nodes);
    var deposed := DeposeAll(nodes, isolated, {}, nodes);
    var cured := RaiseAndCure(nodes, deposed, c);
    more := OpenAndElect(nodes, cured, c);
    term := StateAfter(nodes, cured).servers[c].currentTerm + 1;
    ExtensionTrans(acts, isolated, deposed);
    ExtensionTrans(acts, deposed, cured);
    ExtensionTrans(acts, cured, more);
  }

  /** Two servers are needed: in no run of a single one does it ever lead. */
  lemma {:induction false} LoneServerNeverLeads(nodes: set<Node>, acts: seq<Action>)
    requires IsRun(nodes, acts) && |nodes| <= 1
    ensures NoLeaderIn(StateAfter(nodes, acts), nodes)
  {
    if acts != [] {
      var init, a := acts[..|acts| - 1], acts[|acts| - 1];
      LoneServerNeverLeads(nodes, init);
      RunShaped(nodes, init);
      if a.ElectionTimeout? {
        TimeOutBatch(StateAfter(nodes, init), a.n);
      } else if a.HandleRVR? || a.HandleRVRLoosely? {
        AtMostOne(nodes, a.src, a.dst);
      }
    }
  }
}
