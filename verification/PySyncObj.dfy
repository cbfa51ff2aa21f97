/** The leader election of PySyncObjTLA/PySyncObj.tla, over the FIFO network.

    The specification's functions from servers to terms, votes, roles, logs and vote counts are one
    map from servers to records.  An action is named by the servers its existential chooses; given
    those, the next state is a function of the current one.  The exception is a vote that is counted
    without making a quorum: there the specification does not say what the roles become.  HandleRVR
    keeps them, as is meant; HandleRVRLoosely is the same step with any roles.  A run may take both;
    it is Completed when it takes the first one only. */
module PySyncObj {
  import opened Options
  import opened FifoNetwork
  import opened Connectivity
  import opened Wires
  import NetworkRuns

  datatype Role = Follower | Candidate | Leader

  datatype Entry = Entry(idx: int, term: int)

  type Log = l: seq<Entry> | l != [] witness [Entry(1, 0)]

  const INIT_LOG: Log := [Entry(1, 0)]

  datatype Server = Server(currentTerm: int, votedFor: Option<Node>, role: Role, votesCount: int, log: Log) {
    function CurrentLog(): Entry { log[|log| - 1] }

    /** The specification swaps the two fields. */
    function CurrentLogTerm(): int { CurrentLog().idx }

    function CurrentLogIdx(): int { CurrentLog().term }
  }

  datatype State = State(servers: map<Node, Server>, net: Net)

  ghost function Init(nodes: set<Node>): State {
    State(map n | n in nodes :: Server(0, None, Follower, 0, INIT_LOG), InitNet(nodes))
  }

  datatype Action =
    | HandleRV(src: Node, dst: Node)
    | HandleRVR(src: Node, dst: Node)
    | HandleRVRLoosely(src: Node, dst: Node, roles: map<Node, Role>)
    | ElectionTimeout(n: Node)
    | Partition(n: Node)
    | Cure

  ghost predicate ResponseReady(s: State, src: Node, dst: Node) {
    && src in s.servers && dst in s.servers && src != dst
    && NetGetMsg(s.net, src, dst).Some? && NetGetMsg(s.net, src, dst).value.body.RequestVoteResponse?
  }

  ghost predicate Enabled(s: State, a: Action) {
    match a
    case HandleRV(src, dst) =>
      && src in s.servers && dst in s.servers && src != dst
      && NetGetMsg(s.net, src, dst).Some? && NetGetMsg(s.net, src, dst).value.body.RequestVote?
    case HandleRVR(src, dst) => ResponseReady(s, src, dst)
    case HandleRVRLoosely(src, dst, roles) =>
      && ResponseReady(s, src, dst) && roles.Keys == s.servers.Keys
      && RolesLeftFree(s.servers[dst], NetGetMsg(s.net, src, dst).value.body.term, |s.servers|)
    case ElectionTimeout(n) => n in s.servers
    case Partition(n) => n in s.servers
    case Cure => true
  }

  // ---- Handling a vote request

  /** CheckTermBecomeFollower. */
  function BecomeFollower(me: Server, term: int): Server {
    if term > me.currentTerm then me.(currentTerm := term, role := Follower) else me
  }

  predicate LogOutdated(me: Server, data: Body)
    requires data.RequestVote?
  {
    || data.lastLogTerm < me.CurrentLogTerm()
    || (data.lastLogTerm == me.CurrentLogTerm() && data.lastLogIdx < me.CurrentLogIdx())
  }

  predicate TermNotVoted(me: Server, me': Server) {
    if me'.currentTerm > me.currentTerm then true else me.votedFor == None
  }

  /** The role is the one before the step: a leader that steps down here does not vote. */
  predicate GrantsVote(me: Server, data: Body)
    requires data.RequestVote?
  {
    var me' := BecomeFollower(me, data.term);
    && me.role != Leader
    && data.term >= me'.currentTerm
    && !(LogOutdated(me, data) || !TermNotVoted(me, me'))
  }

  function HandleMsgRV(s: State, src: Node, dst: Node, m: Msg): Option<State>
    requires dst in s.servers && m.body.RequestVote?
  {
    var me := s.servers[dst];
    var me' := BecomeFollower(me, m.body.term);
    if GrantsVote(me, m.body) then
      match NetReplyMsg(s.net, RequestVoteResponse(m.body.term), src, dst, m.seqno)
      case None => None
      case Some(net) => Some(State(s.servers[dst := me'.(votedFor := Some(src))], net))
    else
      match NetDelMsg(s.net, src, dst, m.seqno)
      case None => None
      case Some(net) => Some(State(s.servers[dst := me'], net))
  }

  // ---- Handling a vote

  function CountVote(me: Server, term: int, cluster: nat): Server {
    if me.role == Candidate && term == me.currentTerm then
      var counted := me.(votesCount := me.votesCount + 1);
      if counted.votesCount * 2 > cluster then counted.(role := Leader) else counted
    else me
  }

  function HandleMsgRVR(s: State, src: Node, dst: Node, m: Msg): Option<State>
    requires dst in s.servers && m.body.RequestVoteResponse?
  {
    match NetDelMsg(s.net, src, dst, m.seqno)
    case None => None
    case Some(net) => Some(State(s.servers[dst := CountVote(s.servers[dst], m.body.term, |s.servers|)], net))
  }

  /** The branch that says nothing of the roles: a vote is counted and there is no quorum yet. */
  predicate RolesLeftFree(me: Server, term: int, cluster: nat) {
    me.role == Candidate && term == me.currentTerm && (me.votesCount + 1) * 2 <= cluster
  }

  function WithRoles(servers: map<Node, Server>, roles: map<Node, Role>): map<Node, Server>
    requires roles.Keys == servers.Keys
  {
    map n | n in servers :: servers[n].(role := roles[n])
  }

  function HandleMsgRVRLoosely(s: State, src: Node, dst: Node, m: Msg, roles: map<Node, Role>): Option<State>
    requires dst in s.servers && m.body.RequestVoteResponse? && roles.Keys == s.servers.Keys
  {
    match HandleMsgRVR(s, src, dst, m)
    case None => None
    case Some(next) => Some(State(WithRoles(next.servers, roles), next.net))
  }

  // ---- Starting an election

  function BecomeCandidate(me: Server, n: Node): Server {
    me.(role := Candidate, currentTerm := me.currentTerm + 1, votesCount := 1, votedFor := Some(n))
  }

  /** F[i]: the first i requests, and the servers still without one. */
  ghost function VoteRequests(n: Node, request: Body, dsts: set<Node>, i: nat): (r: (seq<Envelope>, set<Node>))
    requires i <= |dsts|
    ensures r.1 <= dsts && |r.1| == |dsts| - i
  {
    if i == 0 then ([], dsts)
    else
      var (ms, remaining) := VoteRequests(n, request, dsts, i - 1);
      var d := Pick(remaining);
      (ms + [Envelope(n, d, request)], remaining - {d})
  }

  function RequestOf(me: Server): Body {
    RequestVote(me.currentTerm, me.CurrentLogIdx(), me.CurrentLogTerm())
  }

  /** None stands for the failed Assert of the specification. */
  ghost function TimeOut(s: State, n: Node): Option<State>
    requires n in s.servers
  {
    var me' := BecomeCandidate(s.servers[n], n);
    var dsts := s.servers.Keys - {n};
    var (ms, remaining) := VoteRequests(n, RequestOf(me'), dsts, |dsts|);
    if |remaining| == 0 then Some(State(s.servers[n := me'], NetBatchAddMsg(s.net, ms))) else None
  }

  // ---- Steps and runs

  ghost function Step(s: State, a: Action): Option<State>
    requires Enabled(s, a)
  {
    match a
    case HandleRV(src, dst) => HandleMsgRV(s, src, dst, NetGetMsg(s.net, src, dst).value)
    case HandleRVR(src, dst) => HandleMsgRVR(s, src, dst, NetGetMsg(s.net, src, dst).value)
    case HandleRVRLoosely(src, dst, roles) =>
      HandleMsgRVRLoosely(s, src, dst, NetGetMsg(s.net, src, dst).value, roles)
    case ElectionTimeout(n) => TimeOut(s, n)
    case Partition(n) => Some(State(s.servers, NetPartConn(s.net, {n}, true)))
    case Cure => Some(State(s.servers, NetCureConn(s.net)))
  }

  /** The state after the actions, when each is enabled in turn and no Assert fails. */
  ghost function Exec(nodes: set<Node>, acts: seq<Action>): Option<State> {
    if acts == [] then Some(Init(nodes))
    else
      match Exec(nodes, acts[..|acts| - 1])
      case None => None
      case Some(s) => if Enabled(s, acts[|acts| - 1]) then Step(s, acts[|acts| - 1]) else None
  }

  ghost predicate IsRun(nodes: set<Node>, acts: seq<Action>) {
    Exec(nodes, acts).Some?
  }

  ghost function StateAfter(nodes: set<Node>, acts: seq<Action>): State
    requires IsRun(nodes, acts)
  {
    Exec(nodes, acts).value
  }

  /** A vote that makes no quorum never changes a role. */
  ghost predicate Completed(acts: seq<Action>) {
    forall a :: a in acts ==> !a.HandleRVRLoosely?
  }

  ghost predicate LeaderAt(s: State, n: Node, term: int) {
    n in s.servers && s.servers[n].role == Leader && s.servers[n].currentTerm == term
  }

  lemma KeptKeys(s: State, src: Node, dst: Node)
    requires ResponseReady(s, src, dst) && Step(s, HandleRVR(src, dst)).Some?
    ensures Step(s, HandleRVR(src, dst)).value.servers.Keys == s.servers.Keys
  {
  }

  lemma LooseStep(s: State, src: Node, dst: Node, roles: map<Node, Role>)
    requires Enabled(s, HandleRVRLoosely(src, dst, roles)) && Step(s, HandleRVR(src, dst)).Some?
    ensures Step(s, HandleRVR(src, dst)).value.servers.Keys == s.servers.Keys
    ensures var kept := Step(s, HandleRVR(src, dst)).value;
            Step(s, HandleRVRLoosely(src, dst, roles)) == Some(State(WithRoles(kept.servers, roles), kept.net))
  {
    KeptKeys(s, src, dst);
  }

  lemma RunSnoc(nodes: set<Node>, acts: seq<Action>, a: Action)
    ensures IsRun(nodes, acts + [a]) <==>
            IsRun(nodes, acts) && Enabled(StateAfter(nodes, acts), a) && Step(StateAfter(nodes, acts), a).Some?
    ensures IsRun(nodes, acts + [a]) ==> Some(StateAfter(nodes, acts + [a])) == Step(StateAfter(nodes, acts), a)
  {
    assert (acts + [a])[..|acts + [a]| - 1] == acts;
  }

  lemma {:induction false} PrefixIsRun(nodes: set<Node>, acts: seq<Action>, k: nat)
    requires IsRun(nodes, acts) && k <= |acts|
    ensures IsRun(nodes, acts[..k])
  {
    if k == |acts| {
      assert acts[..k] == acts;
    } else {
      PrefixIsRun(nodes, acts[..|acts| - 1], k);
      assert acts[..|acts| - 1][..k] == acts[..k];
    }
  }

  // ---- The requests of an election

  /** After i rounds: i requests from n, one for each server no longer remaining, none twice. */
  lemma {:induction false} VoteRequestsCover(n: Node, request: Body, dsts: set<Node>, i: nat)
    requires i <= |dsts|
    ensures var (ms, remaining) := VoteRequests(n, request, dsts, i);
            && |ms| == i
            && (forall m :: m in ms ==> m.src == n && m.body == request && m.dst in dsts && m.dst !in remaining)
            && (forall d :: d in dsts && d !in remaining ==> Envelope(n, d, request) in ms)
            && (forall j, k :: 0 <= j < k < |ms| ==> ms[j].dst != ms[k].dst)
  {
    if i > 0 {
      VoteRequestsCover(n, request, dsts, i - 1);
      var (before, left) := VoteRequests(n, request, dsts, i - 1);
      var (ms, remaining) := VoteRequests(n, request, dsts, i);
      var d := Pick(left);
      assert ms[|ms| - 1] == Envelope(n, d, request);
      forall m | m in ms ensures m.src == n && m.body == request && m.dst in dsts && m.dst !in remaining {
        if m in before {} else { assert m == Envelope(n, d, request); }
      }
      forall j, k | 0 <= j < k < |ms| ensures ms[j].dst != ms[k].dst {
        assert ms[j] in before;
      }
    }
  }

  ghost function Requests(s: State, n: Node): seq<Envelope>
    requires n in s.servers
  {
    var dsts := s.servers.Keys - {n};
    VoteRequests(n, RequestOf(BecomeCandidate(s.servers[n], n)), dsts, |dsts|).0
  }

  /** The Assert of ElectionTimeout never fires, and its batch holds exactly one request
      for every other server. */
  lemma TimeOutBatch(s: State, n: Node)
    requires n in s.servers
    ensures TimeOut(s, n) ==
            Some(State(s.servers[n := BecomeCandidate(s.servers[n], n)], NetBatchAddMsg(s.net, Requests(s, n))))
    ensures |Requests(s, n)| == |s.servers| - 1
    ensures forall d :: d in s.servers && d != n ==>
              Envelope(n, d, RequestOf(BecomeCandidate(s.servers[n], n))) in Requests(s, n)
    ensures forall m :: m in Requests(s, n) ==>
              && m.src == n && m.dst in s.servers && m.dst != n
              && m.body == RequestOf(BecomeCandidate(s.servers[n], n))
    ensures forall j, k :: 0 <= j < k < |Requests(s, n)| ==> Requests(s, n)[j].dst != Requests(s, n)[k].dst
  {
    var dsts := s.servers.Keys - {n};
    assert |s.servers.Keys| == |s.servers|;
    VoteRequestsCover(n, RequestOf(BecomeCandidate(s.servers[n], n)), dsts, |dsts|);
    var (ms, remaining) := VoteRequests(n, RequestOf(BecomeCandidate(s.servers[n], n)), dsts, |dsts|);
    assert remaining == {};
  }

  lemma TimeOutSends(s: State, n: Node)
    requires n in s.servers
    ensures Step(s, ElectionTimeout(n)) ==
            Some(State(s.servers[n := BecomeCandidate(s.servers[n], n)], NetBatchAddMsg(s.net, Requests(s, n))))
  {
    TimeOutBatch(s, n);
  }

  /** The step as its messages sent one by one. */
  lemma TimeOutIs(s: State, n: Node)
    requires n in s.servers
    ensures Step(s, ElectionTimeout(n)) ==
            Some(State(s.servers[n := BecomeCandidate(s.servers[n], n)], AddEach(s.net, Requests(s, n))))
    ensures AddEach(s.net, Requests(s, n)).man.conn == s.net.man.conn
  {
    TimeOutSends(s, n);
    BatchIsAddEach(s.net, Requests(s, n));
    NetworkRuns.AddEachConn(s.net, Requests(s, n));
  }

  lemma RequestsOk(s: State, n: Node)
    requires n in s.servers
    ensures forall m :: m in Requests(s, n) ==>
              && NetworkRuns.EnvelopeOk(s.servers.Keys, m) && m.src == n
              && m.body == RequestOf(BecomeCandidate(s.servers[n], n))
  {
    TimeOutBatch(s, n);
  }

  // ---- Every election step is one call of the network

  ghost function NetOp(s: State, a: Action): NetworkRuns.Op
    requires Enabled(s, a)
  {
    match a
    case HandleRV(src, dst) =>
      var body := NetGetMsg(s.net, src, dst).value.body;
      if GrantsVote(s.servers[dst], body)
      then NetworkRuns.Answer(src, dst, RequestVoteResponse(body.term))
      else NetworkRuns.Receive(src, dst)
    case HandleRVR(src, dst) => NetworkRuns.Receive(src, dst)
    case HandleRVRLoosely(src, dst, _) => NetworkRuns.Receive(src, dst)
    case ElectionTimeout(n) => NetworkRuns.SendAll(Requests(s, n))
    case Partition(n) => NetworkRuns.Partition({n})
    case Cure => NetworkRuns.Cure
  }

  ghost function NetOps(nodes: set<Node>, acts: seq<Action>): seq<NetworkRuns.Op>
    requires IsRun(nodes, acts)
  {
    if acts == [] then []
    else
      var init := acts[..|acts| - 1];
      NetOps(nodes, init) + [NetOp(StateAfter(nodes, init), acts[|acts| - 1])]
  }

  lemma StepOnNet(nodes: set<Node>, s: State, a: Action)
    requires Enabled(s, a) && s.servers.Keys == nodes
    ensures NetworkRuns.Enabled(nodes, s.net, NetOp(s, a))
    ensures Step(s, a).Some? <==> NetworkRuns.Apply(s.net, NetOp(s, a), true).Some?
    ensures Step(s, a).Some? ==>
              && Some(Step(s, a).value.net) == NetworkRuns.Apply(s.net, NetOp(s, a), true)
              && Step(s, a).value.servers.Keys == nodes
  {
    if a.ElectionTimeout? {
      TimeOutBatch(s, a.n);
    }
  }

  /** A run of the election is, seen from the network, a run of the network that flushes on
      partitions and only partitions and cures. */
  lemma {:induction false} RunOnNet(nodes: set<Node>, acts: seq<Action>)
    requires IsRun(nodes, acts)
    ensures StateAfter(nodes, acts).servers.Keys == nodes
    ensures NetworkRuns.Exec(nodes, true, NetOps(nodes, acts)) == Some(StateAfter(nodes, acts).net)
    ensures NetworkRuns.PartsAndCures(NetOps(nodes, acts))
  {
    if acts != [] {
      var init, a := acts[..|acts| - 1], acts[|acts| - 1];
      RunOnNet(nodes, init);
      var s := StateAfter(nodes, init);
      StepOnNet(nodes, s, a);
      var ops := NetOps(nodes, acts);
      assert ops[..|ops| - 1] == NetOps(nodes, init);
    }
  }

  /** No Assert of the two modules fires on any enabled action of any reachable state. */
  lemma NoAssertFails(nodes: set<Node>, acts: seq<Action>, a: Action)
    requires IsRun(nodes, acts) && Enabled(StateAfter(nodes, acts), a)
    ensures Step(StateAfter(nodes, acts), a).Some?
  {
    var s := StateAfter(nodes, acts);
    RunOnNet(nodes, acts);
    NetworkRuns.RunInv(nodes, true, NetOps(nodes, acts));
    StepOnNet(nodes, s, a);
    NetworkRuns.StepKeepsInv(nodes, s.net, NetOp(s, a), true);
  }

  /** In every reachable state of the election, what the network module proves of its runs:
      numbering and counters, no message on a severed link, disjoint connection groups. */
  lemma ElectionNetwork(nodes: set<Node>, acts: seq<Action>)
    requires IsRun(nodes, acts)
    ensures var net := StateAfter(nodes, acts).net;
            && NetworkRuns.Inv(nodes, net)
            && NetworkRuns.NoSeveredMessage(net)
            && Groups(nodes, net.man.conn)
  {
    RunOnNet(nodes, acts);
    NetworkRuns.RunInv(nodes, true, NetOps(nodes, acts));
    NetworkRuns.RunLive(nodes, NetOps(nodes, acts));
    NetworkRuns.RunGroups(nodes, true, NetOps(nodes, acts));
  }

  /** FIFO delivery in the election: on every channel the delivered numbers strictly increase, and stay below
      everything still queued. */
  lemma ElectionFifo(nodes: set<Node>, acts: seq<Action>, s: Node, d: Node)
    requires IsRun(nodes, acts)
    ensures var net := StateAfter(nodes, acts).net;
            NetworkRuns.Behind(
              NetworkRuns.Delivered(nodes, true, NetOps(nodes, acts), s, d), Queue(net.msgs, s, d), net.man.sent)
  {
    RunOnNet(nodes, acts);
    NetworkRuns.DeliveryIncreases(nodes, true, NetOps(nodes, acts), s, d);
  }

  lemma {:induction false} NetOpsFlushFree(nodes: set<Node>, acts: seq<Action>)
    requires IsRun(nodes, acts) && forall a :: a in acts ==> !a.Partition?
    ensures NetworkRuns.FlushFree(NetOps(nodes, acts))
  {
    if acts != [] {
      NetOpsFlushFree(nodes, acts[..|acts| - 1]);
      assert acts[|acts| - 1] in acts;
    }
  }

  /** Until the election's first partition n_wire counts the queued messages exactly, and every message sent was
      delivered or is on the wire. */
  lemma ElectionCounters(nodes: set<Node>, acts: seq<Action>)
    requires IsRun(nodes, acts) && forall a :: a in acts ==> !a.Partition?
    ensures NetworkRuns.ExactlyCounted(StateAfter(nodes, acts).net)
  {
    RunOnNet(nodes, acts);
    NetOpsFlushFree(nodes, acts);
    NetworkRuns.CountersExact(nodes, true, NetOps(nodes, acts));
  }
}
