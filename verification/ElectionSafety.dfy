/** At most one server is ever elected in a term, in runs that decide every role.

    The state only counts votes.  The proof remembers, beside a run, who voted for whom in which term
    and whose votes a server has counted since it last became a candidate.  What is said of votes and
    counts holds in every run; what is said of roles holds as long as no step leaves them open. */
module ElectionSafety {
  import opened Options
  import opened FifoNetwork
  import opened Wires
  import opened PySyncObj
  import NetworkRuns

  datatype Vote = Vote(voter: Node, term: int, candidate: Node)

  datatype History = History(votes: set<Vote>, counted: map<Node, set<Node>>)

  /** A server that stands for a term votes for itself and has counted that vote alone. */
  ghost function Stood(h: History, n: Node, term: int): History {
    History(h.votes + {Vote(n, term, n)}, h.counted[n := {n}])
  }

  ghost function RecordResponse(h: History, s: State, src: Node, dst: Node): History
    requires ResponseReady(s, src, dst) && h.counted.Keys == s.servers.Keys
  {
    var data := NetGetMsg(s.net, src, dst).value.body;
    var me := s.servers[dst];
    if me.role == Candidate && data.term == me.currentTerm
    then h.(counted := h.counted[dst := h.counted[dst] + {src}])
    else h
  }

  /** Records the votes an action casts and counts; it reads the state and never changes it. */
  ghost function Record(h: History, s: State, a: Action): History
    requires Enabled(s, a) && h.counted.Keys == s.servers.Keys
  {
    match a
    case HandleRV(src, dst) =>
      var data := NetGetMsg(s.net, src, dst).value.body;
      if GrantsVote(s.servers[dst], data) then h.(votes := h.votes + {Vote(dst, data.term, src)}) else h
    case HandleRVR(src, dst) => RecordResponse(h, s, src, dst)
    case HandleRVRLoosely(src, dst, _) => RecordResponse(h, s, src, dst)
    case ElectionTimeout(n) =>
      Stood(h, n, s.servers[n].currentTerm + 1)
    case Partition(_) => h
    case Cure => h
  }

  ghost function InitHistory(nodes: set<Node>): History {
    History({}, map n | n in nodes :: {})
  }

  ghost function HistoryOf(nodes: set<Node>, acts: seq<Action>): (h: History)
    requires IsRun(nodes, acts)
    ensures h.counted.Keys == nodes == StateAfter(nodes, acts).servers.Keys
  {
    if acts == [] then InitHistory(nodes)
    else
      var init := acts[..|acts| - 1];
      Record(HistoryOf(nodes, init), StateAfter(nodes, init), acts[|acts| - 1])
  }

  ghost function Voters(h: History, term: int, candidate: Node): set<Node> {
    set v | v in h.votes && v.term == term && v.candidate == candidate :: v.voter
  }

  // ---- The invariant, one concern at a time

  /** Is the body at some place of the queue from s to d? */
  ghost predicate InFlight(net: Net, s: Node, d: Node, b: Body) {
    exists i :: 0 <= i < |Queue(net.msgs, s, d)| && Queue(net.msgs, s, d)[i].body == b
  }

  ghost predicate Running(me: Server) {
    me.role == Candidate || me.role == Leader
  }

  /** The servers whose votes n has counted since it last became a candidate. */
  ghost function Counted(h: History, n: Node): set<Node> {
    if n in h.counted then h.counted[n] else {}
  }

  /** The server has stood for election in the term it is in. */
  ghost predicate Stands(h: History, n: Node, me: Server) {
    Vote(n, me.currentTerm, n) in h.votes
  }

  /** A server votes once in a term, for a server that stood in it. */
  ghost predicate VotesOk(h: History) {
    && (forall v, w :: v in h.votes && w in h.votes && v.voter == w.voter && v.term == w.term ==> v == w)
    && (forall v :: v in h.votes ==> Vote(v.candidate, v.term, v.candidate) in h.votes)
  }

  /** A vote lies in the past of its voter, whose votedFor is then never Nil. */
  ghost predicate VoteOk(servers: map<Node, Server>, v: Vote) {
    && v.voter in servers && v.candidate in servers
    && v.term <= servers[v.voter].currentTerm
    && servers[v.voter].votedFor != None
  }

  /** votesCount is the number of voters counted; if n stands in its term, these voted for it in that term. */
  ghost predicate ServerOk(nodes: set<Node>, h: History, n: Node, me: Server) {
    && me.log == INIT_LOG
    && Counted(h, n) <= nodes
    && me.votesCount == |Counted(h, n)|
    && (Stands(h, n, me) ==>
         && me.votedFor == Some(n)
         && n in Counted(h, n)
         && Counted(h, n) <= Voters(h, me.currentTerm, n))
  }

  ghost predicate ServersInv(servers: map<Node, Server>, h: History) {
    && VotesOk(h)
    && (forall v :: v in h.votes ==> VoteOk(servers, v))
    && (forall n :: n in servers ==> ServerOk(servers.Keys, h, n, servers[n]))
  }

  /** A request carries a past or present term of its sender, in which it stood, and the one log every server has;
      a response stands for a vote of its sender that its recipient has not counted. */
  ghost predicate BodyOk(servers: map<Node, Server>, h: History, s: Node, d: Node, b: Body) {
    match b
    case RequestVote(term, idx, logTerm) =>
      && s in servers && term <= servers[s].currentTerm && Vote(s, term, s) in h.votes
      && idx == 0 && logTerm == 1
    case RequestVoteResponse(term) =>
      && d in servers && term <= servers[d].currentTerm
      && Vote(s, term, d) in h.votes
      && (term == servers[d].currentTerm ==> s !in Counted(h, d))
  }

  ghost predicate BodiesInv(servers: map<Node, Server>, h: History, net: Net) {
    forall s, d, b :: InFlight(net, s, d, b) ==> BodyOk(servers, h, s, d, b)
  }

  ghost predicate ResponsesOnce(net: Net) {
    forall v, c, i, j ::
      && 0 <= i < |Queue(net.msgs, v, c)|
      && 0 <= j < |Queue(net.msgs, v, c)|
      && Queue(net.msgs, v, c)[i].body.RequestVoteResponse?
      && Queue(net.msgs, v, c)[i].body == Queue(net.msgs, v, c)[j].body
      ==> i == j
  }

  ghost predicate Inv(s: State, h: History) {
    && h.counted.Keys == s.servers.Keys
    && NetworkRuns.Inv(s.servers.Keys, s.net)
    && ServersInv(s.servers, h)
    && BodiesInv(s.servers, h, s.net)
    && ResponsesOnce(s.net)
  }

  // ---- What an action may do to the queues

  /** Every message of the new network was in the old one, except possibly one new body per listed queue. */
  ghost predicate OnlyAdds(net: Net, after: Net, s: Node, d: Node, b: Body) {
    forall x, y, c :: InFlight(after, x, y, c) ==> InFlight(net, x, y, c) || (x == s && y == d && c == b)
  }

  ghost predicate OnlyRequests(net: Net, after: Net, n: Node, request: Body) {
    forall x, y, c :: InFlight(after, x, y, c) ==> InFlight(net, x, y, c) || (x == n && c == request)
  }

  ghost predicate NothingNew(net: Net, after: Net) {
    forall x, y, c :: InFlight(after, x, y, c) ==> InFlight(net, x, y, c)
  }

  lemma ReceiveBodies(nodes: set<Node>, net: Net, src: Node, dst: Node)
    requires Meshed(nodes, net.msgs) && NetGetMsg(net, src, dst).Some?
    ensures NothingNew(net, NetworkRuns.Taken(net, src, dst))
    ensures InFlight(net, src, dst, NetGetMsg(net, src, dst).value.body)
  {
    var after := NetworkRuns.Taken(net, src, dst);
    forall x, y, c | InFlight(after, x, y, c) ensures InFlight(net, x, y, c) {
      var i :| 0 <= i < |Queue(after.msgs, x, y)| && Queue(after.msgs, x, y)[i].body == c;
      NetworkRuns.TakenFrom(nodes, net, src, dst, x, y, i);
    }
    assert Queue(net.msgs, src, dst)[0].body == NetGetMsg(net, src, dst).value.body;
  }

  lemma SendBodies(nodes: set<Node>, net: Net, m: Envelope)
    requires Meshed(nodes, net.msgs) && NetworkRuns.EnvelopeOk(nodes, m)
    ensures OnlyAdds(net, NetAddMsg(net, m), m.src, m.dst, m.body)
  {
    NetworkRuns.AddQueue(nodes, net, m);
    var after := NetAddMsg(net, m);
    forall x, y, c | InFlight(after, x, y, c)
      ensures InFlight(net, x, y, c) || (x == m.src && y == m.dst && c == m.body)
    {
      var i :| 0 <= i < |Queue(after.msgs, x, y)| && Queue(after.msgs, x, y)[i].body == c;
      if i < |Queue(net.msgs, x, y)| {
        assert Queue(net.msgs, x, y)[i].body == c;
      }
    }
  }

  lemma FlushBodies(net: Net, after: Net)
    requires NetworkRuns.OnlyFlushed(net, after)
    ensures NothingNew(net, after)
  {
    forall x, y, c | InFlight(after, x, y, c) ensures InFlight(net, x, y, c) {
      var i :| 0 <= i < |Queue(after.msgs, x, y)| && Queue(after.msgs, x, y)[i].body == c;
      assert Queue(net.msgs, x, y)[i].body == c;
    }
  }

  // ---- Responses stay unrepeated

  lemma ReceiveKeepsOnce(nodes: set<Node>, net: Net, src: Node, dst: Node)
    requires Meshed(nodes, net.msgs) && NetGetMsg(net, src, dst).Some? && ResponsesOnce(net)
    ensures ResponsesOnce(NetworkRuns.Taken(net, src, dst))
    ensures var b := NetGetMsg(net, src, dst).value.body;
            b.RequestVoteResponse? ==> !InFlight(NetworkRuns.Taken(net, src, dst), src, dst, b)
  {
    var after := NetworkRuns.Taken(net, src, dst);
    NetworkRuns.DelQueue(nodes, net, src, dst);
    forall v, c, i, j |
      && 0 <= i < |Queue(after.msgs, v, c)|
      && 0 <= j < |Queue(after.msgs, v, c)|
      && Queue(after.msgs, v, c)[i].body.RequestVoteResponse?
      && Queue(after.msgs, v, c)[i].body == Queue(after.msgs, v, c)[j].body
      ensures i == j
    {
      var k := if v == src && c == dst then 1 else 0;
      assert Queue(net.msgs, v, c)[i + k].body == Queue(net.msgs, v, c)[j + k].body;
    }
    var q := Queue(net.msgs, src, dst);
    forall i | 0 < i < |q| && q[0].body.RequestVoteResponse? ensures q[i].body != q[0].body {}
  }

  lemma SendKeepsOnce(nodes: set<Node>, net: Net, m: Envelope)
    requires Meshed(nodes, net.msgs) && NetworkRuns.EnvelopeOk(nodes, m) && ResponsesOnce(net)
    requires m.body.RequestVoteResponse? ==> !InFlight(net, m.src, m.dst, m.body)
    ensures ResponsesOnce(NetAddMsg(net, m))
  {
    var after := NetAddMsg(net, m);
    NetworkRuns.AddQueue(nodes, net, m);
    forall v, c, i, j |
      && 0 <= i < j < |Queue(after.msgs, v, c)|
      && Queue(after.msgs, v, c)[i].body.RequestVoteResponse?
      ensures Queue(after.msgs, v, c)[i].body != Queue(after.msgs, v, c)[j].body
    {
      var q := Queue(net.msgs, v, c);
      assert q[i] == Queue(after.msgs, v, c)[i];
      assert InFlight(net, v, c, q[i].body);
    }
  }

  lemma {:induction false} RequestsOnly(nodes: set<Node>, net: Net, ms: seq<Envelope>, n: Node, request: Body)
    requires NetworkRuns.Inv(nodes, net) && ResponsesOnce(net) && request.RequestVote?
    requires forall m :: m in ms ==> NetworkRuns.EnvelopeOk(nodes, m) && m.src == n && m.body == request
    ensures ResponsesOnce(AddEach(net, ms))
    ensures OnlyRequests(net, AddEach(net, ms), n, request)
  {
    if ms != [] {
      var init, m := ms[..|ms| - 1], ms[|ms| - 1];
      RequestsOnly(nodes, net, init, n, request);
      NetworkRuns.AddEachKeepsInv(nodes, net, init);
      SendKeepsOnce(nodes, AddEach(net, init), m);
      SendBodies(nodes, AddEach(net, init), m);
    }
  }

  // ---- Changing one server

  /** The new history extends the old one by votes of n, and counts differently for n only. */
  ghost predicate Extends(h: History, h': History, n: Node) {
    && h.votes <= h'.votes
    && (forall v :: v in h'.votes && v !in h.votes ==> v.voter == n)
    && h'.counted.Keys == h.counted.Keys
    && forall m :: m != n ==> Counted(h', m) == Counted(h, m)
  }

  /** The new record of a server: no smaller term, and a vote is never forgotten. */
  ghost predicate Advances(me: Server, me': Server) {
    me.currentTerm <= me'.currentTerm && (me.votedFor != None ==> me'.votedFor != None)
  }

  lemma VotersGrow(h: History, h': History, term: int, candidate: Node)
    requires h.votes <= h'.votes
    ensures Voters(h, term, candidate) <= Voters(h', term, candidate)
  {
  }

  lemma UpdateServers(servers: map<Node, Server>, h: History, h': History, n: Node, me': Server)
    requires ServersInv(servers, h) && n in servers
    requires Extends(h, h', n) && Advances(servers[n], me') && VotesOk(h')
    requires ServerOk(servers.Keys, h', n, me')
    requires forall v :: v in h'.votes && v !in h.votes ==> VoteOk(servers[n := me'], v)
    ensures servers[n := me'].Keys == servers.Keys
    ensures ServersInv(servers[n := me'], h')
  {
    var servers' := servers[n := me'];
    assert servers'.Keys == servers.Keys;
    forall m | m in servers' ensures ServerOk(servers'.Keys, h', m, servers'[m]) {
      if m != n {
        VotersGrow(h, h', servers[m].currentTerm, m);
        assert ServerOk(servers.Keys, h, m, servers[m]);
      }
    }
    forall v | v in h'.votes ensures VoteOk(servers', v) {
      if v in h.votes {
        assert VoteOk(servers, v);
      }
    }
  }

  lemma UpdateBody(servers: map<Node, Server>, h: History, h': History, n: Node, me': Server, s: Node, d: Node, b: Body)
    requires BodyOk(servers, h, s, d, b) && n in servers
    requires Extends(h, h', n) && Advances(servers[n], me')
    requires Counted(h', n) != Counted(h, n) && b.RequestVoteResponse? && d == n && b.term == me'.currentTerm ==>
               s !in Counted(h', n)
    ensures BodyOk(servers[n := me'], h', s, d, b)
  {
  }

  // ---- Granting a vote

  /** A server that grants a vote has cast none yet in that term, nor stood in it, and is in that term afterwards. */
  lemma GrantIsFirst(servers: map<Node, Server>, h: History, dst: Node, data: Body)
    requires ServersInv(servers, h) && dst in servers && data.RequestVote? && GrantsVote(servers[dst], data)
    ensures forall w :: w in h.votes && w.voter == dst ==> w.term != data.term
    ensures BecomeFollower(servers[dst], data.term).currentTerm == data.term
  {
    forall w | w in h.votes && w.voter == dst ensures w.term != data.term {
      assert VoteOk(servers, w);
    }
  }

  lemma GrantedOk(servers: map<Node, Server>, h: History, h': History, src: Node, dst: Node, data: Body)
    requires ServersInv(servers, h) && src in servers && dst in servers && src != dst
    requires data.RequestVote? && GrantsVote(servers[dst], data) && Vote(src, data.term, src) in h.votes
    requires h' == h.(votes := h.votes + {Vote(dst, data.term, src)})
    ensures var me' := BecomeFollower(servers[dst], data.term).(votedFor := Some(src));
            ServerOk(servers.Keys, h', dst, me') && Advances(servers[dst], me')
    ensures Extends(h, h', dst) && VotesOk(h')
  {
    GrantIsFirst(servers, h, dst, data);
    assert ServerOk(servers.Keys, h, dst, servers[dst]);
  }

  lemma GrantServers(servers: map<Node, Server>, h: History, h': History, src: Node, dst: Node, data: Body)
    requires ServersInv(servers, h) && src in servers && dst in servers && src != dst && h.counted.Keys == servers.Keys
    requires data.RequestVote? && GrantsVote(servers[dst], data) && Vote(src, data.term, src) in h.votes
    requires h' == h.(votes := h.votes + {Vote(dst, data.term, src)})
    ensures var me' := BecomeFollower(servers[dst], data.term).(votedFor := Some(src));
            && ServersInv(servers[dst := me'], h')
            && Extends(h, h', dst) && Advances(servers[dst], me')
            && servers[dst := me'].Keys == servers.Keys
  {
    GrantIsFirst(servers, h, dst, data);
    GrantedOk(servers, h, h', src, dst, data);
    UpdateServers(servers, h, h', dst, BecomeFollower(servers[dst], data.term).(votedFor := Some(src)));
  }

  /** The response is a fresh vote its recipient cannot have counted. */
  lemma GrantBody(servers: map<Node, Server>, h: History, h': History, src: Node, dst: Node, data: Body)
    requires ServersInv(servers, h) && src in servers && dst in servers && src != dst
    requires data.RequestVote? && GrantsVote(servers[dst], data)
    requires data.term <= servers[src].currentTerm && Vote(src, data.term, src) in h.votes
    requires h' == h.(votes := h.votes + {Vote(dst, data.term, src)})
    ensures var me' := BecomeFollower(servers[dst], data.term).(votedFor := Some(src));
            BodyOk(servers[dst := me'], h', dst, src, RequestVoteResponse(data.term))
    ensures !BodyOk(servers, h, dst, src, RequestVoteResponse(data.term))
  {
    GrantIsFirst(servers, h, dst, data);
    assert ServerOk(servers.Keys, h, src, servers[src]);
    assert Vote(dst, data.term, src) !in h.votes;
    assert dst !in Voters(h, data.term, src);
  }

  lemma GrantNetwork(nodes: set<Node>, net: Net, src: Node, dst: Node, response: Body)
    requires NetworkRuns.Inv(nodes, net) && NetGetMsg(net, src, dst).Some?
    requires ResponsesOnce(net) && !InFlight(net, dst, src, response)
    ensures var after := NetAddMsg(NetworkRuns.Taken(net, src, dst), Envelope(dst, src, response));
            && NetReplyMsg(net, response, src, dst, NetGetMsg(net, src, dst).value.seqno) == Some(after)
            && NetworkRuns.Inv(nodes, after)
            && ResponsesOnce(after)
            && OnlyAdds(net, after, dst, src, response)
  {
    var taken := NetworkRuns.Taken(net, src, dst);
    NetworkRuns.DelQueue(nodes, net, src, dst);
    NetworkRuns.DelKeepsInv(nodes, net, src, dst);
    NetworkRuns.ReplyIsDelThenAdd(nodes, net, response, src, dst);
    NetworkRuns.AddKeepsInv(nodes, taken, Envelope(dst, src, response));
    ReceiveBodies(nodes, net, src, dst);
    ReceiveKeepsOnce(nodes, net, src, dst);
    SendBodies(nodes, taken, Envelope(dst, src, response));
    SendKeepsOnce(nodes, taken, Envelope(dst, src, response));
  }

  /** If everything still queued was queued before and stays sound, the bodies stay sound. */
  lemma UpdateBodies(servers: map<Node, Server>, h: History, h': History, n: Node, me': Server, net: Net, after: Net)
    requires BodiesInv(servers, h, net) && n in servers && NothingNew(net, after)
    requires Extends(h, h', n) && Advances(servers[n], me')
    requires Counted(h', n) != Counted(h, n) ==>
               forall s, b :: InFlight(after, s, n, b) && b.RequestVoteResponse? && b.term == me'.currentTerm ==>
                 s !in Counted(h', n)
    ensures BodiesInv(servers[n := me'], h', after)
  {
    forall x, y, b | InFlight(after, x, y, b) ensures BodyOk(servers[n := me'], h', x, y, b) {
      UpdateBody(servers, h, h', n, me', x, y, b);
    }
  }

  lemma GrantBodies(servers: map<Node, Server>, h: History, h': History, dst: Node, me': Server, src: Node,
                    response: Body, net: Net, after: Net)
    requires BodiesInv(servers, h, net) && dst in servers && OnlyAdds(net, after, dst, src, response)
    requires Extends(h, h', dst) && Advances(servers[dst], me') && Counted(h', dst) == Counted(h, dst)
    requires BodyOk(servers[dst := me'], h', dst, src, response)
    ensures BodiesInv(servers[dst := me'], h', after)
  {
    forall x, y, b | InFlight(after, x, y, b) ensures BodyOk(servers[dst := me'], h', x, y, b) {
      if InFlight(net, x, y, b) {
        UpdateBody(servers, h, h', dst, me', x, y, b);
      }
    }
  }

  lemma GrantKeepsInv(s: State, h: History, src: Node, dst: Node)
    requires Inv(s, h) && Enabled(s, HandleRV(src, dst))
    requires GrantsVote(s.servers[dst], NetGetMsg(s.net, src, dst).value.body)
    ensures Step(s, HandleRV(src, dst)).Some?
    ensures Inv(Step(s, HandleRV(src, dst)).value, Record(h, s, HandleRV(src, dst)))
  {
    var nodes, m := s.servers.Keys, NetGetMsg(s.net, src, dst).value;
    var data, h' := m.body, h.(votes := h.votes + {Vote(dst, m.body.term, src)});
    var response := RequestVoteResponse(data.term);
    var me' := BecomeFollower(s.servers[dst], data.term).(votedFor := Some(src));
    var after := NetAddMsg(NetworkRuns.Taken(s.net, src, dst), Envelope(dst, src, response));
    ReceiveBodies(nodes, s.net, src, dst);
    assert BodyOk(s.servers, h, src, dst, data);
    GrantServers(s.servers, h, h', src, dst, data);
    GrantBody(s.servers, h, h', src, dst, data);
    GrantNetwork(nodes, s.net, src, dst, response);
    GrantBodies(s.servers, h, h', dst, me', src, response, s.net, after);
    assert HandleMsgRV(s, src, dst, m) == Some(State(s.servers[dst := me'], after));
  }

  // ---- Refusing one, counting one

  lemma ReceiveNetwork(nodes: set<Node>, net: Net, src: Node, dst: Node)
    requires NetworkRuns.Inv(nodes, net) && NetGetMsg(net, src, dst).Some? && ResponsesOnce(net)
    ensures var after := NetworkRuns.Taken(net, src, dst);
            && NetDelMsg(net, src, dst, NetGetMsg(net, src, dst).value.seqno) == Some(after)
            && NetworkRuns.Inv(nodes, after)
            && ResponsesOnce(after)
            && NothingNew(net, after)
            && InFlight(net, src, dst, NetGetMsg(net, src, dst).value.body)
            && (NetGetMsg(net, src, dst).value.body.RequestVoteResponse? ==>
                 !InFlight(after, src, dst, NetGetMsg(net, src, dst).value.body))
  {
    NetworkRuns.DelQueue(nodes, net, src, dst);
    NetworkRuns.DelKeepsInv(nodes, net, src, dst);
    ReceiveBodies(nodes, net, src, dst);
    ReceiveKeepsOnce(nodes, net, src, dst);
  }

  lemma RefuseServers(servers: map<Node, Server>, h: History, dst: Node, data: Body)
    requires ServersInv(servers, h) && dst in servers && data.RequestVote?
    ensures var me' := BecomeFollower(servers[dst], data.term);
            && ServersInv(servers[dst := me'], h)
            && servers[dst := me'].Keys == servers.Keys
  {
    assert ServerOk(servers.Keys, h, dst, servers[dst]);
    UpdateServers(servers, h, h, dst, BecomeFollower(servers[dst], data.term));
  }

  lemma RefuseBodies(servers: map<Node, Server>, h: History, dst: Node, data: Body, net: Net, after: Net)
    requires BodiesInv(servers, h, net) && NothingNew(net, after) && dst in servers && data.RequestVote?
    ensures BodiesInv(servers[dst := BecomeFollower(servers[dst], data.term)], h, after)
  {
    UpdateBodies(servers, h, h, dst, BecomeFollower(servers[dst], data.term), net, after);
  }

  lemma RefuseKeepsInv(s: State, h: History, src: Node, dst: Node)
    requires Inv(s, h) && Enabled(s, HandleRV(src, dst))
    requires !GrantsVote(s.servers[dst], NetGetMsg(s.net, src, dst).value.body)
    ensures Step(s, HandleRV(src, dst)).Some?
    ensures Inv(Step(s, HandleRV(src, dst)).value, Record(h, s, HandleRV(src, dst)))
  {
    var nodes, data := s.servers.Keys, NetGetMsg(s.net, src, dst).value.body;
    var me' := BecomeFollower(s.servers[dst], data.term);
    var after := NetworkRuns.Taken(s.net, src, dst);
    ReceiveNetwork(nodes, s.net, src, dst);
    RefuseServers(s.servers, h, dst, data);
    RefuseBodies(s.servers, h, dst, data, s.net, after);
    assert HandleMsgRV(s, src, dst, NetGetMsg(s.net, src, dst).value) == Some(State(s.servers[dst := me'], after));
  }

  lemma CountExtends(h: History, src: Node, dst: Node)
    requires dst in h.counted
    ensures Extends(h, h.(counted := h.counted[dst := h.counted[dst] + {src}]), dst)
  {
    assert h.counted[dst := h.counted[dst] + {src}].Keys == h.counted.Keys;
  }

  lemma CountServer(nodes: set<Node>, h: History, h': History, src: Node, dst: Node, me: Server, term: int)
    requires ServerOk(nodes, h, dst, me) && me.role == Candidate && me.currentTerm == term && src in nodes
    requires Vote(src, term, dst) in h.votes && src !in Counted(h, dst) && dst in h.counted
    requires h' == h.(counted := h.counted[dst := h.counted[dst] + {src}])
    ensures ServerOk(nodes, h', dst, CountVote(me, term, |nodes|))
  {
    assert src in Voters(h, term, dst);
    assert Voters(h', term, dst) == Voters(h, term, dst);
    assert Counted(h', dst) == Counted(h, dst) + {src};
  }

  /** Counting a response adds exactly one voter that was not counted before. */
  lemma CountServers(servers: map<Node, Server>, h: History, h': History, src: Node, dst: Node, term: int)
    requires ServersInv(servers, h) && src in servers && dst in servers && h.counted.Keys == servers.Keys
    requires BodyOk(servers, h, src, dst, RequestVoteResponse(term))
    requires servers[dst].role == Candidate && term == servers[dst].currentTerm
    requires h' == h.(counted := h.counted[dst := h.counted[dst] + {src}])
    ensures var me' := CountVote(servers[dst], term, |servers|);
            && Extends(h, h', dst) && Advances(servers[dst], me')
            && ServersInv(servers[dst := me'], h')
            && servers[dst := me'].Keys == servers.Keys
  {
    var me' := CountVote(servers[dst], term, |servers|);
    assert ServerOk(servers.Keys, h, dst, servers[dst]);
    assert |servers| == |servers.Keys|;
    CountServer(servers.Keys, h, h', src, dst, servers[dst], term);
    CountExtends(h, src, dst);
    UpdateServers(servers, h, h', dst, me');
  }

  lemma CountBodies(servers: map<Node, Server>, h: History, h': History, src: Node, dst: Node, term: int,
                    me': Server, net: Net, after: Net)
    requires BodiesInv(servers, h, net) && dst in servers && NothingNew(net, after)
    requires servers[dst].role == Candidate && servers[dst].currentTerm == term == me'.currentTerm
    requires Extends(h, h', dst) && Advances(servers[dst], me') && Counted(h', dst) == Counted(h, dst) + {src}
    requires !InFlight(after, src, dst, RequestVoteResponse(term))
    ensures BodiesInv(servers[dst := me'], h', after)
  {
    forall v, b | InFlight(after, v, dst, b) && b.RequestVoteResponse? && b.term == term
      ensures v !in Counted(h', dst)
    {
      assert BodyOk(servers, h, v, dst, b);
      assert b == RequestVoteResponse(term);
    }
    UpdateBodies(servers, h, h', dst, me', net, after);
  }

  /** A response that is not counted leaves every server as it was. */
  lemma IgnoreKeepsInv(s: State, h: History, after: Net)
    requires Inv(s, h) && NetworkRuns.Inv(s.servers.Keys, after)
    requires ResponsesOnce(after) && NothingNew(s.net, after)
    ensures Inv(State(s.servers, after), h)
  {
  }

  lemma StepCounts(s: State, src: Node, dst: Node)
    requires NetworkRuns.Inv(s.servers.Keys, s.net) && ResponsesOnce(s.net) && Enabled(s, HandleRVR(src, dst))
    ensures Step(s, HandleRVR(src, dst)) == Some(State(
        s.servers[dst := CountVote(s.servers[dst], NetGetMsg(s.net, src, dst).value.body.term, |s.servers|)],
        NetworkRuns.Taken(s.net, src, dst)))
  {
    ReceiveNetwork(s.servers.Keys, s.net, src, dst);
  }

  lemma CountedKeepsInv(s: State, h: History, src: Node, dst: Node, term: int)
    requires Inv(s, h) && src in s.servers && dst in s.servers && NetGetMsg(s.net, src, dst).Some?
    requires NetGetMsg(s.net, src, dst).value.body == RequestVoteResponse(term)
    requires s.servers[dst].role == Candidate && term == s.servers[dst].currentTerm
    ensures Inv(
        State(s.servers[dst := CountVote(s.servers[dst], term, |s.servers|)], NetworkRuns.Taken(s.net, src, dst)),
        h.(counted := h.counted[dst := h.counted[dst] + {src}]))
  {
    var h' := h.(counted := h.counted[dst := h.counted[dst] + {src}]);
    ReceiveNetwork(s.servers.Keys, s.net, src, dst);
    assert BodyOk(s.servers, h, src, dst, RequestVoteResponse(term));
    CountServers(s.servers, h, h', src, dst, term);
    CountBodies(s.servers, h, h', src, dst, term, CountVote(s.servers[dst], term, |s.servers|),
      s.net, NetworkRuns.Taken(s.net, src, dst));
  }

  lemma CountKeepsInv(s: State, h: History, src: Node, dst: Node)
    requires Inv(s, h) && Enabled(s, HandleRVR(src, dst))
    ensures Step(s, HandleRVR(src, dst)).Some?
    ensures Inv(Step(s, HandleRVR(src, dst)).value, Record(h, s, HandleRVR(src, dst)))
  {
    var me, term := s.servers[dst], NetGetMsg(s.net, src, dst).value.body.term;
    StepCounts(s, src, dst);
    if me.role == Candidate && term == me.currentTerm {
      CountedKeepsInv(s, h, src, dst, term);
    } else {
      ReceiveNetwork(s.servers.Keys, s.net, src, dst);
      assert s.servers[dst := me] == s.servers;
      IgnoreKeepsInv(s, h, NetworkRuns.Taken(s.net, src, dst));
    }
  }

  // ---- Roles left open

  lemma WithRolesServers(servers: map<Node, Server>, roles: map<Node, Role>, h: History)
    requires ServersInv(servers, h) && roles.Keys == servers.Keys
    ensures WithRoles(servers, roles).Keys == servers.Keys
    ensures ServersInv(WithRoles(servers, roles), h)
  {
    var after := WithRoles(servers, roles);
    assert after.Keys == servers.Keys;
    forall n | n in after ensures ServerOk(after.Keys, h, n, after[n]) {
      assert ServerOk(servers.Keys, h, n, servers[n]);
    }
    forall v | v in h.votes ensures VoteOk(after, v) {
      assert VoteOk(servers, v);
    }
  }

  lemma WithRolesBodies(servers: map<Node, Server>, roles: map<Node, Role>, h: History, net: Net)
    requires BodiesInv(servers, h, net) && roles.Keys == servers.Keys
    ensures BodiesInv(WithRoles(servers, roles), h, net)
  {
    var after := WithRoles(servers, roles);
    forall x, y, b | InFlight(net, x, y, b) ensures BodyOk(after, h, x, y, b) {
      assert BodyOk(servers, h, x, y, b);
    }
  }

  /** Votes and counts do not depend on the roles. */
  lemma WithRolesInv(s: State, roles: map<Node, Role>, h: History)
    requires Inv(s, h) && roles.Keys == s.servers.Keys
    ensures Inv(State(WithRoles(s.servers, roles), s.net), h)
  {
    WithRolesServers(s.servers, roles, h);
    WithRolesBodies(s.servers, roles, h, s.net);
    InvOf(WithRoles(s.servers, roles), s.net, h);
  }

  lemma LooseRecord(s: State, h: History, src: Node, dst: Node, roles: map<Node, Role>)
    requires Enabled(s, HandleRVRLoosely(src, dst, roles)) && h.counted.Keys == s.servers.Keys
    ensures Record(h, s, HandleRVRLoosely(src, dst, roles)) == Record(h, s, HandleRVR(src, dst))
  {
  }

  lemma LooseKeepsInv(s: State, h: History, src: Node, dst: Node, roles: map<Node, Role>)
    requires Inv(s, h) && Enabled(s, HandleRVRLoosely(src, dst, roles))
    ensures Step(s, HandleRVRLoosely(src, dst, roles)).Some?
    ensures Inv(Step(s, HandleRVRLoosely(src, dst, roles)).value, Record(h, s, HandleRVRLoosely(src, dst, roles)))
  {
    CountKeepsInv(s, h, src, dst);
    KeptKeys(s, src, dst);
    WithRolesInv(Step(s, HandleRVR(src, dst)).value, roles, Record(h, s, HandleRVR(src, dst)));
    LooseStep(s, src, dst, roles);
    LooseRecord(s, h, src, dst, roles);
  }

  // ---- Timing out

  lemma StoodExtends(h: History, n: Node, term: int)
    requires n in h.counted
    ensures Extends(h, Stood(h, n, term), n) && Counted(Stood(h, n, term), n) == {n}
    ensures Stood(h, n, term).counted.Keys == h.counted.Keys
  {
  }

  lemma TimeOutServers(servers: map<Node, Server>, h: History, n: Node)
    requires ServersInv(servers, h) && n in servers && h.counted.Keys == servers.Keys
    ensures ServersInv(servers[n := BecomeCandidate(servers[n], n)], Stood(h, n, servers[n].currentTerm + 1))
  {
    var me', h' := BecomeCandidate(servers[n], n), Stood(h, n, servers[n].currentTerm + 1);
    StoodExtends(h, n, servers[n].currentTerm + 1);
    assert ServerOk(servers.Keys, h, n, servers[n]);
    forall v | v in h.votes ensures v.voter == n ==> v.term <= servers[n].currentTerm {
      assert VoteOk(servers, v);
    }
    assert Vote(n, me'.currentTerm, n) in h'.votes;
    UpdateServers(servers, h, h', n, me');
  }

  lemma TimeOutNetwork(s: State, n: Node)
    requires NetworkRuns.Inv(s.servers.Keys, s.net) && ResponsesOnce(s.net) && n in s.servers
    ensures Step(s, ElectionTimeout(n)).Some?
    ensures var after := Step(s, ElectionTimeout(n)).value.net;
            && NetworkRuns.Inv(s.servers.Keys, after)
            && ResponsesOnce(after)
            && OnlyRequests(s.net, after, n, RequestOf(BecomeCandidate(s.servers[n], n)))
  {
    TimeOutIs(s, n);
    RequestsOk(s, n);
    NetworkRuns.AddEachKeepsInv(s.servers.Keys, s.net, Requests(s, n));
    RequestsOnly(s.servers.Keys, s.net, Requests(s, n), n, RequestOf(BecomeCandidate(s.servers[n], n)));
  }

  lemma TimeOutBodies(s: State, h: History, n: Node, after: Net)
    requires Inv(s, h) && n in s.servers
    requires OnlyRequests(s.net, after, n, RequestOf(BecomeCandidate(s.servers[n], n)))
    ensures BodiesInv(
        s.servers[n := BecomeCandidate(s.servers[n], n)], Stood(h, n, s.servers[n].currentTerm + 1), after)
  {
    var me', h' := BecomeCandidate(s.servers[n], n), Stood(h, n, s.servers[n].currentTerm + 1);
    StoodExtends(h, n, s.servers[n].currentTerm + 1);
    assert ServerOk(s.servers.Keys, h, n, s.servers[n]);
    forall x, y, b | InFlight(after, x, y, b) ensures BodyOk(s.servers[n := me'], h', x, y, b) {
      if InFlight(s.net, x, y, b) {
        assert x != y;
        UpdateBody(s.servers, h, h', n, me', x, y, b);
      }
    }
  }

  lemma SameKeys(servers: map<Node, Server>, n: Node, me': Server)
    requires n in servers
    ensures servers[n := me'].Keys == servers.Keys
  {
  }

  lemma InvOf(servers: map<Node, Server>, net: Net, h: History)
    requires h.counted.Keys == servers.Keys && NetworkRuns.Inv(servers.Keys, net) && ResponsesOnce(net)
    requires ServersInv(servers, h) && BodiesInv(servers, h, net)
    ensures Inv(State(servers, net), h)
  {
  }

  lemma UpdatedInv(servers: map<Node, Server>, n: Node, me': Server, after: Net, h': History)
    requires n in servers && h'.counted.Keys == servers.Keys
    requires NetworkRuns.Inv(servers.Keys, after) && ResponsesOnce(after)
    requires ServersInv(servers[n := me'], h') && BodiesInv(servers[n := me'], h', after)
    ensures Inv(State(servers[n := me'], after), h')
  {
    SameKeys(servers, n, me');
    InvOf(servers[n := me'], after, h');
  }

  lemma TimedOutInv(s: State, h: History, n: Node, after: Net)
    requires Inv(s, h) && n in s.servers
    requires NetworkRuns.Inv(s.servers.Keys, after) && ResponsesOnce(after)
    requires OnlyRequests(s.net, after, n, RequestOf(BecomeCandidate(s.servers[n], n)))
    ensures Inv(
        State(s.servers[n := BecomeCandidate(s.servers[n], n)], after), Stood(h, n, s.servers[n].currentTerm + 1))
  {
    StoodExtends(h, n, s.servers[n].currentTerm + 1);
    TimeOutServers(s.servers, h, n);
    TimeOutBodies(s, h, n, after);
    UpdatedInv(s.servers, n, BecomeCandidate(s.servers[n], n), after, Stood(h, n, s.servers[n].currentTerm + 1));
  }

  lemma TimeOutStep(s: State, h: History, n: Node)
    requires n in s.servers && h.counted.Keys == s.servers.Keys && Step(s, ElectionTimeout(n)).Some?
    ensures var after := Step(s, ElectionTimeout(n)).value;
            after == State(s.servers[n := BecomeCandidate(s.servers[n], n)], after.net)
    ensures Record(h, s, ElectionTimeout(n)) == Stood(h, n, s.servers[n].currentTerm + 1)
  {
    TimeOutIs(s, n);
  }

  lemma TimeOutKeepsInv(s: State, h: History, n: Node)
    requires Inv(s, h) && n in s.servers
    ensures Step(s, ElectionTimeout(n)).Some?
    ensures Inv(Step(s, ElectionTimeout(n)).value, Record(h, s, ElectionTimeout(n)))
  {
    TimeOutNetwork(s, n);
    TimeOutStep(s, h, n);
    TimedOutInv(s, h, n, Step(s, ElectionTimeout(n)).value.net);
  }

  lemma FlushKeepsInv(s: State, h: History, after: Net)
    requires Inv(s, h) && NetworkRuns.OnlyFlushed(s.net, after) && NetworkRuns.Inv(s.servers.Keys, after)
    ensures Inv(State(s.servers, after), h)
  {
    FlushBodies(s.net, after);
  }

  lemma StepKeepsInv(s: State, h: History, a: Action)
    requires Inv(s, h) && Enabled(s, a)
    ensures Step(s, a).Some? && Inv(Step(s, a).value, Record(h, s, a))
  {
    match a
    case HandleRV(src, dst) =>
      if GrantsVote(s.servers[dst], NetGetMsg(s.net, src, dst).value.body) {
        GrantKeepsInv(s, h, src, dst);
      } else {
        RefuseKeepsInv(s, h, src, dst);
      }
    case HandleRVR(src, dst) => CountKeepsInv(s, h, src, dst);
    case HandleRVRLoosely(src, dst, roles) => LooseKeepsInv(s, h, src, dst, roles);
    case ElectionTimeout(n) => TimeOutKeepsInv(s, h, n);
    case Partition(n) =>
      NetworkRuns.PartQueues(s.servers.Keys, s.net, {n}, true);
      NetworkRuns.StepKeepsInv(s.servers.Keys, s.net, NetworkRuns.Partition({n}), true);
      FlushKeepsInv(s, h, NetPartConn(s.net, {n}, true));
    case Cure =>
      NetworkRuns.StepKeepsInv(s.servers.Keys, s.net, NetworkRuns.Cure, true);
      FlushKeepsInv(s, h, NetCureConn(s.net));
  }

  // ---- Whole runs

  lemma InitInv(nodes: set<Node>)
    ensures Inv(Init(nodes), InitHistory(nodes))
  {
    NetworkRuns.InitInv(nodes);
    var s := Init(nodes);
    forall x, y ensures Queue(s.net.msgs, x, y) == [] {}
    assert s.servers.Keys == nodes;
  }

  lemma {:induction false} RunInv(nodes: set<Node>, acts: seq<Action>)
    requires IsRun(nodes, acts)
    ensures Inv(StateAfter(nodes, acts), HistoryOf(nodes, acts))
  {
    if acts == [] {
      InitInv(nodes);
    } else {
      var init := acts[..|acts| - 1];
      RunInv(nodes, init);
      StepKeepsInv(StateAfter(nodes, init), HistoryOf(nodes, init), acts[|acts| - 1]);
    }
  }

  lemma RecordGrows(s: State, h: History, a: Action)
    requires Enabled(s, a) && h.counted.Keys == s.servers.Keys
    ensures h.votes <= Record(h, s, a).votes
  {
  }

  lemma LastRecorded(nodes: set<Node>, acts: seq<Action>)
    requires IsRun(nodes, acts) && acts != []
    ensures IsRun(nodes, acts[..|acts| - 1])
    ensures HistoryOf(nodes, acts[..|acts| - 1]).votes <= HistoryOf(nodes, acts).votes
  {
    var init := acts[..|acts| - 1];
    RecordGrows(StateAfter(nodes, init), HistoryOf(nodes, init), acts[|acts| - 1]);
  }

  lemma {:induction false} VotesStay(nodes: set<Node>, acts: seq<Action>, k: nat)
    requires IsRun(nodes, acts) && k <= |acts|
    ensures IsRun(nodes, acts[..k])
    ensures HistoryOf(nodes, acts[..k]).votes <= HistoryOf(nodes, acts).votes
  {
    if k == |acts| {
      assert acts[..k] == acts;
    } else {
      var init := acts[..|acts| - 1];
      LastRecorded(nodes, acts);
      VotesStay(nodes, init, k);
      assert init[..k] == acts[..k];
    }
  }

  // ---- Roles

  /** A candidate or leader stands in its term, and a leader has counted a majority. */
  ghost predicate RoleOk(nodes: set<Node>, h: History, n: Node, me: Server) {
    && (Running(me) ==> Stands(h, n, me))
    && (me.role == Leader ==> me.votesCount * 2 > |nodes|)
  }

  ghost predicate RolesOk(servers: map<Node, Server>, h: History) {
    forall n :: n in servers ==> RoleOk(servers.Keys, h, n, servers[n])
  }

  lemma UpdateRoles(servers: map<Node, Server>, h: History, h': History, n: Node, me': Server)
    requires RolesOk(servers, h) && n in servers && h.votes <= h'.votes
    requires RoleOk(servers.Keys, h', n, me')
    ensures RolesOk(servers[n := me'], h')
  {
    var servers' := servers[n := me'];
    assert servers'.Keys == servers.Keys;
    forall m | m in servers' ensures RoleOk(servers'.Keys, h', m, servers'[m]) {
      assert RoleOk(servers.Keys, h, m, servers[m]);
    }
  }

  function AfterRequest(me: Server, src: Node, data: Body): Server
    requires data.RequestVote?
  {
    var followed := BecomeFollower(me, data.term);
    if GrantsVote(me, data) then followed.(votedFor := Some(src)) else followed
  }

  lemma RequestStep(s: State, src: Node, dst: Node)
    requires Enabled(s, HandleRV(src, dst)) && Step(s, HandleRV(src, dst)).Some?
    ensures Step(s, HandleRV(src, dst)).value.servers ==
            s.servers[dst := AfterRequest(s.servers[dst], src, NetGetMsg(s.net, src, dst).value.body)]
  {
  }

  /** A server that gets a request keeps its role, or goes on to a later term as a follower. */
  lemma RequestKeepsRole(nodes: set<Node>, h: History, h': History, src: Node, dst: Node, me: Server, data: Body)
    requires ServerOk(nodes, h, dst, me) && RoleOk(nodes, h, dst, me) && data.RequestVote? && h.votes <= h'.votes
    ensures RoleOk(nodes, h', dst, AfterRequest(me, src, data))
  {
  }

  lemma RequestKeepsRoles(s: State, h: History, src: Node, dst: Node)
    requires Inv(s, h) && RolesOk(s.servers, h) && Enabled(s, HandleRV(src, dst)) && Step(s, HandleRV(src, dst)).Some?
    ensures RolesOk(Step(s, HandleRV(src, dst)).value.servers, Record(h, s, HandleRV(src, dst)))
  {
    var me, data, h' := s.servers[dst], NetGetMsg(s.net, src, dst).value.body, Record(h, s, HandleRV(src, dst));
    RecordGrows(s, h, HandleRV(src, dst));
    assert RoleOk(s.servers.Keys, h, dst, me) && ServerOk(s.servers.Keys, h, dst, me);
    RequestKeepsRole(s.servers.Keys, h, h', src, dst, me, data);
    UpdateRoles(s.servers, h, h', dst, AfterRequest(me, src, data));
    RequestStep(s, src, dst);
  }

  lemma ResponseKeepsRoles(s: State, h: History, src: Node, dst: Node)
    requires Inv(s, h) && RolesOk(s.servers, h) && Enabled(s, HandleRVR(src, dst))
    requires Step(s, HandleRVR(src, dst)).Some?
    ensures RolesOk(Step(s, HandleRVR(src, dst)).value.servers, Record(h, s, HandleRVR(src, dst)))
  {
    var me, term := s.servers[dst], NetGetMsg(s.net, src, dst).value.body.term;
    RecordGrows(s, h, HandleRVR(src, dst));
    assert |s.servers| == |s.servers.Keys|;
    assert RoleOk(s.servers.Keys, h, dst, me);
    UpdateRoles(s.servers, h, Record(h, s, HandleRVR(src, dst)), dst, CountVote(me, term, |s.servers|));
  }

  lemma TimeOutKeepsRoles(s: State, h: History, n: Node)
    requires Inv(s, h) && RolesOk(s.servers, h) && n in s.servers && Step(s, ElectionTimeout(n)).Some?
    ensures RolesOk(Step(s, ElectionTimeout(n)).value.servers, Record(h, s, ElectionTimeout(n)))
  {
    TimeOutStep(s, h, n);
    UpdateRoles(s.servers, h, Stood(h, n, s.servers[n].currentTerm + 1), n, BecomeCandidate(s.servers[n], n));
  }

  lemma StepKeepsRoles(s: State, h: History, a: Action)
    requires Inv(s, h) && RolesOk(s.servers, h) && Enabled(s, a) && !a.HandleRVRLoosely? && Step(s, a).Some?
    ensures RolesOk(Step(s, a).value.servers, Record(h, s, a))
  {
    match a
    case HandleRV(src, dst) => RequestKeepsRoles(s, h, src, dst);
    case HandleRVR(src, dst) => ResponseKeepsRoles(s, h, src, dst);
    case ElectionTimeout(n) => TimeOutKeepsRoles(s, h, n);
    case Partition(_) =>
    case Cure =>
  }

  /** Whoever counts a first vote of others has two votes: a quorum of up to three servers.  The branch that leaves
      the roles open needs four. */
  lemma LooseNeedsFour(s: State, h: History, src: Node, dst: Node, roles: map<Node, Role>)
    requires Inv(s, h) && RolesOk(s.servers, h) && Enabled(s, HandleRVRLoosely(src, dst, roles))
    ensures |s.servers| >= 4
  {
    assert ServerOk(s.servers.Keys, h, dst, s.servers[dst]) && RoleOk(s.servers.Keys, h, dst, s.servers[dst]);
    assert dst in Counted(h, dst);
  }

  /** No role is left to chance in the run. */
  ghost predicate RolesDecided(nodes: set<Node>, acts: seq<Action>) {
    |nodes| <= 3 || Completed(acts)
  }

  lemma LastAction(nodes: set<Node>, acts: seq<Action>)
    requires IsRun(nodes, acts) && acts != []
    ensures var init, a := acts[..|acts| - 1], acts[|acts| - 1];
            && IsRun(nodes, init) && Enabled(StateAfter(nodes, init), a)
            && Step(StateAfter(nodes, init), a) == Some(StateAfter(nodes, acts))
            && HistoryOf(nodes, acts) == Record(HistoryOf(nodes, init), StateAfter(nodes, init), a)
            && Inv(StateAfter(nodes, init), HistoryOf(nodes, init))
  {
    RunInv(nodes, acts[..|acts| - 1]);
  }

  lemma {:induction false} RunRoles(nodes: set<Node>, acts: seq<Action>)
    requires IsRun(nodes, acts) && RolesDecided(nodes, acts)
    ensures RolesOk(StateAfter(nodes, acts).servers, HistoryOf(nodes, acts))
  {
    if acts != [] {
      var init, a := acts[..|acts| - 1], acts[|acts| - 1];
      RunRoles(nodes, init);
      LastAction(nodes, acts);
      assert a in acts;
      var s, h := StateAfter(nodes, init), HistoryOf(nodes, init);
      if a.HandleRVRLoosely? {
        assert |s.servers| == |s.servers.Keys|;
        LooseNeedsFour(s, h, a.src, a.dst, a.roles);
      } else {
        StepKeepsRoles(s, h, a);
      }
    }
  }

  // ---- Election Safety

  /** Two majorities of one finite set share a member. */
  lemma QuorumsMeet(all: set<Node>, a: set<Node>, b: set<Node>) returns (v: Node)
    requires a <= all && b <= all && |a| * 2 > |all| && |b| * 2 > |all|
    ensures v in a && v in b
  {
    if a * b == {} {
      NetworkRuns.SubsetCount(a + b, all);
      DisjointCount(a + b, a, b);
    }
    v :| v in a * b;
  }

  lemma LeaderVoters(nodes: set<Node>, s: State, h: History, n: Node, term: int) returns (quorum: set<Node>)
    requires Inv(s, h) && RolesOk(s.servers, h) && s.servers.Keys == nodes && LeaderAt(s, n, term)
    ensures quorum <= nodes && |quorum| * 2 > |nodes| && quorum <= Voters(h, term, n)
  {
    assert ServerOk(nodes, h, n, s.servers[n]) && RoleOk(nodes, h, n, s.servers[n]);
    quorum := Counted(h, n);
  }

  /** A leader was voted for by a majority in its term, and the whole run remembers these votes. */
  lemma LeaderHasQuorum(nodes: set<Node>, acts: seq<Action>, k: nat, n: Node, term: int) returns (quorum: set<Node>)
    requires IsRun(nodes, acts) && RolesDecided(nodes, acts) && k <= |acts| && IsRun(nodes, acts[..k])
    requires LeaderAt(StateAfter(nodes, acts[..k]), n, term)
    ensures quorum <= nodes && |quorum| * 2 > |nodes|
    ensures quorum <= Voters(HistoryOf(nodes, acts), term, n)
  {
    RunInv(nodes, acts[..k]);
    RunRoles(nodes, acts[..k]);
    quorum := LeaderVoters(nodes, StateAfter(nodes, acts[..k]), HistoryOf(nodes, acts[..k]), n, term);
    VotesStay(nodes, acts, k);
    VotersGrow(HistoryOf(nodes, acts[..k]), HistoryOf(nodes, acts), term, n);
  }

  /** Election Safety, section 5.2 of the Raft paper: however timeouts, deliveries, partitions and cures
      interleave, two servers that lead the same term, at whatever two moments of a run, are one server.
      This needs that no role is left to chance: see AsWritten.dfy for what happens otherwise. */
  lemma ElectionSafety(nodes: set<Node>, acts: seq<Action>, j: nat, k: nat, n: Node, m: Node, term: int)
    requires IsRun(nodes, acts) && RolesDecided(nodes, acts) && j <= |acts| && k <= |acts|
    requires IsRun(nodes, acts[..j]) && LeaderAt(StateAfter(nodes, acts[..j]), n, term)
    requires IsRun(nodes, acts[..k]) && LeaderAt(StateAfter(nodes, acts[..k]), m, term)
    ensures n == m
  {
    var a := LeaderHasQuorum(nodes, acts, j, n, term);
    var b := LeaderHasQuorum(nodes, acts, k, m, term);
    var v := QuorumsMeet(nodes, a, b);
    RunInv(nodes, acts);
    assert Vote(v, term, n) in HistoryOf(nodes, acts).votes;
    assert Vote(v, term, m) in HistoryOf(nodes, acts).votes;
  }

  /** The invariant that the repository model-checks. */
  ghost predicate OneLeaderPerTerm(s: State) {
    !exists i, j :: && i in s.servers && j in s.servers && i != j
                    && s.servers[i].currentTerm == s.servers[j].currentTerm
                    && s.servers[i].role == Leader
                    && s.servers[j].role == Leader
  }

  lemma AtMostOneLeaderPerTerm(nodes: set<Node>, acts: seq<Action>)
    requires IsRun(nodes, acts) && RolesDecided(nodes, acts)
    ensures OneLeaderPerTerm(StateAfter(nodes, acts))
  {
    var s := StateAfter(nodes, acts);
    assert acts[..|acts|] == acts;
    forall i, j | && i in s.servers && j in s.servers
                  && s.servers[i].currentTerm == s.servers[j].currentTerm
                  && s.servers[i].role == Leader && s.servers[j].role == Leader
      ensures i == j
    {
      ElectionSafety(nodes, acts, |acts|, |acts|, i, j, s.servers[i].currentTerm);
    }
  }

  // ---- Votes

  /** The action, taken in the state, casts the vote. */
  ghost predicate Casts(s: State, a: Action, v: Vote)
    requires Enabled(s, a)
  {
    match a
    case HandleRV(src, dst) =>
      var data := NetGetMsg(s.net, src, dst).value.body;
      GrantsVote(s.servers[dst], data) && v == Vote(dst, data.term, src)
    case ElectionTimeout(n) => v == Vote(n, s.servers[n].currentTerm + 1, n)
    case _ => false
  }

  lemma CastIsNew(s: State, h: History, a: Action, v: Vote)
    requires Inv(s, h) && Enabled(s, a) && Casts(s, a, v)
    ensures forall w :: w in h.votes && w.voter == v.voter ==> w.term != v.term
    ensures v in Record(h, s, a).votes
  {
    match a
    case HandleRV(src, dst) => GrantIsFirst(s.servers, h, dst, NetGetMsg(s.net, src, dst).value.body);
    case ElectionTimeout(n) =>
      forall w | w in h.votes && w.voter == n ensures w.term != v.term {
        assert VoteOk(s.servers, w);
      }
  }

  lemma ActionEnabled(nodes: set<Node>, acts: seq<Action>, k: nat)
    requires IsRun(nodes, acts) && k < |acts|
    ensures IsRun(nodes, acts[..k]) && Enabled(StateAfter(nodes, acts[..k]), acts[k])
    ensures IsRun(nodes, acts[..k + 1])
    ensures HistoryOf(nodes, acts[..k + 1])
            == Record(HistoryOf(nodes, acts[..k]), StateAfter(nodes, acts[..k]), acts[k])
  {
    PrefixIsRun(nodes, acts, k);
    PrefixIsRun(nodes, acts, k + 1);
    assert acts[..k + 1][..|acts[..k + 1]| - 1] == acts[..k];
  }

  ghost predicate CastsAt(nodes: set<Node>, acts: seq<Action>, k: nat, v: Vote) {
    && k < |acts|
    && IsRun(nodes, acts[..k])
    && Enabled(StateAfter(nodes, acts[..k]), acts[k])
    && Casts(StateAfter(nodes, acts[..k]), acts[k], v)
  }

  lemma CastRemembered(nodes: set<Node>, acts: seq<Action>, j: nat, v: Vote)
    requires IsRun(nodes, acts) && CastsAt(nodes, acts, j, v)
    ensures v in HistoryOf(nodes, acts).votes
  {
    ActionEnabled(nodes, acts, j);
    RunInv(nodes, acts[..j]);
    CastIsNew(StateAfter(nodes, acts[..j]), HistoryOf(nodes, acts[..j]), acts[j], v);
    VotesStay(nodes, acts, j + 1);
  }

  lemma CastsAtPrefix(nodes: set<Node>, acts: seq<Action>, j: nat, k: nat, v: Vote)
    requires CastsAt(nodes, acts, j, v) && j < k <= |acts|
    ensures CastsAt(nodes, acts[..k], j, v)
  {
    assert acts[..k][..j] == acts[..j];
  }

  /** A server casts at most one vote in a term over a whole run, although votedFor is never cleared. */
  lemma OneVotePerTerm(nodes: set<Node>, acts: seq<Action>, j: nat, k: nat, v: Vote, w: Vote)
    requires IsRun(nodes, acts) && j <= k && CastsAt(nodes, acts, j, v) && CastsAt(nodes, acts, k, w)
    requires v.voter == w.voter && v.term == w.term
    ensures j == k && v == w
  {
    RunInv(nodes, acts[..k]);
    CastIsNew(StateAfter(nodes, acts[..k]), HistoryOf(nodes, acts[..k]), acts[k], w);
    if j < k {
      CastsAtPrefix(nodes, acts, j, k, v);
      CastRemembered(nodes, acts[..k], j, v);
    }
  }

  /** The places of the responses on their way to n that carry its current term. */
  ghost function VotesInFlight(s: State, n: Node): set<(Node, Node, int)>
    requires n in s.servers
  {
    set x | x in Slots(s.net.msgs) && x.1 == n
            && Queue(s.net.msgs, x.0, x.1)[x.2].body == RequestVoteResponse(s.servers[n].currentTerm)
  }

  lemma {:induction false} ImageCount(slots: set<(Node, Node, int)>, senders: set<Node>)
    requires forall x :: x in slots ==> x.0 in senders
    requires forall x, y :: x in slots && y in slots && x.0 == y.0 ==> x == y
    ensures |slots| <= |senders|
    decreases |slots|
  {
    if slots != {} {
      var x :| x in slots;
      ImageCount(slots - {x}, senders - {x.0});
    }
  }

  lemma InFlightVoter(s: State, h: History, n: Node, x: (Node, Node, int))
    requires Inv(s, h) && n in s.servers && x in VotesInFlight(s, n)
    ensures x.0 in Voters(h, s.servers[n].currentTerm, n) - Counted(h, n)
  {
    SlotsMeans(s.net.msgs, x.0, x.1, x.2);
    assert InFlight(s.net, x.0, n, RequestVoteResponse(s.servers[n].currentTerm));
    assert BodyOk(s.servers, h, x.0, n, RequestVoteResponse(s.servers[n].currentTerm));
    assert Vote(x.0, s.servers[n].currentTerm, n) in h.votes;
  }

  lemma InFlightOnce(s: State, n: Node)
    requires n in s.servers && ResponsesOnce(s.net)
    ensures forall x, y :: x in VotesInFlight(s, n) && y in VotesInFlight(s, n) && x.0 == y.0 ==> x == y
  {
    forall x, y | x in VotesInFlight(s, n) && y in VotesInFlight(s, n) && x.0 == y.0 ensures x == y {
      SlotsMeans(s.net.msgs, x.0, x.1, x.2);
      SlotsMeans(s.net.msgs, y.0, y.1, y.2);
    }
  }

  lemma InFlightBound(s: State, h: History, n: Node)
    requires Inv(s, h) && n in s.servers && Stands(h, n, s.servers[n])
    ensures |Counted(h, n)| + |VotesInFlight(s, n)| <= |Voters(h, s.servers[n].currentTerm, n)|
  {
    var voters := Voters(h, s.servers[n].currentTerm, n);
    assert ServerOk(s.servers.Keys, h, n, s.servers[n]);
    forall x | x in VotesInFlight(s, n) ensures x.0 in voters - Counted(h, n) {
      InFlightVoter(s, h, n, x);
    }
    InFlightOnce(s, n);
    ImageCount(VotesInFlight(s, n), voters - Counted(h, n));
    DisjointCount(voters, Counted(h, n), voters - Counted(h, n));
  }

  /** What a server has counted, with what is still on its way to it, never exceeds the number of distinct servers
      that voted for it in its term. */
  ghost predicate CountsVotes(s: State, h: History, n: Node)
    requires n in s.servers
  {
    s.servers[n].votesCount + |VotesInFlight(s, n)| <= |Voters(h, s.servers[n].currentTerm, n)|
  }

  /** In every run no server's count exceeds the cluster, and the votes of a server that stands in its term are as
      many as were cast for it; with no role left to chance, every candidate and leader is such a server. */
  lemma VoteAccounting(nodes: set<Node>, acts: seq<Action>, n: Node)
    requires IsRun(nodes, acts) && n in nodes
    ensures var s, h := StateAfter(nodes, acts), HistoryOf(nodes, acts);
            && 0 <= s.servers[n].votesCount <= |nodes|
            && (Stands(h, n, s.servers[n]) ==> CountsVotes(s, h, n))
            && (RolesDecided(nodes, acts) && Running(s.servers[n]) ==> CountsVotes(s, h, n))
  {
    var s, h := StateAfter(nodes, acts), HistoryOf(nodes, acts);
    RunInv(nodes, acts);
    assert ServerOk(nodes, h, n, s.servers[n]);
    NetworkRuns.SubsetCount(Counted(h, n), nodes);
    if Stands(h, n, s.servers[n]) {
      InFlightBound(s, h, n);
    } else if RolesDecided(nodes, acts) {
      RunRoles(nodes, acts);
      assert RoleOk(nodes, h, n, s.servers[n]);
    }
  }

  /** Requests never run ahead of their sender's term, nor responses of their recipient's. */
  lemma TermsBounded(nodes: set<Node>, acts: seq<Action>, x: Node, y: Node, b: Body)
    requires IsRun(nodes, acts) && InFlight(StateAfter(nodes, acts).net, x, y, b)
    ensures var s := StateAfter(nodes, acts);
            && x in s.servers && y in s.servers
            && (b.RequestVote? ==> b.term <= s.servers[x].currentTerm)
            && (b.RequestVoteResponse? ==> b.term <= s.servers[y].currentTerm)
  {
    var s, h := StateAfter(nodes, acts), HistoryOf(nodes, acts);
    RunInv(nodes, acts);
    assert BodyOk(s.servers, h, x, y, b);
  }

  ghost predicate RunnersVotedForThemselves(s: State) {
    forall n :: n in s.servers && Running(s.servers[n]) ==> s.servers[n].votedFor == Some(n)
  }

  /** With no role left to chance, who runs for leader or leads has voted for itself. */
  lemma RunnersVote(nodes: set<Node>, acts: seq<Action>)
    requires IsRun(nodes, acts) && RolesDecided(nodes, acts)
    ensures RunnersVotedForThemselves(StateAfter(nodes, acts))
  {
    var s, h := StateAfter(nodes, acts), HistoryOf(nodes, acts);
    RunInv(nodes, acts);
    RunRoles(nodes, acts);
    forall n | n in s.servers && Running(s.servers[n]) ensures s.servers[n].votedFor == Some(n) {
      assert ServerOk(nodes, h, n, s.servers[n]) && RoleOk(nodes, h, n, s.servers[n]);
    }
  }

  /** The log comparison never refuses a vote: the logs never change, and its two swapped getters are swapped alike
      on both sides. */
  lemma LogCheckInert(nodes: set<Node>, acts: seq<Action>, src: Node, dst: Node)
    requires IsRun(nodes, acts) && Enabled(StateAfter(nodes, acts), HandleRV(src, dst))
    ensures var s := StateAfter(nodes, acts);
            !LogOutdated(s.servers[dst], NetGetMsg(s.net, src, dst).value.body)
  {
    var s, h := StateAfter(nodes, acts), HistoryOf(nodes, acts);
    RunInv(nodes, acts);
    ReceiveBodies(nodes, s.net, src, dst);
    assert BodyOk(s.servers, h, src, dst, NetGetMsg(s.net, src, dst).value.body);
    assert ServerOk(nodes, h, dst, s.servers[dst]);
  }

  // ---- What votedFor means

  /** A request of a higher term is granted exactly by a server that does not lead, in every run. */
  lemma HigherTermGranted(nodes: set<Node>, acts: seq<Action>, src: Node, dst: Node)
    requires IsRun(nodes, acts) && Enabled(StateAfter(nodes, acts), HandleRV(src, dst))
    requires var s := StateAfter(nodes, acts);
             NetGetMsg(s.net, src, dst).value.body.term > s.servers[dst].currentTerm
    ensures var s := StateAfter(nodes, acts);
            GrantsVote(s.servers[dst], NetGetMsg(s.net, src, dst).value.body) <==> s.servers[dst].role != Leader
  {
    LogCheckInert(nodes, acts, src, dst);
  }

  /** A leader gets the request of a higher term, and leaves its own without a vote. */
  ghost predicate StepsDown(s: State, a: Action, n: Node)
    requires Enabled(s, a)
  {
    && a.HandleRV? && a.dst == n && s.servers[n].role == Leader
    && NetGetMsg(s.net, a.src, n).value.body.term > s.servers[n].currentTerm
  }

  ghost predicate CastsOne(s: State, a: Action, n: Node)
    requires Enabled(s, a)
  {
    || (a.ElectionTimeout? && a.n == n)
    || (a.HandleRV? && a.dst == n && GrantsVote(s.servers[n], NetGetMsg(s.net, a.src, n).value.body))
  }

  /** Of what n did last, voting or stepping down as a leader, it was the latter. */
  ghost predicate SteppedDown(nodes: set<Node>, acts: seq<Action>, n: Node)
    requires IsRun(nodes, acts)
  {
    acts != [] &&
    var init, a := acts[..|acts| - 1], acts[|acts| - 1];
    var s := StateAfter(nodes, init);
    !CastsOne(s, a, n) && (StepsDown(s, a, n) || SteppedDown(nodes, init, n))
  }

  /** votedFor is the vote of n in the term it is in. */
  ghost predicate VotedInTerm(s: State, h: History, n: Node)
    requires n in s.servers && s.servers[n].votedFor.Some?
  {
    Vote(n, s.servers[n].currentTerm, s.servers[n].votedFor.value) in h.votes
  }

  /** Casting leaves votedFor in its term. */
  lemma CastIsInTerm(s: State, h: History, a: Action, n: Node)
    requires Inv(s, h) && Enabled(s, a) && n in s.servers && CastsOne(s, a, n) && Step(s, a).Some?
    ensures n in Step(s, a).value.servers && Step(s, a).value.servers[n].votedFor.Some?
    ensures VotedInTerm(Step(s, a).value, Record(h, s, a), n)
  {
    if a.ElectionTimeout? {
      TimeOutStep(s, h, n);
    } else {
      RequestStep(s, a.src, n);
      GrantIsFirst(s.servers, h, n, NetGetMsg(s.net, a.src, n).value.body);
    }
  }

  /** The server's term and vote are as before. */
  ghost predicate SameVote(s: State, s': State, n: Node) {
    && n in s.servers && n in s'.servers
    && s'.servers[n].votedFor == s.servers[n].votedFor && s'.servers[n].currentTerm == s.servers[n].currentTerm
  }

  lemma RefusedVote(s: State, src: Node, dst: Node, n: Node)
    requires Enabled(s, HandleRV(src, dst)) && Step(s, HandleRV(src, dst)).Some? && n in s.servers
    requires !CastsOne(s, HandleRV(src, dst), n)
    requires !LogOutdated(s.servers[dst], NetGetMsg(s.net, src, dst).value.body)
    ensures var s' := Step(s, HandleRV(src, dst)).value;
            if StepsDown(s, HandleRV(src, dst), n)
            then n in s'.servers && s'.servers[n].votedFor == s.servers[n].votedFor
                 && s'.servers[n].currentTerm > s.servers[n].currentTerm
            else SameVote(s, s', n)
  {
    RequestStep(s, src, dst);
  }

  lemma ResponseKeepsVote(s: State, src: Node, dst: Node, n: Node)
    requires NetworkRuns.Inv(s.servers.Keys, s.net) && ResponsesOnce(s.net)
    requires Enabled(s, HandleRVR(src, dst)) && n in s.servers
    ensures Step(s, HandleRVR(src, dst)).Some? && SameVote(s, Step(s, HandleRVR(src, dst)).value, n)
  {
    StepCounts(s, src, dst);
  }

  lemma LooseKeepsVote(s: State, src: Node, dst: Node, roles: map<Node, Role>, n: Node)
    requires NetworkRuns.Inv(s.servers.Keys, s.net) && ResponsesOnce(s.net)
    requires Enabled(s, HandleRVRLoosely(src, dst, roles)) && n in s.servers
    ensures var a := HandleRVRLoosely(src, dst, roles); Step(s, a).Some? && SameVote(s, Step(s, a).value, n)
  {
    ResponseKeepsVote(s, src, dst, n);
    LooseStep(s, src, dst, roles);
  }

  /** Any other action leaves the term and the vote of n as they are, unless n steps down by it. */
  lemma OthersKeepVote(s: State, h: History, a: Action, n: Node)
    requires Inv(s, h) && Enabled(s, a) && n in s.servers && !CastsOne(s, a, n) && Step(s, a).Some?
    requires a.HandleRV? ==> !LogOutdated(s.servers[a.dst], NetGetMsg(s.net, a.src, a.dst).value.body)
    ensures var s' := Step(s, a).value;
            if StepsDown(s, a, n)
            then n in s'.servers && s'.servers[n].votedFor == s.servers[n].votedFor
                 && s'.servers[n].currentTerm > s.servers[n].currentTerm
            else SameVote(s, s', n)
  {
    match a
    case HandleRV(src, dst) => RefusedVote(s, src, dst, n);
    case HandleRVR(src, dst) => ResponseKeepsVote(s, src, dst, n);
    case HandleRVRLoosely(src, dst, roles) => LooseKeepsVote(s, src, dst, roles, n);
    case ElectionTimeout(m) => TimeOutStep(s, h, m);
    case Partition(_) =>
    case Cure =>
  }

  lemma OthersCastNothing(s: State, h: History, a: Action, n: Node)
    requires Enabled(s, a) && h.counted.Keys == s.servers.Keys && !CastsOne(s, a, n)
    ensures forall v: Vote :: v.voter == n ==> (v in Record(h, s, a).votes <==> v in h.votes)
  {
  }

  lemma StepDownLeavesVote(s: State, h: History, s': State, h': History, n: Node)
    requires ServersInv(s.servers, h) && n in s.servers && n in s'.servers && s'.servers[n].votedFor.Some?
    requires s'.servers[n].currentTerm > s.servers[n].currentTerm
    requires forall v: Vote :: v.voter == n ==> (v in h'.votes <==> v in h.votes)
    ensures !VotedInTerm(s', h', n)
  {
    var v := Vote(n, s'.servers[n].currentTerm, s'.servers[n].votedFor.value);
    forall w | w in h.votes ensures w.voter == n ==> w.term <= s.servers[n].currentTerm {
      assert VoteOk(s.servers, w);
    }
    assert v !in h.votes;
  }

  /** votedFor is never cleared.  It is a vote of the current term exactly if the server has not stepped down as a
      leader since it last voted. */
  lemma {:induction false} VotedForExactly(nodes: set<Node>, acts: seq<Action>, n: Node)
    requires IsRun(nodes, acts) && n in StateAfter(nodes, acts).servers
    requires StateAfter(nodes, acts).servers[n].votedFor.Some?
    ensures VotedInTerm(StateAfter(nodes, acts), HistoryOf(nodes, acts), n) <==> !SteppedDown(nodes, acts, n)
  {
    if acts != [] {
      var init, a := acts[..|acts| - 1], acts[|acts| - 1];
      var s, h := StateAfter(nodes, init), HistoryOf(nodes, init);
      LastAction(nodes, acts);
      if CastsOne(s, a, n) {
        CastIsInTerm(s, h, a, n);
      } else {
        if a.HandleRV? {
          LogCheckInert(nodes, init, a.src, a.dst);
        }
        OthersKeepVote(s, h, a, n);
        OthersCastNothing(s, h, a, n);
        if StepsDown(s, a, n) {
          StepDownLeavesVote(s, h, StateAfter(nodes, acts), HistoryOf(nodes, acts), n);
        } else {
          VotedForExactly(nodes, init, n);
        }
      }
    }
  }
}
