/** The next-state relation of PySyncObjTLA/PySyncObj.tla, conjunct by conjunct on the variables before and after, and
    that the actions of PySyncObj make exactly these steps. */
module NextAction {
  import opened Options
  import opened FifoNetwork
  import opened PySyncObj
  import NetworkRuns

  // ---- HandleMsgRV

  ghost predicate MsgRVAllows(s: State, src: Node, dst: Node, m: Msg, s': State)
    requires dst in s.servers && m.body.RequestVote?
  {
    && s'.servers.Keys == s.servers.Keys
    && (forall n :: n in s.servers && n != dst ==> s'.servers[n] == s.servers[n])
    && var me, me', last := s.servers[dst], s'.servers[dst], s.servers[dst].log[|s.servers[dst].log| - 1];
    && (if m.body.term > me.currentTerm
        then me'.currentTerm == m.body.term && me'.role == Follower
        else me'.currentTerm == me.currentTerm && me'.role == me.role)
    && me'.votesCount == me.votesCount && me'.log == me.log
    && (if && me.role != Leader
           && m.body.term >= me'.currentTerm
           && !(|| m.body.lastLogTerm < last.idx
                || (m.body.lastLogTerm == last.idx && m.body.lastLogIdx < last.term)
                || !(me'.currentTerm > me.currentTerm || me.votedFor == None))
        then && me'.votedFor == Some(src)
             && NetReplyMsg(s.net, RequestVoteResponse(m.body.term), src, dst, m.seqno) == Some(s'.net)
        else && me'.votedFor == me.votedFor
             && NetDelMsg(s.net, src, dst, m.seqno) == Some(s'.net))
  }

  ghost predicate RequestReady(s: State, src: Node, dst: Node) {
    && src in s.servers && dst in s.servers && src != dst
    && NetGetMsg(s.net, src, dst).Some? && NetGetMsg(s.net, src, dst).value.body.RequestVote?
  }

  lemma RequestStepAllowed(s: State, src: Node, dst: Node, s': State)
    requires RequestReady(s, src, dst) && Step(s, HandleRV(src, dst)) == Some(s')
    ensures MsgRVAllows(s, src, dst, NetGetMsg(s.net, src, dst).value, s')
  {
    assert s'.servers.Keys == s.servers.Keys;
  }

  lemma RequestAllowedAt(s: State, src: Node, dst: Node, s': State)
    requires RequestReady(s, src, dst) && MsgRVAllows(s, src, dst, NetGetMsg(s.net, src, dst).value, s')
    ensures var m := NetGetMsg(s.net, src, dst).value;
            var me := s.servers[dst];
            var after := BecomeFollower(me, m.body.term);
            s'.servers[dst] == if GrantsVote(me, m.body) then after.(votedFor := Some(src)) else after
  {
  }

  lemma RequestAllowedStep(s: State, src: Node, dst: Node, s': State)
    requires RequestReady(s, src, dst) && MsgRVAllows(s, src, dst, NetGetMsg(s.net, src, dst).value, s')
    ensures Step(s, HandleRV(src, dst)) == Some(s')
  {
    RequestAllowedAt(s, src, dst, s');
    assert s'.servers == s.servers[dst := s'.servers[dst]];
  }

  /** Handling a request makes exactly the step that the specification allows. */
  lemma RequestSteps(s: State, src: Node, dst: Node, s': State)
    requires RequestReady(s, src, dst)
    ensures MsgRVAllows(s, src, dst, NetGetMsg(s.net, src, dst).value, s') <==> Step(s, HandleRV(src, dst)) == Some(s')
  {
    if MsgRVAllows(s, src, dst, NetGetMsg(s.net, src, dst).value, s') {
      RequestAllowedStep(s, src, dst, s');
    } else if Step(s, HandleRV(src, dst)) == Some(s') {
      RequestStepAllowed(s, src, dst, s');
    }
  }

  // ---- HandleMsgRVR

  ghost predicate MsgRVRAllows(s: State, src: Node, dst: Node, m: Msg, s': State)
    requires dst in s.servers && m.body.RequestVoteResponse?
  {
    && s'.servers.Keys == s.servers.Keys
    && (if s.servers[dst].role == Candidate && m.body.term == s.servers[dst].currentTerm then
          && (forall n :: n in s.servers ==>
               s'.servers[n].votesCount == s.servers[n].votesCount + if n == dst then 1 else 0)
          && (s'.servers[dst].votesCount * 2 > |s.servers| ==>
               forall n :: n in s.servers ==> s'.servers[n].role == if n == dst then Leader else s.servers[n].role)
        else
          forall n :: n in s.servers ==>
            s'.servers[n].role == s.servers[n].role && s'.servers[n].votesCount == s.servers[n].votesCount)
    && (forall n :: n in s.servers ==>
         && s'.servers[n].currentTerm == s.servers[n].currentTerm
         && s'.servers[n].votedFor == s.servers[n].votedFor
         && s'.servers[n].log == s.servers[n].log)
    && NetDelMsg(s.net, src, dst, m.seqno) == Some(s'.net)
  }

  lemma KeptIsAllowed(s: State, src: Node, dst: Node, s': State)
    requires ResponseReady(s, src, dst) && Step(s, HandleRVR(src, dst)) == Some(s')
    ensures MsgRVRAllows(s, src, dst, NetGetMsg(s.net, src, dst).value, s')
  {
    assert s'.servers.Keys == s.servers.Keys;
  }

  lemma LooseIsAllowed(s: State, src: Node, dst: Node, roles: map<Node, Role>, s': State)
    requires Enabled(s, HandleRVRLoosely(src, dst, roles)) && Step(s, HandleRVRLoosely(src, dst, roles)) == Some(s')
    ensures MsgRVRAllows(s, src, dst, NetGetMsg(s.net, src, dst).value, s')
  {
    var kept := Step(s, HandleRVR(src, dst)).value;
    KeptIsAllowed(s, src, dst, kept);
    assert s'.servers.Keys == s.servers.Keys;
    forall n | n in s.servers ensures s'.servers[n] == kept.servers[n].(role := roles[n]) {}
  }

  /** An allowed step changes nothing but the roles where these are left free, and nothing at all elsewhere. */
  lemma AllowedAt(s: State, src: Node, dst: Node, s': State, n: Node)
    requires ResponseReady(s, src, dst) && MsgRVRAllows(s, src, dst, NetGetMsg(s.net, src, dst).value, s')
    requires n in s.servers
    ensures var term := NetGetMsg(s.net, src, dst).value.body.term;
            var kept := if n == dst then CountVote(s.servers[dst], term, |s.servers|) else s.servers[n];
            if RolesLeftFree(s.servers[dst], term, |s.servers|)
            then s'.servers[n] == kept.(role := s'.servers[n].role)
            else s'.servers[n] == kept
  {
  }

  lemma AllowedKept(s: State, src: Node, dst: Node, s': State)
    requires ResponseReady(s, src, dst) && MsgRVRAllows(s, src, dst, NetGetMsg(s.net, src, dst).value, s')
    requires !RolesLeftFree(s.servers[dst], NetGetMsg(s.net, src, dst).value.body.term, |s.servers|)
    ensures Step(s, HandleRVR(src, dst)) == Some(s')
  {
    var servers := Step(s, HandleRVR(src, dst)).value.servers;
    forall n | n in s.servers ensures servers[n] == s'.servers[n] {
      AllowedAt(s, src, dst, s', n);
    }
    assert servers == s'.servers;
  }

  lemma AllowedKeepsAt(s: State, src: Node, dst: Node, s': State, n: Node)
    requires ResponseReady(s, src, dst) && MsgRVRAllows(s, src, dst, NetGetMsg(s.net, src, dst).value, s')
    requires RolesLeftFree(s.servers[dst], NetGetMsg(s.net, src, dst).value.body.term, |s.servers|)
    requires n in s.servers
    ensures var next := Step(s, HandleRVR(src, dst));
            next.Some? && n in next.value.servers && next.value.servers[n].(role := s'.servers[n].role) == s'.servers[n]
  {
    AllowedAt(s, src, dst, s', n);
  }

  lemma WithRolesOf(servers: map<Node, Server>, servers': map<Node, Server>)
    requires servers.Keys == servers'.Keys
    requires forall n :: n in servers ==> servers[n].(role := servers'[n].role) == servers'[n]
    ensures WithRoles(servers, map n | n in servers' :: servers'[n].role) == servers'
  {
    assert (map n | n in servers' :: servers'[n].role).Keys == servers.Keys;
  }

  lemma AllowedKeeps(s: State, src: Node, dst: Node, s': State)
    requires ResponseReady(s, src, dst) && MsgRVRAllows(s, src, dst, NetGetMsg(s.net, src, dst).value, s')
    requires RolesLeftFree(s.servers[dst], NetGetMsg(s.net, src, dst).value.body.term, |s.servers|)
    ensures var roles, next := map n | n in s'.servers :: s'.servers[n].role, Step(s, HandleRVR(src, dst));
            && next.Some? && next.value.servers.Keys == roles.Keys && next.value.net == s'.net
            && WithRoles(next.value.servers, roles) == s'.servers
  {
    KeptKeys(s, src, dst);
    var kept := Step(s, HandleRVR(src, dst)).value.servers;
    forall n | n in kept ensures kept[n].(role := s'.servers[n].role) == s'.servers[n] {
      AllowedKeepsAt(s, src, dst, s', n);
    }
    WithRolesOf(kept, s'.servers);
  }

  lemma AllowedLoose(s: State, src: Node, dst: Node, s': State)
    requires ResponseReady(s, src, dst) && MsgRVRAllows(s, src, dst, NetGetMsg(s.net, src, dst).value, s')
    requires RolesLeftFree(s.servers[dst], NetGetMsg(s.net, src, dst).value.body.term, |s.servers|)
    ensures var a := HandleRVRLoosely(src, dst, map n | n in s'.servers :: s'.servers[n].role);
            Enabled(s, a) && Step(s, a) == Some(s')
  {
    var roles := map n | n in s'.servers :: s'.servers[n].role;
    assert roles.Keys == s.servers.Keys;
    AllowedKeeps(s, src, dst, s');
    LooseStep(s, src, dst, roles);
  }

  /** The two actions on a response make exactly the steps that the specification allows. */
  lemma ResponseSteps(s: State, src: Node, dst: Node, s': State)
    requires ResponseReady(s, src, dst)
    ensures MsgRVRAllows(s, src, dst, NetGetMsg(s.net, src, dst).value, s') <==>
            || Step(s, HandleRVR(src, dst)) == Some(s')
            || exists roles :: Enabled(s, HandleRVRLoosely(src, dst, roles))
                               && Step(s, HandleRVRLoosely(src, dst, roles)) == Some(s')
  {
    if MsgRVRAllows(s, src, dst, NetGetMsg(s.net, src, dst).value, s') {
      if RolesLeftFree(s.servers[dst], NetGetMsg(s.net, src, dst).value.body.term, |s.servers|) {
        AllowedLoose(s, src, dst, s');
      } else {
        AllowedKept(s, src, dst, s');
      }
    } else if Step(s, HandleRVR(src, dst)) == Some(s') {
      KeptIsAllowed(s, src, dst, s');
    } else if roles :| Enabled(s, HandleRVRLoosely(src, dst, roles))
                       && Step(s, HandleRVRLoosely(src, dst, roles)) == Some(s') {
      LooseIsAllowed(s, src, dst, roles, s');
    }
  }

  // ---- ElectionTimeout

  /** The messages that F builds, one per other server. */
  ghost function Batch(servers: set<Node>, n: Node, request: Body): seq<Envelope> {
    VoteRequests(n, request, servers - {n}, |servers - {n}|).0
  }

  ghost predicate TimeoutAllows(s: State, n: Node, s': State)
    requires n in s.servers
  {
    && s'.servers.Keys == s.servers.Keys
    && (forall m :: m in s.servers && m != n ==> s'.servers[m] == s.servers[m])
    && var me, me', last := s.servers[n], s'.servers[n], s.servers[n].log[|s.servers[n].log| - 1];
    && me'.role == Candidate
    && me'.currentTerm == me.currentTerm + 1
    && me'.votesCount == 1
    && me'.votedFor == Some(n)
    && me'.log == me.log
    && s'.net == NetBatchAddMsg(s.net, Batch(s.servers.Keys, n, RequestVote(me.currentTerm + 1, last.term, last.idx)))
  }

  lemma TimeoutIs(s: State, n: Node)
    requires n in s.servers
    ensures var me, last := s.servers[n], s.servers[n].log[|s.servers[n].log| - 1];
            Requests(s, n) == Batch(s.servers.Keys, n, RequestVote(me.currentTerm + 1, last.term, last.idx))
  {
  }

  lemma TimeoutAllowsOne(s: State, n: Node, s': State)
    requires n in s.servers && TimeoutAllows(s, n, s')
    ensures s'.servers == s.servers[n := BecomeCandidate(s.servers[n], n)]
  {
  }

  /** A timeout makes exactly the step that the specification allows. */
  lemma TimeoutSteps(s: State, n: Node, s': State)
    requires n in s.servers
    ensures TimeoutAllows(s, n, s') <==> Step(s, ElectionTimeout(n)) == Some(s')
  {
    TimeOutSends(s, n);
    TimeoutIs(s, n);
    if TimeoutAllows(s, n, s') {
      TimeoutAllowsOne(s, n, s');
    }
  }

  // ---- Next

  ghost predicate PartitionAllows(s: State, n: Node, s': State) {
    n in s.servers && s'.net == NetPartConn(s.net, {n}, true) && s'.servers == s.servers
  }

  ghost predicate NextAllows(s: State, s': State) {
    || (exists src, dst :: RequestReady(s, src, dst) && MsgRVAllows(s, src, dst, NetGetMsg(s.net, src, dst).value, s'))
    || (exists src, dst ::
          ResponseReady(s, src, dst) && MsgRVRAllows(s, src, dst, NetGetMsg(s.net, src, dst).value, s'))
    || (exists n :: n in s.servers && TimeoutAllows(s, n, s'))
    || (exists n :: PartitionAllows(s, n, s'))
    || (s'.net == NetCureConn(s.net) && s'.servers == s.servers)
  }

  ghost predicate Takes(s: State, a: Action, s': State) {
    Enabled(s, a) && Step(s, a) == Some(s')
  }

  lemma TakenIsAllowed(s: State, a: Action, s': State)
    requires Takes(s, a, s')
    ensures NextAllows(s, s')
  {
    match a
    case HandleRV(src, dst) => RequestSteps(s, src, dst, s');
    case HandleRVR(src, dst) => ResponseSteps(s, src, dst, s');
    case HandleRVRLoosely(src, dst, _) => ResponseSteps(s, src, dst, s');
    case ElectionTimeout(n) => TimeoutSteps(s, n, s');
    case Partition(n) => assert PartitionAllows(s, n, s');
    case Cure =>
  }

  lemma ResponseTaken(s: State, src: Node, dst: Node, s': State) returns (a: Action)
    requires ResponseReady(s, src, dst) && MsgRVRAllows(s, src, dst, NetGetMsg(s.net, src, dst).value, s')
    ensures Takes(s, a, s')
  {
    ResponseSteps(s, src, dst, s');
    if Step(s, HandleRVR(src, dst)) == Some(s') {
      a := HandleRVR(src, dst);
    } else {
      var roles :| Enabled(s, HandleRVRLoosely(src, dst, roles))
                   && Step(s, HandleRVRLoosely(src, dst, roles)) == Some(s');
      a := HandleRVRLoosely(src, dst, roles);
    }
  }

  lemma RequestTaken(s: State, src: Node, dst: Node, s': State)
    requires RequestReady(s, src, dst) && MsgRVAllows(s, src, dst, NetGetMsg(s.net, src, dst).value, s')
    ensures Takes(s, HandleRV(src, dst), s')
  {
    RequestSteps(s, src, dst, s');
  }

  lemma TimeoutTaken(s: State, n: Node, s': State)
    requires n in s.servers && TimeoutAllows(s, n, s')
    ensures Takes(s, ElectionTimeout(n), s')
  {
    TimeoutSteps(s, n, s');
  }

  lemma PartitionTaken(s: State, n: Node, s': State)
    requires PartitionAllows(s, n, s')
    ensures Takes(s, Partition(n), s')
  {
  }

  lemma AllowedIsTaken(s: State, s': State) returns (a: Action)
    requires NextAllows(s, s')
    ensures Takes(s, a, s')
  {
    if src, dst :| RequestReady(s, src, dst) && MsgRVAllows(s, src, dst, NetGetMsg(s.net, src, dst).value, s') {
      RequestTaken(s, src, dst, s');
      a := HandleRV(src, dst);
    } else if src, dst :| ResponseReady(s, src, dst)
                          && MsgRVRAllows(s, src, dst, NetGetMsg(s.net, src, dst).value, s') {
      a := ResponseTaken(s, src, dst, s');
    } else if n :| n in s.servers && TimeoutAllows(s, n, s') {
      TimeoutTaken(s, n, s');
      a := ElectionTimeout(n);
    } else if n :| PartitionAllows(s, n, s') {
      PartitionTaken(s, n, s');
      a := Partition(n);
    } else {
      a := Cure;
    }
  }

  /** The actions make exactly the steps of Next. */
  lemma NextSteps(s: State, s': State)
    ensures NextAllows(s, s') <==> exists a :: Takes(s, a, s')
  {
    if NextAllows(s, s') {
      var a := AllowedIsTaken(s, s');
    } else if a :| Takes(s, a, s') {
      TakenIsAllowed(s, a, s');
    }
  }

  // ---- How roles change

  /** The action is the timeout of n, or hands it a request of a higher term. */
  ghost predicate Unseats(s: State, a: Action, n: Node)
    requires Enabled(s, a) && n in s.servers
  {
    || a == ElectionTimeout(n)
    || (a.HandleRV? && a.dst == n && NetGetMsg(s.net, a.src, n).value.body.term > s.servers[n].currentTerm)
  }

  /** The action gives n the vote that makes its majority. */
  ghost predicate Elects(s: State, a: Action, n: Node)
    requires Enabled(s, a) && n in s.servers
  {
    && a.HandleRVR? && a.dst == n
    && s.servers[n].role == Candidate && NetGetMsg(s.net, a.src, n).value.body.term == s.servers[n].currentTerm
    && (s.servers[n].votesCount + 1) * 2 > |s.servers|
  }

  lemma TakenKeys(s: State, a: Action, s': State)
    requires Takes(s, a, s')
    ensures s'.servers.Keys == s.servers.Keys
  {
    match a
    case HandleRV(src, dst) => RequestStepAllowed(s, src, dst, s');
    case HandleRVR(src, dst) => KeptKeys(s, src, dst);
    case HandleRVRLoosely(src, dst, roles) => LooseIsAllowed(s, src, dst, roles, s');
    case ElectionTimeout(n) => TimeoutSteps(s, n, s');
    case Partition(_) =>
    case Cure =>
  }

  /** What an action that decides the roles does to the role and the term of a server: a timeout makes a candidate of
      the next term, a request of a higher term a follower of that term, the last vote of a majority a leader; anything
      else, a request of the same term included, leaves both alone. */
  lemma RoleChanges(s: State, a: Action, s': State, n: Node)
    requires Takes(s, a, s') && !a.HandleRVRLoosely? && n in s.servers
    ensures n in s'.servers
    ensures var me, me' := s.servers[n], s'.servers[n];
            if a == ElectionTimeout(n) then me'.role == Candidate && me'.currentTerm == me.currentTerm + 1
            else if Unseats(s, a, n) then
              me'.role == Follower && me'.currentTerm == NetGetMsg(s.net, a.src, n).value.body.term
            else if Elects(s, a, n) then me'.role == Leader && me'.currentTerm == me.currentTerm
            else me'.role == me.role && me'.currentTerm == me.currentTerm
  {
    TakenKeys(s, a, s');
    match a
    case HandleRV(src, dst) => RequestStepAllowed(s, src, dst, s');
    case HandleRVR(src, dst) => KeptIsAllowed(s, src, dst, s');
    case ElectionTimeout(m) => TimeoutSteps(s, m, s');
    case Partition(_) =>
    case Cure =>
  }

  /** Nothing unseats the server, and no role is left open, between two moments of the run. */
  ghost predicate Undisturbed(nodes: set<Node>, acts: seq<Action>, j: nat, n: Node)
    requires IsRun(nodes, acts) && j <= |acts|
  {
    forall i :: j <= i < |acts| ==>
      && IsRun(nodes, acts[..i]) && Enabled(StateAfter(nodes, acts[..i]), acts[i])
      && !acts[i].HandleRVRLoosely?
      && n in StateAfter(nodes, acts[..i]).servers && !Unseats(StateAfter(nodes, acts[..i]), acts[i], n)
  }

  /** A leader leads its term until it times out or gets a request of a strictly higher term. */
  lemma {:induction false} LeaderStays(nodes: set<Node>, acts: seq<Action>, j: nat, n: Node, term: int)
    requires IsRun(nodes, acts) && j <= |acts| && Undisturbed(nodes, acts, j, n)
    requires IsRun(nodes, acts[..j]) && LeaderAt(StateAfter(nodes, acts[..j]), n, term)
    ensures LeaderAt(StateAfter(nodes, acts), n, term)
  {
    if j == |acts| {
      assert acts[..j] == acts;
    } else {
      var init, a := acts[..|acts| - 1], acts[|acts| - 1];
      forall i | j <= i < |init| ensures init[..i] == acts[..i] && init[i] == acts[i] {}
      assert init[..j] == acts[..j];
      LeaderStays(nodes, init, j, n, term);
      assert acts[..|acts| - 1] == init;
      RoleChanges(StateAfter(nodes, init), a, StateAfter(nodes, acts), n);
    }
  }
}
