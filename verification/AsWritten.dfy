/** What the election specification fails to say, and exactly how far that reaches.

    A vote that is counted without making a quorum leaves every server's role open (PySyncObj.HandleRVRLoosely).  Up to
    three servers this branch is dead; from four on it breaks what is said of candidates and leaders.  A partition
    counts the messages it throws away as still on the wire; this shows from two servers on. */
module AsWritten {
  import opened Options
  import opened FifoNetwork
  import opened Connectivity
  import opened Wires
  import opened PySyncObj
  import opened ElectionSafety
  import opened LeaderReachable
  import NetworkRuns

  // ---- A first vote

  lemma InitQuiet(nodes: set<Node>, c: Node)
    requires c in nodes
    ensures IsRun(nodes, []) && Quiet(nodes, StateAfter(nodes, []), c)
  {
    var s := Init(nodes);
    assert s.servers.Keys == nodes;
    forall x, y | x in s.servers && y in s.servers ensures IsConn(s.net.man.conn, x, y) {
      IsConnMeans(s.net.man.conn, x, y);
      assert nodes in s.net.man.conn;
    }
  }

  /** What the vote of d for c leaves when the roles are then set at will. */
  ghost predicate VotedAtWill(s: State, s': State, c: Node, d: Node, roles: map<Node, Role>)
    requires c in s.servers && d in s.servers
  {
    var term := s.servers[c].currentTerm + 1;
    && s'.servers.Keys == s.servers.Keys == roles.Keys
    && s'.servers[c].currentTerm == term && s'.servers[c].role == roles[c]
    && s'.servers[d] == s.servers[d].(currentTerm := term, votedFor := Some(c), role := roles[d])
  }

  /** Server d gets the request and votes for c. */
  lemma Grant(nodes: set<Node>, acts: seq<Action>, c: Node, term: int, d: Node) returns (next: seq<Action>)
    requires IsRun(nodes, acts) && c in nodes && c != d && AllLinked(StateAfter(nodes, acts))
    requires c in StateAfter(nodes, acts).servers && Asked(StateAfter(nodes, acts), c, term, d)
    ensures IsRun(nodes, next) && |next| == |acts| + 1
    ensures Voted(StateAfter(nodes, acts), StateAfter(nodes, next), c, term, d)
    ensures Vote(d, term, c) in HistoryOf(nodes, next).votes
  {
    var s := StateAfter(nodes, acts);
    RunShaped(nodes, acts);
    DeliverRequest(nodes, s, c, term, d);
    next := Extend(nodes, acts, HandleRV(c, d));
    assert next[..|acts|] == acts;
    assert GrantsVote(s.servers[d], RequestVote(term, 0, 1));
    CastRemembered(nodes, next, |acts|, Vote(d, term, c));
  }

  ghost predicate SecondVoteReady(s: State, c: Node, term: int, d: Node) {
    && c in s.servers && d in s.servers && c != d
    && s.servers[c].role == Candidate && s.servers[c].currentTerm == term && s.servers[c].votesCount == 1
    && |Queue(s.net.msgs, d, c)| == 1 && Queue(s.net.msgs, d, c)[0].body == RequestVoteResponse(term)
  }

  /** The servers once c has two votes and the roles are set at will. */
  ghost function SecondVote(servers: map<Node, Server>, c: Node, roles: map<Node, Role>): map<Node, Server>
    requires c in servers && roles.Keys == servers.Keys
  {
    map n | n in servers :: servers[n].(role := roles[n], votesCount := if n == c then 2 else servers[n].votesCount)
  }

  lemma SecondVoteIs(servers: map<Node, Server>, c: Node, term: int, cluster: nat, roles: map<Node, Role>)
    requires c in servers && roles.Keys == servers.Keys && cluster >= 4
    requires servers[c].role == Candidate && servers[c].currentTerm == term && servers[c].votesCount == 1
    ensures servers[c := CountVote(servers[c], term, cluster)].Keys == servers.Keys
    ensures WithRoles(servers[c := CountVote(servers[c], term, cluster)], roles) == SecondVote(servers, c, roles)
  {
    assert servers[c := CountVote(servers[c], term, cluster)].Keys == servers.Keys;
    var after := WithRoles(servers[c := CountVote(servers[c], term, cluster)], roles);
    forall n | n in servers ensures after[n] == SecondVote(servers, c, roles)[n] {}
  }

  lemma CountLooselyStep(s: State, c: Node, term: int, d: Node, roles: map<Node, Role>)
    requires SecondVoteReady(s, c, term, d) && Meshed(s.servers.Keys, s.net.msgs)
    requires |s.servers| >= 4 && roles.Keys == s.servers.Keys
    ensures Enabled(s, HandleRVRLoosely(d, c, roles)) && Step(s, HandleRVRLoosely(d, c, roles)).Some?
    ensures Step(s, HandleRVRLoosely(d, c, roles)).value.servers == SecondVote(s.servers, c, roles)
  {
    CountStep(s.servers.Keys, s, c, term, d);
    SecondVoteIs(s.servers, c, term, |s.servers|, roles);
    LooseStep(s, d, c, roles);
  }

  /** The candidate counts the vote of d, its second, and the roles become whatever they may. */
  lemma CountLoosely(nodes: set<Node>, acts: seq<Action>, c: Node, term: int, d: Node, roles: map<Node, Role>)
    returns (next: seq<Action>)
    requires IsRun(nodes, acts) && SecondVoteReady(StateAfter(nodes, acts), c, term, d)
    requires |nodes| >= 4 && roles.Keys == nodes == StateAfter(nodes, acts).servers.Keys
    ensures IsRun(nodes, next) && |next| == |acts| + 1
    ensures HistoryOf(nodes, acts).votes <= HistoryOf(nodes, next).votes
    ensures StateAfter(nodes, next).servers == SecondVote(StateAfter(nodes, acts).servers, c, roles)
  {
    RunShaped(nodes, acts);
    SameSize(nodes, acts, acts);
    CountLooselyStep(StateAfter(nodes, acts), c, term, d, roles);
    next := Extend(nodes, acts, HandleRVRLoosely(d, c, roles));
    assert next[..|acts|] == acts;
    VotesStay(nodes, next, |acts|);
  }

  lemma ReadyAfterGrant(s: State, asked: State, granted: State, c: Node, d: Node)
    requires c in s.servers && asked.servers == s.servers[c := BecomeCandidate(s.servers[c], c)] && c != d
    requires Voted(asked, granted, c, s.servers[c].currentTerm + 1, d)
    ensures SecondVoteReady(granted, c, s.servers[c].currentTerm + 1, d)
    ensures d in s.servers && granted.servers.Keys == s.servers.Keys
    ensures granted.servers[d] ==
            s.servers[d].(currentTerm := s.servers[c].currentTerm + 1, role := Follower, votedFor := Some(c))
  {
    assert asked.servers.Keys == s.servers.Keys;
  }

  lemma AtWill(s: State, granted: State, s': State, c: Node, d: Node, roles: map<Node, Role>)
    requires c in s.servers && d in s.servers && c != d
    requires granted.servers.Keys == s.servers.Keys == roles.Keys
    requires granted.servers[c].currentTerm == s.servers[c].currentTerm + 1
    requires granted.servers[d] ==
             s.servers[d].(currentTerm := s.servers[c].currentTerm + 1, role := Follower, votedFor := Some(c))
    requires s'.servers == SecondVote(granted.servers, c, roles)
    ensures VotedAtWill(s, s', c, d, roles)
  {
  }

  lemma Ask(nodes: set<Node>, acts: seq<Action>, c: Node, d: Node) returns (asked: seq<Action>)
    requires IsRun(nodes, acts) && Quiet(nodes, StateAfter(nodes, acts), c) && d in nodes && d != c
    ensures IsRun(nodes, asked) && asked == acts + [ElectionTimeout(c)]
    ensures var s, s' := StateAfter(nodes, acts), StateAfter(nodes, asked);
            && s'.servers == s.servers[c := BecomeCandidate(s.servers[c], c)]
            && Asked(s', c, s.servers[c].currentTerm + 1, d) && AllLinked(s')
  {
    asked := Open(nodes, acts, c);
    assert d in nodes - {c};
  }

  /** From a quiet state: c asks d, and d votes. */
  lemma AskAndGrant(nodes: set<Node>, acts: seq<Action>, c: Node, d: Node) returns (granted: seq<Action>)
    requires IsRun(nodes, acts) && Quiet(nodes, StateAfter(nodes, acts), c) && d in nodes && d != c
    ensures IsRun(nodes, granted) && |granted| == |acts| + 2
    ensures var s, s' := StateAfter(nodes, acts), StateAfter(nodes, granted);
            var term := s.servers[c].currentTerm + 1;
            && SecondVoteReady(s', c, term, d) && s'.servers.Keys == s.servers.Keys
            && s'.servers[d] == s.servers[d].(currentTerm := term, role := Follower, votedFor := Some(c))
            && Vote(d, term, c) in HistoryOf(nodes, granted).votes
  {
    var s := StateAfter(nodes, acts);
    var asked := Ask(nodes, acts, c, d);
    granted := Grant(nodes, asked, c, s.servers[c].currentTerm + 1, d);
    ReadyAfterGrant(s, StateAfter(nodes, asked), StateAfter(nodes, granted), c, d);
  }

  /** With that vote the roles become whatever they may. */
  lemma FirstVote(nodes: set<Node>, acts: seq<Action>, c: Node, d: Node, roles: map<Node, Role>)
    returns (next: seq<Action>)
    requires IsRun(nodes, acts) && Quiet(nodes, StateAfter(nodes, acts), c) && d in nodes && d != c
    requires |nodes| >= 4 && roles.Keys == nodes
    ensures IsRun(nodes, next) && |next| == |acts| + 3
    ensures VotedAtWill(StateAfter(nodes, acts), StateAfter(nodes, next), c, d, roles)
    ensures Vote(d, StateAfter(nodes, acts).servers[c].currentTerm + 1, c) in HistoryOf(nodes, next).votes
  {
    var s := StateAfter(nodes, acts);
    var granted := AskAndGrant(nodes, acts, c, d);
    next := CountLoosely(nodes, granted, c, s.servers[c].currentTerm + 1, d, roles);
    AtWill(s, StateAfter(nodes, granted), StateAfter(nodes, next), c, d, roles);
  }

  // ---- What breaks from four servers on

  /** Three actions of any four or more servers that end with two leaders of term 1. */
  lemma TwoLeaders(nodes: set<Node>, c: Node, d: Node) returns (acts: seq<Action>)
    requires |nodes| >= 4 && c in nodes && d in nodes && c != d
    ensures IsRun(nodes, acts) && |acts| == 3
    ensures var s := StateAfter(nodes, acts);
            && LeaderAt(s, c, 1) && LeaderAt(s, d, 1)
            && d in s.servers && s.servers[d].votedFor == Some(c)
  {
    InitQuiet(nodes, c);
    var all := map n | n in nodes :: Leader;
    assert all.Keys == nodes;
    acts := FirstVote(nodes, [], c, d, all);
  }

  /** The repository's invariant, for the specification as written: it holds in all reachable states exactly of clusters
      of up to three servers, which is what the repository checks. */
  lemma OneLeaderExactly(nodes: set<Node>)
    ensures (forall acts :: IsRun(nodes, acts) ==> OneLeaderPerTerm(StateAfter(nodes, acts))) <==> |nodes| <= 3
  {
    if |nodes| <= 3 {
      forall acts | IsRun(nodes, acts) ensures OneLeaderPerTerm(StateAfter(nodes, acts)) {
        AtMostOneLeaderPerTerm(nodes, acts);
      }
    } else {
      var c, d := TwoMembers(nodes);
      var acts := TwoLeaders(nodes, c, d);
      assert !OneLeaderPerTerm(StateAfter(nodes, acts));
    }
  }

  /** The same for candidates and leaders having voted for themselves. */
  lemma RunnersVoteExactly(nodes: set<Node>)
    ensures (forall acts :: IsRun(nodes, acts) ==> RunnersVotedForThemselves(StateAfter(nodes, acts))) <==> |nodes| <= 3
  {
    if |nodes| <= 3 {
      forall acts | IsRun(nodes, acts) ensures RunnersVotedForThemselves(StateAfter(nodes, acts)) {
        RunnersVote(nodes, acts);
      }
    } else {
      var c, d := TwoMembers(nodes);
      var acts := TwoLeaders(nodes, c, d);
      assert !RunnersVotedForThemselves(StateAfter(nodes, acts));
    }
  }

  /** From the start: a state at rest in which d has counted its own vote, in a term that c has left behind. */
  lemma StaleCount(nodes: set<Node>, c: Node, d: Node) returns (acts: seq<Action>)
    requires c in nodes && d in nodes && c != d
    ensures IsRun(nodes, acts) && Quiet(nodes, StateAfter(nodes, acts), c)
    ensures StateAfter(nodes, acts).servers[d].votesCount == 1
  {
    InitQuiet(nodes, c);
    var isolated := IsolateAll(nodes, [], {}, nodes);
    var deposed := DeposeAll(nodes, isolated, {}, nodes);
    var stood := TimeOutAlone(nodes, deposed, d);
    acts := RaiseAndCure(nodes, stood, c);
  }

  lemma NobodyVotedFor(h: History, d: Node, term: int, c: Node)
    requires VotesOk(h) && Vote(d, term, c) in h.votes && c != d
    ensures Voters(h, term, d) == {}
  {
    assert Vote(d, term, d) !in h.votes;
    forall v | v in h.votes ensures !(v.term == term && v.candidate == d) {}
  }

  /** A run that ends with a candidate whose count is of an old term; nobody voted for it in the term it is in. */
  lemma CountedTooMuch(nodes: set<Node>, c: Node, d: Node) returns (acts: seq<Action>)
    requires |nodes| >= 4 && c in nodes && d in nodes && c != d
    ensures IsRun(nodes, acts) && d in StateAfter(nodes, acts).servers
    ensures Running(StateAfter(nodes, acts).servers[d])
    ensures !CountsVotes(StateAfter(nodes, acts), HistoryOf(nodes, acts), d)
  {
    var stale := StaleCount(nodes, c, d);
    var roles := map n | n in nodes :: Candidate;
    assert roles.Keys == nodes;
    acts := FirstVote(nodes, stale, c, d, roles);
    RunInv(nodes, acts);
    NobodyVotedFor(HistoryOf(nodes, acts), d, StateAfter(nodes, stale).servers[c].currentTerm + 1, c);
  }

  ghost predicate RunnersCountVotes(s: State, h: History) {
    forall n :: n in s.servers && Running(s.servers[n]) ==> CountsVotes(s, h, n)
  }

  /** The same for the counts of candidates and leaders. */
  lemma RunnersCountExactly(nodes: set<Node>)
    ensures (forall acts :: IsRun(nodes, acts) ==>
              RunnersCountVotes(StateAfter(nodes, acts), HistoryOf(nodes, acts))) <==> |nodes| <= 3
  {
    if |nodes| <= 3 {
      forall acts | IsRun(nodes, acts) ensures RunnersCountVotes(StateAfter(nodes, acts), HistoryOf(nodes, acts)) {
        RunShaped(nodes, acts);
        forall n | n in nodes && Running(StateAfter(nodes, acts).servers[n])
          ensures CountsVotes(StateAfter(nodes, acts), HistoryOf(nodes, acts), n)
        {
          VoteAccounting(nodes, acts, n);
        }
      }
    } else {
      var c, d := TwoMembers(nodes);
      var acts := CountedTooMuch(nodes, c, d);
      assert !RunnersCountVotes(StateAfter(nodes, acts), HistoryOf(nodes, acts));
    }
  }

  // ---- A vote that outlives its term

  lemma ElectedFromStart(nodes: set<Node>) returns (acts: seq<Action>, c: Node)
    requires |nodes| >= 2
    ensures IsRun(nodes, acts) && Completed(acts) && c in nodes
    ensures c in StateAfter(nodes, acts).servers && StateAfter(nodes, acts).servers[c].role == Leader
    ensures StateAfter(nodes, acts).servers[c].votedFor == Some(c)
  {
    var term;
    acts, c, term := LeaderReachable.LeaderReachable(nodes, []);
    assert acts[0..] == acts;
    RunShaped(nodes, acts);
    RunnersVote(nodes, acts);
  }

  /** A leader, once cut off and reached by a request of a later term, keeps the vote of the term it led. */
  lemma Deposed(nodes: set<Node>, acts: seq<Action>, c: Node, d: Node) returns (more: seq<Action>)
    requires IsRun(nodes, acts) && Rested(nodes, StateAfter(nodes, acts), d) && c in nodes && c != d
    requires StateAfter(nodes, acts).servers[c].role == Leader && StateAfter(nodes, acts).servers[c].votedFor == Some(c)
    ensures IsRun(nodes, more) && Extension(acts, more) && c in StateAfter(nodes, more).servers
    ensures StateAfter(nodes, more).servers[c].votedFor == Some(c) && SteppedDown(nodes, more, c)
  {
    var s := StateAfter(nodes, acts);
    RunShaped(nodes, acts);
    var asked := Extend(nodes, acts, ElectionTimeout(d));
    TimeOutIs(s, d);
    BatchAsks(nodes, s, d, c);
    var u := StateAfter(nodes, asked);
    assert NetGetMsg(u.net, d, c).Some?;
    assert NetGetMsg(u.net, d, c).value.body == RequestOf(BecomeCandidate(s.servers[d], d));
    more := Extend(nodes, asked, HandleRV(d, c));
    assert more[..|asked|] == asked;
    RequestStep(u, d, c);
    ExtensionTrans(acts, asked, more);
  }

  lemma StaleVote(nodes: set<Node>) returns (acts: seq<Action>, c: Node)
    requires |nodes| >= 2
    ensures IsRun(nodes, acts) && Completed(acts) && c in StateAfter(nodes, acts).servers
    ensures StateAfter(nodes, acts).servers[c].votedFor == Some(c)
    ensures !VotedInTerm(StateAfter(nodes, acts), HistoryOf(nodes, acts), c)
  {
    var elected;
    elected, c := ElectedFromStart(nodes);
    var x, y := TwoMembers(nodes);
    var d := if x == c then y else x;
    var isolated := IsolateAll(nodes, elected, {}, nodes);
    var rested := RaiseAndCure(nodes, isolated, d);
    acts := Deposed(nodes, rested, c, d);
    ExtensionTrans(elected, isolated, rested);
    ExtensionTrans(elected, rested, acts);
    assert acts == elected + acts[|elected|..];
    VotedForExactly(nodes, acts, c);
  }

  ghost predicate VotesInTerm(s: State, h: History) {
    forall n :: n in s.servers && s.servers[n].votedFor.Some? ==> VotedInTerm(s, h, n)
  }

  lemma {:induction false} LoneNeverStepsDown(nodes: set<Node>, acts: seq<Action>, n: Node)
    requires IsRun(nodes, acts) && |nodes| <= 1
    ensures !SteppedDown(nodes, acts, n)
  {
    if acts != [] {
      var a := acts[|acts| - 1];
      LastAction(nodes, acts);
      RunShaped(nodes, acts[..|acts| - 1]);
      LoneNeverStepsDown(nodes, acts[..|acts| - 1], n);
      if a.HandleRV? {
        AtMostOne(nodes, a.src, a.dst);
      }
    }
  }

  /** votedFor is a vote of the current term in all reachable states exactly of a single server. */
  lemma VotesInTermExactly(nodes: set<Node>)
    ensures (forall acts :: IsRun(nodes, acts) ==> VotesInTerm(StateAfter(nodes, acts), HistoryOf(nodes, acts)))
            <==> |nodes| <= 1
  {
    if |nodes| <= 1 {
      forall acts | IsRun(nodes, acts) ensures VotesInTerm(StateAfter(nodes, acts), HistoryOf(nodes, acts)) {
        var s := StateAfter(nodes, acts);
        forall n | n in s.servers && s.servers[n].votedFor.Some? ensures VotedInTerm(s, HistoryOf(nodes, acts), n) {
          LoneNeverStepsDown(nodes, acts, n);
          VotedForExactly(nodes, acts, n);
        }
      }
    } else {
      var acts, c := StaleVote(nodes);
      assert !VotesInTerm(StateAfter(nodes, acts), HistoryOf(nodes, acts));
    }
  }

  // ---- What a partition counts

  lemma NoQueues(nodes: set<Node>, msgs: FifoNetwork.Wires, x: Node, y: Node)
    requires Meshed(nodes, msgs) && |nodes| <= 1
    ensures Queue(msgs, x, y) == []
  {
    if x in nodes && y in nodes {
      AtMostOne(nodes, x, y);
    }
  }

  ghost predicate WireExact(s: State) {
    s.net.man.wire == |Slots(s.net.msgs)|
  }

  lemma {:induction false} LoneWireExact(nodes: set<Node>, acts: seq<Action>)
    requires IsRun(nodes, acts) && |nodes| <= 1
    ensures WireExact(StateAfter(nodes, acts))
  {
    if acts == [] {
      ElectionCounters(nodes, []);
    } else {
      var init, a := acts[..|acts| - 1], acts[|acts| - 1];
      LastAction(nodes, acts);
      LoneWireExact(nodes, init);
      LoneStepExact(nodes, StateAfter(nodes, init), a);
    }
  }

  lemma LoneStepExact(nodes: set<Node>, s: State, a: Action)
    requires NetworkRuns.Inv(nodes, s.net) && s.servers.Keys == nodes && |nodes| <= 1
    requires WireExact(s) && Enabled(s, a) && Step(s, a).Some?
    ensures WireExact(Step(s, a).value)
  {
    match a
    case HandleRV(src, dst) => AtMostOne(nodes, src, dst);
    case HandleRVR(src, dst) => AtMostOne(nodes, src, dst);
    case HandleRVRLoosely(src, dst, _) => AtMostOne(nodes, src, dst);
    case ElectionTimeout(n) =>
      TimeOutIs(s, n);
      TimeOutBatch(s, n);
      assert |s.servers| == |s.servers.Keys|;
    case Partition(n) =>
      forall x, y ensures Queue(s.net.msgs, x, y) == [] {
        NoQueues(nodes, s.net.msgs, x, y);
      }
      NetworkRuns.PartitionCountExact(nodes, s.net, {n});
    case Cure =>
  }

  lemma CutOffMiscounts(nodes: set<Node>, s: State, c: Node, d: Node)
    requires NetworkRuns.Inv(nodes, s.net) && c in nodes && c != d && Queue(s.net.msgs, c, d) != []
    ensures !WireExact(State(s.servers, NetPartConn(s.net, {c}, true)))
  {
    assert Crosses({c}, c, d);
    NetworkRuns.PartitionCountExact(nodes, s.net, {c});
  }

  lemma FirstElection(nodes: set<Node>, c: Node, d: Node) returns (acts: seq<Action>)
    requires c in nodes && d in nodes && c != d
    ensures acts == [ElectionTimeout(c)] && IsRun(nodes, acts)
    ensures Queue(StateAfter(nodes, acts).net.msgs, c, d) != []
  {
    InitQuiet(nodes, c);
    acts := Ask(nodes, [], c, d);
  }

  lemma ThenCutOff(nodes: set<Node>, acts: seq<Action>, c: Node, d: Node) returns (more: seq<Action>)
    requires IsRun(nodes, acts) && c in nodes && c != d && Queue(StateAfter(nodes, acts).net.msgs, c, d) != []
    ensures more == acts + [Partition(c)] && IsRun(nodes, more)
    ensures !WireExact(StateAfter(nodes, more))
  {
    ElectionNetwork(nodes, acts);
    RunShaped(nodes, acts);
    CutOffMiscounts(nodes, StateAfter(nodes, acts), c, d);
    more := Extend(nodes, acts, Partition(c));
  }

  /** An election starts, and the server that started it is cut off: its requests are gone and still counted. */
  lemma Miscounted(nodes: set<Node>, c: Node, d: Node) returns (acts: seq<Action>)
    requires c in nodes && d in nodes && c != d
    ensures acts == [ElectionTimeout(c), Partition(c)]
    ensures IsRun(nodes, acts) && !WireExact(StateAfter(nodes, acts))
  {
    var started := FirstElection(nodes, c, d);
    acts := ThenCutOff(nodes, started, c, d);
  }

  /** n_wire is the number of queued messages in every reachable state exactly of a single server, which sends none. */
  lemma WireExactly(nodes: set<Node>)
    ensures (forall acts :: IsRun(nodes, acts) ==> WireExact(StateAfter(nodes, acts))) <==> |nodes| <= 1
  {
    if |nodes| <= 1 {
      forall acts | IsRun(nodes, acts) ensures WireExact(StateAfter(nodes, acts)) {
        LoneWireExact(nodes, acts);
      }
    } else {
      var c, d := TwoMembers(nodes);
      var acts := Miscounted(nodes, c, d);
      assert !WireExact(StateAfter(nodes, acts));
    }
  }
}
