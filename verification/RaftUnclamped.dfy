/** Storing the follower's whole last index, as novadb/raft.py does: exactly when the stored
    index is true, and calls after which it is not and two nodes apply different commands. */
module RaftUnclamped {
  import opened RaftProtocol
  import opened RaftInvariant
  import opened RaftAppendSteps
  import opened RaftRuns
  import opened RaftSafety
  import opened RaftOperations

  /** The follower holds the leader's whole log and more behind it. */
  predicate HasLongerTail(c: Cluster, l: NodeId, p: NodeId)
    requires l in c.nodes && p in c.nodes
  {
    c.nodes[l].log < c.nodes[p].log
  }

  /** In any reachable state, an accepted append makes the leader record a true match index, one
      up to which the two logs agree, if and only if the follower had no tail beyond the leader's log. */
  lemma AckIsTrueIffNoLongerTail(ids: set<NodeId>, actions: seq<Action>, l: NodeId, p: NodeId)
    requires Runs(AsWritten, Initial(ids), actions)
    requires var c := After(AsWritten, Initial(ids), actions);
             Enabled(c, AppendRpc(l, p)) && AppendAccepted(c, l, p)
    ensures var c := After(AsWritten, Initial(ids), actions);
            var c' := Next(AsWritten, c, AppendRpc(l, p));
            p in c'.nodes[l].matchIndex
            && (!HasLongerTail(c, l, p) <==>
                c'.nodes[l].matchIndex[p] < |c'.nodes[l].log|
                && c'.nodes[l].log[..c'.nodes[l].matchIndex[p] + 1] == c'.nodes[p].log[..c'.nodes[l].matchIndex[p] + 1])
  {
    AckFacts(ids, actions, l, p);
    var c := After(AsWritten, Initial(ids), actions);
    MergedTail(c.nodes[p].log, c.nodes[l].log);
    hide Runs, After, Next, Enabled, AppendAccepted, Merged;
  }

  /** What a merge leaves is within the leader's log unless that was only the first part of the follower's. */
  lemma MergedTail(log: Log, leader: Log)
    ensures var m := Merged(log, leader); !(leader < log) <==> |m| <= |leader| && leader[..|m|] == m[..|m|]
  {
  }

  /** The same tail is what makes the next replication to that follower raise IndexError. */
  lemma NextRoundRaisesIffLongerTail(ids: set<NodeId>, actions: seq<Action>, l: NodeId, p: NodeId)
    requires Runs(AsWritten, Initial(ids), actions)
    requires var c := After(AsWritten, Initial(ids), actions);
             Enabled(c, AppendRpc(l, p)) && AppendAccepted(c, l, p)
    ensures var c := After(AsWritten, Initial(ids), actions);
            ReplicateTo(AsWritten, Next(AsWritten, c, AppendRpc(l, p)), l, p).raised <==> HasLongerTail(c, l, p)
  {
    hide HandleAppend;
    AckFacts(ids, actions, l, p);
    var c := After(AsWritten, Initial(ids), actions);
    var c' := Next(AsWritten, c, AppendRpc(l, p));
    if !HasLongerTail(c, l, p) {
      CaughtUpDoesNotRaise(AsWritten, c', l, p);
    }
  }

  lemma {:induction false} CaughtUpDoesNotRaise(rule: AckRule, c: Cluster, l: NodeId, p: NodeId)
    requires l in c.nodes && p in c.nodes && l != p && NextFor(c.nodes[l], p) <= |c.nodes[l].log|
    ensures !ReplicateTo(rule, c, l, p).raised
    decreases NextFor(c.nodes[l], p)
  {
    hide HandleAppend;
    if c.nodes[l].role == Leader && Connected(c, l, p) {
      var reply := HandleAppend(c.nodes[p], AppendRequestFor(l, c.nodes[l], p)).1;
      if reply.term <= c.nodes[l].term && !reply.success && NextFor(c.nodes[l], p) > 0 {
        CaughtUpDoesNotRaise(rule, DoAppend(rule, c, l, p), l, p);
      }
    }
  }

  /** What the leader and the follower are left with after an accepted append. */
  lemma AckFacts(ids: set<NodeId>, actions: seq<Action>, l: NodeId, p: NodeId)
    requires Runs(AsWritten, Initial(ids), actions)
    requires var c := After(AsWritten, Initial(ids), actions);
             Enabled(c, AppendRpc(l, p)) && AppendAccepted(c, l, p)
    ensures var c := After(AsWritten, Initial(ids), actions);
            var c' := Next(AsWritten, c, AppendRpc(l, p));
            && c'.nodes[p].log == Merged(c.nodes[p].log, c.nodes[l].log) && c'.nodes[l].log == c.nodes[l].log
            && c'.nodes[l].role == Leader
            && p in c'.nodes[l].matchIndex && c'.nodes[l].matchIndex[p] == |c'.nodes[p].log| - 1
            && NextFor(c'.nodes[l], p) == |c'.nodes[p].log|
  {
    hide Inv;
    var c := After(AsWritten, Initial(ids), actions);
    var h := HistoryAfter(AsWritten, Initial(ids), EmptyHistory(), actions);
    RunFromStart(AsWritten, ids, actions);
    InvNode(c, h, l);
    InvNode(c, h, p);
    AcceptedNode(c.nodes[p], AppendRequestFor(l, c.nodes[l], p));
    AcceptedLog(c, h, l, p);
    hide NodeOk, HandleAppend;
  }

  // ---------------------------------------------------------------- a bad run of calls

  /** What callers and the network do to a cluster: elections, proposals and the healing of the network, each with
      its broadcasts, and partitions. */
  datatype Call =
    | Elect(id: NodeId)
    | Ask(id: NodeId, command: Command)
    | Cut(a: NodeId, b: NodeId)
    | HealAll

  /** `ids` is the cluster's node list, from which each node has its peers. */
  ghost predicate MayCall(ids: seq<NodeId>, c: Cluster, call: Call) {
    && Distinct(ids) && (forall p :: p in ids <==> p in c.nodes)
    && (call.Elect? || call.Ask? ==> call.id in c.nodes)
  }

  function CallOnce(ids: seq<NodeId>, c: Cluster, call: Call): (c': Cluster)
    requires MayCall(ids, c, call)
    ensures c'.nodes.Keys == c.nodes.Keys
  {
    match call
    case Elect(id) => StartElection(AsWritten, c, id, Others(ids, id)).cluster
    case Ask(id, command) => ProposeOp(AsWritten, c, id, Others(ids, id), command).0
    case Cut(a, b) => Next(AsWritten, c, Block(a, b))
    case HealAll => HealOp(AsWritten, c, ids).cluster
  }

  ghost predicate CallsRun(ids: seq<NodeId>, c: Cluster, calls: seq<Call>)
    decreases |calls|
  {
    calls == [] || (MayCall(ids, c, calls[0]) && CallsRun(ids, CallOnce(ids, c, calls[0]), calls[1..]))
  }

  function CallAll(ids: seq<NodeId>, c: Cluster, calls: seq<Call>): (c': Cluster)
    requires CallsRun(ids, c, calls)
    ensures c'.nodes.Keys == c.nodes.Keys
    decreases |calls|
  {
    if calls == [] then c else CallAll(ids, CallOnce(ids, c, calls[0]), calls[1..])
  }

  lemma CallIsRun(ids: seq<NodeId>, c: Cluster, call: Call)
    requires MayCall(ids, c, call)
    ensures Reaches(AsWritten, c, CallOnce(ids, c, call))
  {
    hide Reaches, StartElection, ProposeOp, HealOp;
    match call
    case Elect(id) => ElectionIsRun(AsWritten, c, id, Others(ids, id));
    case Ask(id, command) => ProposeIsRun(AsWritten, c, id, Others(ids, id), command);
    case Cut(a, b) => ReachesByStep(AsWritten, c, Block(a, b));
    case HealAll => HealIsRun(AsWritten, c, ids);
  }

  lemma {:induction false} CallsAreRun(ids: seq<NodeId>, c: Cluster, calls: seq<Call>)
    requires CallsRun(ids, c, calls)
    ensures Reaches(AsWritten, c, CallAll(ids, c, calls))
    decreases |calls|
  {
    hide Reaches, CallOnce, MayCall;
    ReachesSelf(AsWritten, c);
    if calls != [] {
      CallIsRun(ids, c, calls[0]);
      CallsAreRun(ids, CallOnce(ids, c, calls[0]), calls[1..]);
      ReachesTransitive(AsWritten, c, CallOnce(ids, c, calls[0]), CallAll(ids, CallOnce(ids, c, calls[0]), calls[1..]));
    }
  }

  /** The calls take `c` to `c'`. */
  ghost predicate Leads(ids: seq<NodeId>, c: Cluster, calls: seq<Call>, c': Cluster) {
    CallsRun(ids, c, calls) && CallAll(ids, c, calls) == c'
  }

  lemma {:induction false} LeadsOneMore(ids: seq<NodeId>, c: Cluster, calls: seq<Call>, c': Cluster, call: Call, c'': Cluster)
    requires Leads(ids, c, calls, c') && MayCall(ids, c', call) && CallOnce(ids, c', call) == c''
    ensures Leads(ids, c, calls + [call], c'')
    decreases |calls|
  {
    hide CallOnce, MayCall;
    if calls == [] {
      assert calls + [call] == [call] && [call][0] == call && [call][1..] == [];
      assert CallsRun(ids, c'', []) && CallAll(ids, c'', []) == c'';
    } else {
      assert (calls + [call])[1..] == calls[1..] + [call];
      LeadsOneMore(ids, CallOnce(ids, c, calls[0]), calls[1..], c', call, c'');
    }
  }

  // Clusters of three.

  function Cluster3(n0: Node, n1: Node, n2: Node, blocked: set<set<NodeId>>, issued: set<VoteRequest>): Cluster {
    Cluster(map[0 := n0, 1 := n1, 2 := n2], blocked, issued)
  }

  lemma Setting(c: Cluster, n0: Node, n1: Node, n2: Node, i: NodeId, n: Node)
    requires c == Cluster3(n0, n1, n2, c.blocked, c.issued) && i < 3
    ensures SetNode(c, i, n) == Cluster3(if i == 0 then n else n0, if i == 1 then n else n1, if i == 2 then n else n2, c.blocked, c.issued)
  {
    assert SetNode(c, i, n).nodes == map[0 := if i == 0 then n else n0, 1 := if i == 1 then n else n1, 2 := if i == 2 then n else n2];
  }

  lemma Sizes()
    ensures |{1, 2}| == 2 && |{0, 2}| == 2 && |{0, 1}| == 2
  {
  }

  lemma Peers()
    ensures {0, 1, 2} - {0} == {1, 2} && {0, 1, 2} - {1} == {0, 2} && |{1, 2}| == 2 && |{0, 2}| == 2 && |{0, 1}| == 2
    ensures forall n0: Node, n1: Node, n2: Node :: (map[0 := n0, 1 := n1, 2 := n2]).Keys == {0, 1, 2}
  {
    assert |{1, 2}| == 2 && |{0, 2}| == 2 && |{0, 1}| == 2;
  }

  /** The node list of the cluster below. */
  function Order(): seq<NodeId> { [1, 2, 0] }

  lemma OrderedPeers()
    ensures Others(Order(), 0) == [1, 2] && Others(Order(), 1) == [2, 0] && Distinct(Order())
    ensures forall p :: p in Order() <==> p in {0, 1, 2}
  {
    assert Order()[1..] == [2, 0] && [2, 0][1..] == [0] && [0][1..] == [];
    assert Others([0], 0) == [] && Others([0], 1) == [0];
    assert Others([2, 0], 0) == [2] && Others([2, 0], 1) == [2, 0];
  }

  lemma InOrder(n0: Node, n1: Node, n2: Node, blocked: set<set<NodeId>>, issued: set<VoteRequest>, call: Call)
    requires call.Elect? || call.Ask? ==> call.id in {0, 1, 2}
    ensures MayCall(Order(), Cluster3(n0, n1, n2, blocked, issued), call)
  {
    OrderedPeers();
    Peers();
  }

  // The parts of an operation.

  lemma Skips(c: Cluster, l: NodeId, p: NodeId)
    requires l in c.nodes && p in c.nodes && l != p && c.nodes[l].role == Leader
    requires NextFor(c.nodes[l], p) <= |c.nodes[l].log| && !Connected(c, l, p)
    ensures ReplicateTo(AsWritten, c, l, p) == Outcome(c, false)
  {
  }

  lemma Sends(c: Cluster, l: NodeId, p: NodeId, follower: Node, reply: AppendReply, leader: Node)
    requires l in c.nodes && p in c.nodes && l != p && c.nodes[l].role == Leader
    requires NextFor(c.nodes[l], p) <= |c.nodes[l].log| && Connected(c, l, p)
    requires HandleAppend(c.nodes[p], AppendRequestFor(l, c.nodes[l], p)) == (follower, reply) && reply.success
    requires ReceiveAppend(AsWritten, c.nodes[l], p, NextFor(c.nodes[l], p), reply) == leader
    ensures ReplicateTo(AsWritten, c, l, p) == Outcome(SetNode(SetNode(c, p, follower), l, leader), false)
  {
    hide HandleAppend, ReceiveAppend, AppendRequestFor;
  }

  lemma BacksUp(c: Cluster, l: NodeId, p: NodeId, follower: Node, reply: AppendReply, leader: Node)
    requires l in c.nodes && p in c.nodes && l != p && c.nodes[l].role == Leader
    requires 0 < NextFor(c.nodes[l], p) <= |c.nodes[l].log| && Connected(c, l, p)
    requires HandleAppend(c.nodes[p], AppendRequestFor(l, c.nodes[l], p)) == (follower, reply) && !reply.success && reply.term <= c.nodes[l].term
    requires ReceiveAppend(AsWritten, c.nodes[l], p, NextFor(c.nodes[l], p), reply) == leader
    ensures ReplicateTo(AsWritten, c, l, p) == ReplicateTo(AsWritten, SetNode(SetNode(c, p, follower), l, leader), l, p)
  {
    hide HandleAppend, ReceiveAppend, AppendRequestFor;
  }

  lemma Round(c: Cluster, l: NodeId, p: NodeId, q: NodeId, c1: Cluster)
    requires l in c.nodes && p in c.nodes && q in c.nodes && p != l && q != l
    requires ReplicateTo(AsWritten, c, l, p) == Outcome(c1, false)
    ensures ReplicateAll(AsWritten, c, l, [p, q]) == ReplicateTo(AsWritten, c1, l, q)
  {
    hide ReplicateTo;
    assert [p, q][1..] == [q] && [q][1..] == [];
    var last := ReplicateTo(AsWritten, c1, l, q);
    assert ReplicateAll(AsWritten, last.cluster, l, []) == Outcome(last.cluster, false);
  }

  // The nodes, phase by phase.

  function Fresh(): Node { Restarted(Disk(0, None, [])) }

  /** A follower with an empty log that has voted for `candidate`. */
  function Voter(term: nat, candidate: NodeId): Node { Restarted(Disk(term, Some(candidate), [])) }

  /** And then heard from it. */
  function Follows(term: nat, candidate: NodeId): Node { Voter(term, candidate).(leaderId := Some(candidate)) }

  function Standing(): Node {
    Fresh().(term := 1, votedFor := Some(0), role := Candidate, votes := {0}, disk := Disk(1, Some(0), []))
  }

  function FirstLeader(): Node {
    Standing().(role := Leader, leaderId := Some(0), votes := {0, 1},
                nextIndex := map[1 := 0, 2 := 0], matchIndex := map[0 := -1, 1 := -1, 2 := -1])
  }

  function Stale(): Log { [LogEntry(1, 10)] }

  function CutOffLeader(): Node {
    FirstLeader().(log := Stale(), matchIndex := map[0 := 0, 1 := -1, 2 := -1], disk := Disk(1, Some(0), Stale()))
  }

  function SecondStanding(): Node {
    Voter(2, 1).(role := Candidate, votes := {1})
  }

  function SecondLeader(): Node {
    SecondStanding().(role := Leader, leaderId := Some(1), votes := {1, 2},
                      nextIndex := map[0 := 0, 2 := 0], matchIndex := map[0 := -1, 1 := -1, 2 := -1])
  }

  function Deposed(): Node {
    CutOffLeader().(term := 2, votedFor := None, role := Follower, leaderId := Some(1), votes := {}, disk := Disk(2, None, Stale()))
  }

  /** Told that node 0 holds index 0, though its own log is empty. */
  function Misled(): Node {
    SecondLeader().(matchIndex := map[0 := 0, 1 := -1, 2 := -1], nextIndex := map[0 := 1, 2 := 0])
  }

  function Proposing(): Node {
    Misled().(log := [LogEntry(2, 20)], matchIndex := map[0 := 0, 1 := 0, 2 := -1], disk := Disk(2, Some(1), [LogEntry(2, 20)]))
  }

  function AppliedAlone(): Node { Proposing().(commit := 0, lastApplied := 0, applied := [20]) }

  function ThirdStanding(): Node {
    Deposed().(term := 3, votedFor := Some(0), role := Candidate, leaderId := None, votes := {0}, disk := Disk(3, Some(0), Stale()))
  }

  function ThirdLeader(): Node {
    ThirdStanding().(role := Leader, leaderId := Some(0), votes := {0, 2},
                     nextIndex := map[1 := 1, 2 := 1], matchIndex := map[0 := 0, 1 := -1, 2 := -1])
  }

  function ThirdSynced(): Node { ThirdLeader().(matchIndex := map[0 := 0, 1 := -1, 2 := 0]) }

  function HoldsStale(): Node { Follows(3, 0).(log := Stale(), disk := Disk(3, Some(0), Stale())) }

  function Longer(): Log { [LogEntry(1, 10), LogEntry(3, 30)] }

  function ThirdProposing(): Node {
    ThirdSynced().(log := Longer(), matchIndex := map[0 := 1, 1 := -1, 2 := 0], disk := Disk(3, Some(0), Longer()))
  }

  function ThirdAcked(): Node {
    ThirdProposing().(nextIndex := map[1 := 1, 2 := 2], matchIndex := map[0 := 1, 1 := -1, 2 := 1])
  }

  function HoldsLonger(): Node { Follows(3, 0).(log := Longer(), disk := Disk(3, Some(0), Longer())) }

  function AppliesLonger(): Node { HoldsLonger().(commit := 1, lastApplied := 1, applied := [10, 30]) }

  function ThirdApplied(): Node { ThirdAcked().(commit := 1, lastApplied := 1, applied := [10, 30]) }

  function First(): VoteRequest { VoteRequest(1, 0, -1, 0) }
  function Second(): VoteRequest { VoteRequest(2, 1, -1, 0) }
  function Third(): VoteRequest { VoteRequest(3, 0, 0, 1) }

  // ---------------------------------------------------------------- the first election

  function Start(): Cluster { Initial({0, 1, 2}) }

  /** Node 0 may reach node 1 alone. */
  function InTerm1(n0: Node, n1: Node): Cluster { Cluster3(n0, n1, Fresh(), {{0, 2}}, {First()}) }

  lemma FirstRequest()
    ensures BeginElection(0, Fresh()) == Standing() && VoteRequestOf(0, Standing()) == First()
    ensures HandleVote(Fresh(), First()) == (Voter(1, 0), VoteReply(1, true))
  {
  }

  lemma FirstWin()
    ensures ReceiveVote(0, {1, 2}, Standing(), 1, VoteReply(1, true)) == FirstLeader()
  {
    Sizes();
    assert {0} + {1} == {0, 1};
  }

  lemma FirstHeard(follower: Node)
    requires follower == Voter(1, 0) || follower == Follows(1, 0)
    ensures AppendRequestFor(0, FirstLeader(), 1) == AppendRequest(1, 0, -1, 0, [], -1)
    ensures HandleAppend(follower, AppendRequest(1, 0, -1, 0, [], -1)) == (Follows(1, 0), AppendReply(1, true, -1))
    ensures ReceiveAppend(AsWritten, FirstLeader(), 1, 0, AppendReply(1, true, -1)) == FirstLeader()
  {
    assert FirstLeader().log[0..] == [] && Merge([], 0, []) == [];
    assert FirstLeader().nextIndex[1 := 0] == FirstLeader().nextIndex;
    assert FirstLeader().matchIndex[1 := -1] == FirstLeader().matchIndex;
  }

  lemma FirstRound(follower: Node)
    requires follower == Voter(1, 0) || follower == Follows(1, 0)
    ensures ReplicateAll(AsWritten, InTerm1(FirstLeader(), follower), 0, [1, 2]) == Outcome(InTerm1(FirstLeader(), Follows(1, 0)), false)
  {
    var c, c1 := InTerm1(FirstLeader(), follower), InTerm1(FirstLeader(), Follows(1, 0));
    assert {0, 1} !in c.blocked by { assert 1 !in {0, 2}; }
    FirstHeard(follower);
    Setting(c, FirstLeader(), follower, Fresh(), 1, Follows(1, 0));
    Setting(SetNode(c, 1, Follows(1, 0)), FirstLeader(), Follows(1, 0), Fresh(), 0, FirstLeader());
    hide HandleAppend, ReceiveAppend, AppendRequestFor;
    Sends(c, 0, 1, Follows(1, 0), AppendReply(1, true, -1), FirstLeader());
    Skips(c1, 0, 2);
    Round(c, 0, 1, 2, c1);
  }

  lemma FirstIdle()
    ensures AdvanceCommit(FirstLeader(), {1, 2}) == FirstLeader() && ApplyCommitted(FirstLeader()) == FirstLeader()
  {
  }

  lemma FirstStays()
    ensures var c := InTerm1(FirstLeader(), Follows(1, 0));
      Next(AsWritten, c, Advance(0)) == c && Next(AsWritten, c, Apply(0)) == c
  {
    FirstIdle();
    Peers();
    var c := InTerm1(FirstLeader(), Follows(1, 0));
    hide AdvanceCommit, ApplyCommitted, FirstLeader, Follows;
    Setting(c, FirstLeader(), Follows(1, 0), Fresh(), 0, FirstLeader());
  }

  lemma FirstBroadcast()
    ensures Broadcast(AsWritten, InTerm1(FirstLeader(), Voter(1, 0)), 0, [1, 2]) == Outcome(InTerm1(FirstLeader(), Follows(1, 0)), false)
  {
    hide ReplicateAll, Next, Broadcast, Voter, Follows;
    FirstRound(Voter(1, 0));
    FirstRound(Follows(1, 0));
    FirstStays();
    var c1 := InTerm1(FirstLeader(), Follows(1, 0));
    Rounds(AsWritten, InTerm1(FirstLeader(), Voter(1, 0)), 0, [1, 2], c1, c1, Outcome(c1, false));
  }

  /** A candidate skips the peers it cannot reach. */
  lemma NoneLeft(c: Cluster, i: NodeId, peers: seq<NodeId>, r: VoteRequest, p: NodeId)
    requires i in c.nodes && r in c.issued && r.candidate == i && p in peers && !Connected(c, i, p)
    requires forall q | q in peers :: q in c.nodes && q != i
    ensures Campaign(AsWritten, c, i, peers, r, [p]) == Outcome(c, false)
  {
    hide Broadcast, DoVote;
    assert [p][1..] == [];
    assert Campaign(AsWritten, c, i, peers, r, []) == Outcome(c, false);
  }

  /** The vote that wins is followed by a broadcast. */
  lemma Wins(c: Cluster, i: NodeId, peers: seq<NodeId>, r: VoteRequest, rest: seq<NodeId>, c1: Cluster, sent: Outcome)
    requires i in c.nodes && r in c.issued && r.candidate == i && rest != [] && Connected(c, i, rest[0])
    requires (forall q | q in peers :: q in c.nodes && q != i) && forall q | q in rest :: q in peers
    requires rest[0] in c.nodes && DoVote(c, r, rest[0]) == c1 && c.nodes[i].role != Leader && c1.nodes[i].role == Leader
    requires Broadcast(AsWritten, c1, i, peers) == sent && (sent.raised || r in sent.cluster.issued)
    ensures Campaign(AsWritten, c, i, peers, r, rest) == if sent.raised then sent else Campaign(AsWritten, sent.cluster, i, peers, r, rest[1..])
  {
    hide Broadcast, DoVote;
  }

  function FirstStart(): Cluster { Cluster3(Fresh(), Fresh(), Fresh(), {{0, 2}}, {}) }

  lemma FirstStands()
    ensures Next(AsWritten, Start(), Block(0, 2)) == FirstStart()
    ensures Next(AsWritten, FirstStart(), Timeout(0)) == InTerm1(Standing(), Fresh())
  {
    assert Start().nodes == map[0 := Fresh(), 1 := Fresh(), 2 := Fresh()];
    assert {} + {{0, 2}} == {{0, 2}} && {} + {First()} == {First()};
    FirstRequest();
    hide BeginElection;
    Setting(FirstStart(), Fresh(), Fresh(), Fresh(), 0, Standing());
  }

  lemma FirstVote()
    ensures DoVote(InTerm1(Standing(), Fresh()), First(), 1) == InTerm1(FirstLeader(), Voter(1, 0))
  {
    FirstRequest();
    FirstWin();
    Peers();
    hide HandleVote, ReceiveVote, BeginElection, Standing, FirstLeader, Voter, Fresh;
    var standing := InTerm1(Standing(), Fresh());
    Setting(standing, Standing(), Fresh(), Fresh(), 1, Voter(1, 0));
    Setting(SetNode(standing, 1, Voter(1, 0)), Standing(), Voter(1, 0), Fresh(), 0, FirstLeader());
  }

  lemma FirstElection()
    ensures MayCall(Order(), FirstStart(), Elect(0))
    ensures StartElection(AsWritten, FirstStart(), 0, [1, 2]) == Outcome(InTerm1(FirstLeader(), Follows(1, 0)), false)
  {
    hide Next, Fresh, Follows, Campaign, Standing, FirstLeader, MayCall;
    InOrder(Fresh(), Fresh(), Fresh(), {{0, 2}}, {}, Elect(0));
    FirstStands();
    FirstRequest();
    FirstCampaign();
  }

  lemma FirstCampaign()
    ensures Campaign(AsWritten, InTerm1(Standing(), Fresh()), 0, [1, 2], First(), [1, 2]) == Outcome(InTerm1(FirstLeader(), Follows(1, 0)), false)
  {
    hide Broadcast, DoVote, Fresh, Voter, Follows, Campaign;
    FirstVote();
    FirstBroadcast();
    assert {0, 1} !in {{0, 2}} by { assert 1 !in {0, 2}; }
    var c := InTerm1(FirstLeader(), Follows(1, 0));
    Wins(InTerm1(Standing(), Fresh()), 0, [1, 2], First(), [1, 2], InTerm1(FirstLeader(), Voter(1, 0)), Outcome(c, false));
    assert [1, 2][1..] == [2];
    NoneLeft(c, 0, [1, 2], First(), 2);
  }

  // ---------------------------------------------------------------- an entry nobody else has

  lemma Alone(c: Cluster, l: NodeId, p: NodeId, q: NodeId)
    requires l in c.nodes && p in c.nodes && q in c.nodes && p != l && q != l && c.nodes[l].role == Leader
    requires !Connected(c, l, p) && !Connected(c, l, q)
    requires NextFor(c.nodes[l], p) <= |c.nodes[l].log| && NextFor(c.nodes[l], q) <= |c.nodes[l].log|
    ensures ReplicateAll(AsWritten, c, l, [p, q]) == Outcome(c, false)
  {
    hide ReplicateTo, ReplicateAll, NextFor, Connected;
    Skips(c, l, p);
    Skips(c, l, q);
    Round(c, l, p, q, c);
  }

  /** Node 0 reaches nobody. */
  function CutOff(n0: Node): Cluster { Cluster3(n0, Follows(1, 0), Fresh(), {{0, 2}, {0, 1}}, {First()}) }

  lemma FirstAppends()
    ensures AppendOwn(0, FirstLeader(), 10) == CutOffLeader()
  {
    assert FirstLeader().matchIndex[0 := 0] == CutOffLeader().matchIndex;
  }

  lemma FirstWaits()
    ensures AdvanceCommit(CutOffLeader(), {1, 2}) == CutOffLeader() && ApplyCommitted(CutOffLeader()) == CutOffLeader()
  {
    assert Holders(CutOffLeader(), {1, 2}, 0) == {};
    Sizes();
    assert !Committable(CutOffLeader(), {1, 2}, 0);
    assert CommitBelow(CutOffLeader(), {1, 2}, 1) == CommitBelow(CutOffLeader(), {1, 2}, 0);
  }

  lemma FirstCutOff()
    ensures Next(AsWritten, InTerm1(FirstLeader(), Follows(1, 0)), Block(0, 1)) == CutOff(FirstLeader())
  {
    hide FirstLeader, Follows, Fresh;
    assert {{0, 2}} + {{0, 1}} == {{0, 2}, {0, 1}};
  }

  lemma SetCutOff(n0: Node, n0': Node)
    ensures SetNode(CutOff(n0), 0, n0') == CutOff(n0')
    ensures 0 in CutOff(n0).nodes && CutOff(n0).nodes.Keys - {0} == {1, 2} && CutOff(n0).nodes[0] == n0
  {
    hide Follows, Fresh;
    Peers();
    Setting(CutOff(n0), n0, Follows(1, 0), Fresh(), 0, n0');
  }

  lemma FirstProposes()
    ensures Enabled(CutOff(FirstLeader()), Propose(0, 10)) && Next(AsWritten, CutOff(FirstLeader()), Propose(0, 10)) == CutOff(CutOffLeader())
    ensures Next(AsWritten, CutOff(CutOffLeader()), Advance(0)) == CutOff(CutOffLeader()) == Next(AsWritten, CutOff(CutOffLeader()), Apply(0))
  {
    FirstAppends();
    FirstWaits();
    hide AppendOwn, AdvanceCommit, ApplyCommitted, CutOffLeader, CutOff;
    SetCutOff(FirstLeader(), CutOffLeader());
    SetCutOff(CutOffLeader(), CutOffLeader());
  }

  lemma FirstAsk()
    ensures MayCall(Order(), CutOff(FirstLeader()), Ask(0, 10))
    ensures ProposeOp(AsWritten, CutOff(FirstLeader()), 0, [1, 2], 10) == (CutOff(CutOffLeader()), Uncommitted)
  {
    hide Next, Broadcast, ReplicateAll, Follows;
    FirstProposes();
    var c := CutOff(CutOffLeader());
    Alone(c, 0, 1, 2);
    Rounds(AsWritten, c, 0, [1, 2], c, c, Outcome(c, false));
  }

  // ---------------------------------------------------------------- the second election

  /** Node 0 takes itself for the leader of term 1; nodes 1 and 2 reach each other. */
  function InTerm2(n0: Node, n1: Node, n2: Node, blocked: set<set<NodeId>>): Cluster {
    Cluster3(n0, n1, n2, blocked, {First(), Second()})
  }

  function Around0(): set<set<NodeId>> { {{0, 2}, {0, 1}} }

  lemma Reach12()
    ensures {1, 2} !in Around0() && {1, 0} in Around0()
  {
    assert 1 !in {0, 2} && 2 !in {0, 1} && {1, 0} == {0, 1};
  }

  lemma SecondRequest()
    ensures BeginElection(1, Follows(1, 0)) == SecondStanding() && VoteRequestOf(1, SecondStanding()) == Second()
    ensures HandleVote(Fresh(), Second()) == (Voter(2, 1), VoteReply(2, true))
  {
  }

  lemma SecondWin()
    ensures ReceiveVote(1, {0, 2}, SecondStanding(), 2, VoteReply(2, true)) == SecondLeader()
  {
    assert |{0, 2}| == 2 && {1} + {2} == {1, 2} && |{1, 2}| == 2;
    assert BecomeLeader(1, {0, 2}, SecondStanding().(votes := {1, 2})) == SecondLeader();
  }

  lemma SecondStands()
    ensures Next(AsWritten, CutOff(CutOffLeader()), Timeout(1)) == InTerm2(CutOffLeader(), SecondStanding(), Fresh(), Around0())
  {
    assert {First()} + {Second()} == {First(), Second()};
    SecondRequest();
    hide BeginElection, CutOffLeader, Follows, Fresh, SecondStanding;
    Setting(CutOff(CutOffLeader()), CutOffLeader(), Follows(1, 0), Fresh(), 1, SecondStanding());
  }

  lemma SecondVote()
    ensures DoVote(InTerm2(CutOffLeader(), SecondStanding(), Fresh(), Around0()), Second(), 2)
      == InTerm2(CutOffLeader(), SecondLeader(), Voter(2, 1), Around0())
  {
    SecondRequest();
    SecondWin();
    Peers();
    hide HandleVote, ReceiveVote, BeginElection, CutOffLeader, SecondStanding, SecondLeader, Voter, Fresh;
    var c := InTerm2(CutOffLeader(), SecondStanding(), Fresh(), Around0());
    Setting(c, CutOffLeader(), SecondStanding(), Fresh(), 2, Voter(2, 1));
    Setting(SetNode(c, 2, Voter(2, 1)), CutOffLeader(), SecondStanding(), Voter(2, 1), 1, SecondLeader());
  }

  /** The empty append is answered with the follower's own last index: none at node 2, 0 at node 0. */
  lemma StaleAnswer()
    ensures AppendRequestFor(1, SecondLeader(), 0) == AppendRequest(2, 1, -1, 0, [], -1)
    ensures HandleAppend(CutOffLeader(), AppendRequest(2, 1, -1, 0, [], -1)) == (Deposed(), AppendReply(2, true, 0))
  {
    assert SecondLeader().log[0..] == [];
    assert Merge(Stale(), 0, []) == Stale();
  }

  lemma StaleAck()
    ensures ReceiveAppend(AsWritten, SecondLeader(), 0, 0, AppendReply(2, true, 0)) == Misled()
  {
    assert SecondLeader().nextIndex[0 := 1] == Misled().nextIndex;
    assert SecondLeader().matchIndex[0 := 0] == Misled().matchIndex;
  }

  lemma SecondHeard(follower: Node, leader: Node)
    requires follower == Voter(2, 1) || follower == Follows(2, 1)
    requires leader == SecondLeader() || leader == Misled()
    ensures AppendRequestFor(1, leader, 2) == AppendRequest(2, 1, -1, 0, [], -1)
    ensures HandleAppend(follower, AppendRequest(2, 1, -1, 0, [], -1)) == (Follows(2, 1), AppendReply(2, true, -1))
    ensures ReceiveAppend(AsWritten, leader, 2, 0, AppendReply(2, true, -1)) == leader
  {
    assert leader.log[0..] == [] && Merge([], 0, []) == [];
    assert leader.nextIndex[2 := 0] == leader.nextIndex;
    assert leader.matchIndex[2 := -1] == leader.matchIndex;
  }

  lemma ToNode2(n0: Node, follower: Node, leader: Node, blocked: set<set<NodeId>>)
    requires follower == Voter(2, 1) || follower == Follows(2, 1)
    requires leader == SecondLeader() || leader == Misled()
    requires {1, 2} !in blocked
    ensures ReplicateTo(AsWritten, InTerm2(n0, leader, follower, blocked), 1, 2) == Outcome(InTerm2(n0, leader, Follows(2, 1), blocked), false)
  {
    var c := InTerm2(n0, leader, follower, blocked);
    SecondHeard(follower, leader);
    hide HandleAppend, ReceiveAppend, AppendRequestFor, Voter, Follows, ReplicateTo;
    Sends(c, 1, 2, Follows(2, 1), AppendReply(2, true, -1), leader);
    hide Misled, SecondLeader;
    Setting(c, n0, leader, follower, 2, Follows(2, 1));
    Setting(SetNode(c, 2, Follows(2, 1)), n0, leader, Follows(2, 1), 1, leader);
  }

  lemma SecondRound(follower: Node)
    requires follower == Voter(2, 1) || follower == Follows(2, 1)
    ensures ReplicateAll(AsWritten, InTerm2(CutOffLeader(), SecondLeader(), follower, Around0()), 1, [2, 0])
      == Outcome(InTerm2(CutOffLeader(), SecondLeader(), Follows(2, 1), Around0()), false)
  {
    hide ReplicateTo, ReplicateAll, Voter, Follows, CutOffLeader, Around0;
    var c1 := InTerm2(CutOffLeader(), SecondLeader(), Follows(2, 1), Around0());
    Reach12();
    ToNode2(CutOffLeader(), follower, SecondLeader(), Around0());
    Round(InTerm2(CutOffLeader(), SecondLeader(), follower, Around0()), 1, 2, 0, c1);
    Skips(c1, 1, 0);
  }

  lemma SecondIdle()
    ensures AdvanceCommit(SecondLeader(), {0, 2}) == SecondLeader() && ApplyCommitted(SecondLeader()) == SecondLeader()
  {
  }

  lemma SecondStays()
    ensures var c := InTerm2(CutOffLeader(), SecondLeader(), Follows(2, 1), Around0());
      Next(AsWritten, c, Advance(1)) == c == Next(AsWritten, c, Apply(1))
  {
    var c := InTerm2(CutOffLeader(), SecondLeader(), Follows(2, 1), Around0());
    SecondIdle();
    Peers();
    hide AdvanceCommit, ApplyCommitted, CutOffLeader, SecondLeader, Follows;
    Setting(c, CutOffLeader(), SecondLeader(), Follows(2, 1), 1, SecondLeader());
  }

  lemma SecondBroadcast()
    ensures Broadcast(AsWritten, InTerm2(CutOffLeader(), SecondLeader(), Voter(2, 1), Around0()), 1, [2, 0])
      == Outcome(InTerm2(CutOffLeader(), SecondLeader(), Follows(2, 1), Around0()), false)
  {
    hide ReplicateAll, Next, Broadcast, Voter, Follows, CutOffLeader;
    SecondRound(Voter(2, 1));
    SecondRound(Follows(2, 1));
    SecondStays();
    var c1 := InTerm2(CutOffLeader(), SecondLeader(), Follows(2, 1), Around0());
    Rounds(AsWritten, InTerm2(CutOffLeader(), SecondLeader(), Voter(2, 1), Around0()), 1, [2, 0], c1, c1, Outcome(c1, false));
  }

  lemma SecondCampaign()
    ensures Campaign(AsWritten, InTerm2(CutOffLeader(), SecondStanding(), Fresh(), Around0()), 1, [2, 0], Second(), [2, 0])
      == Outcome(InTerm2(CutOffLeader(), SecondLeader(), Follows(2, 1), Around0()), false)
  {
    hide Broadcast, DoVote, Fresh, Voter, Follows, Campaign, CutOffLeader, Around0;
    SecondVote();
    SecondBroadcast();
    Reach12();
    var c := InTerm2(CutOffLeader(), SecondLeader(), Follows(2, 1), Around0());
    Wins(InTerm2(CutOffLeader(), SecondStanding(), Fresh(), Around0()), 1, [2, 0], Second(), [2, 0],
         InTerm2(CutOffLeader(), SecondLeader(), Voter(2, 1), Around0()), Outcome(c, false));
    assert [2, 0][1..] == [0];
    NoneLeft(c, 1, [2, 0], Second(), 0);
  }

  /** Out of node 0's reach, node 1 wins with node 2's vote. */
  lemma SecondElection()
    ensures MayCall(Order(), CutOff(CutOffLeader()), Elect(1))
    ensures StartElection(AsWritten, CutOff(CutOffLeader()), 1, [2, 0])
      == Outcome(InTerm2(CutOffLeader(), SecondLeader(), Follows(2, 1), Around0()), false)
  {
    hide Next, Fresh, Follows, Campaign, CutOffLeader, SecondLeader, SecondStanding, MayCall;
    InOrder(CutOffLeader(), Follows(1, 0), Fresh(), {{0, 2}, {0, 1}}, {First()}, Elect(1));
    SecondStands();
    SecondRequest();
    SecondCampaign();
  }

  // ---------------------------------------------------------------- the network heals

  lemma ToNode0()
    ensures ReplicateTo(AsWritten, InTerm2(CutOffLeader(), SecondLeader(), Follows(2, 1), {}), 1, 0)
      == Outcome(InTerm2(Deposed(), Misled(), Follows(2, 1), {}), false)
  {
    var c := InTerm2(CutOffLeader(), SecondLeader(), Follows(2, 1), {});
    StaleAnswer();
    StaleAck();
    hide HandleAppend, ReceiveAppend, AppendRequestFor, Follows, ReplicateTo, CutOffLeader, Deposed, Misled;
    Sends(c, 1, 0, Deposed(), AppendReply(2, true, 0), Misled());
    hide SecondLeader;
    Setting(c, CutOffLeader(), SecondLeader(), Follows(2, 1), 0, Deposed());
    Setting(SetNode(c, 0, Deposed()), Deposed(), SecondLeader(), Follows(2, 1), 1, Misled());
  }

  lemma MisledIdle()
    ensures var c := InTerm2(Deposed(), Misled(), Follows(2, 1), {});
      Next(AsWritten, c, Advance(1)) == c && ReplicateTo(AsWritten, c, 1, 0) == Outcome(c, true)
  {
    var c := InTerm2(Deposed(), Misled(), Follows(2, 1), {});
    Peers();
    Setting(c, Deposed(), Misled(), Follows(2, 1), 1, Misled());
    hide Deposed, Follows;
  }

  /** The second round of node 1's broadcast indexes past its empty log. */
  lemma HealedBroadcast()
    ensures Broadcast(AsWritten, InTerm2(CutOffLeader(), SecondLeader(), Follows(2, 1), {}), 1, [2, 0])
      == Outcome(InTerm2(Deposed(), Misled(), Follows(2, 1), {}), true)
  {
    hide ReplicateTo, ReplicateAll, Next, Broadcast, Follows, CutOffLeader, Deposed;
    var c, c1 := InTerm2(CutOffLeader(), SecondLeader(), Follows(2, 1), {}), InTerm2(Deposed(), Misled(), Follows(2, 1), {});
    ToNode2(CutOffLeader(), Follows(2, 1), SecondLeader(), {});
    ToNode0();
    Round(c, 1, 2, 0, c);
    ToNode2(Deposed(), Follows(2, 1), Misled(), {});
    MisledIdle();
    Round(c1, 1, 2, 0, c1);
    Rounds(AsWritten, c, 1, [2, 0], c1, c1, Outcome(c1, true));
  }

  lemma LeadersInOrder(c: Cluster)
    requires c.nodes.Keys == {0, 1, 2} && c.nodes[1].role == Leader && c.nodes[2].role != Leader && c.nodes[0].role == Leader
    ensures (forall i | i in Order() :: i in c.nodes) && Leaders(c, Order()) == [1, 0]
  {
    assert Order()[1..] == [2, 0] && [2, 0][1..] == [0] && [0][1..] == [];
    assert Leaders(c, []) == [] && Leaders(c, [0]) == [0] && Leaders(c, [2, 0]) == [0];
  }

  lemma TwoLeaders()
    ensures var c := InTerm2(CutOffLeader(), SecondLeader(), Follows(2, 1), Around0());
      && (forall i | i in Order() :: i in c.nodes) && Leaders(c, Order()) == [1, 0]
      && Next(AsWritten, c, Heal) == InTerm2(CutOffLeader(), SecondLeader(), Follows(2, 1), {})
  {
    hide Leaders, Order, Around0;
    Peers();
    LeadersInOrder(InTerm2(CutOffLeader(), SecondLeader(), Follows(2, 1), Around0()));
  }

  /** Both leaders are to broadcast; the first deposes the second, takes its stale acknowledgement and raises. */
  lemma Heals()
    ensures var c := InTerm2(CutOffLeader(), SecondLeader(), Follows(2, 1), Around0());
      && MayCall(Order(), c, HealAll)
      && HealOp(AsWritten, c, Order()) == Outcome(InTerm2(Deposed(), Misled(), Follows(2, 1), {}), true)
  {
    hide Next, Broadcast, Leaders, Others, Order, MayCall, CutOffLeader, SecondLeader, Follows, Deposed, Misled;
    InOrder(CutOffLeader(), SecondLeader(), Follows(2, 1), Around0(), {First(), Second()}, HealAll);
    TwoLeaders();
    OrderedPeers();
    HealedBroadcast();
  }

  // ---------------------------------------------------------------- committed alone

  /** Node 1 reaches nobody. */
  function Isolated(n1: Node): Cluster { Cluster3(Deposed(), n1, Follows(2, 1), {{0, 1}, {1, 2}}, {First(), Second()}) }

  lemma AppendsAlone()
    ensures AppendOwn(1, Misled(), 20) == Proposing()
    ensures ApplyCommitted(Proposing().(commit := 0)) == AppliedAlone()
  {
    assert Misled().matchIndex[1 := 0] == Proposing().matchIndex;
    assert Proposing().log[0..1] == [LogEntry(2, 20)];
  }

  lemma CommitsAlone()
    ensures AdvanceCommit(Proposing(), {0, 2}) == Proposing().(commit := 0)
  {
    Sizes();
    assert Holders(Proposing(), {0, 2}, 0) == {0};
    assert |{0}| == 1;
    assert Committable(Proposing(), {0, 2}, 0);
    assert CommitBelow(Proposing(), {0, 2}, 1) == 0;
  }

  lemma CutsNode1()
    ensures var c := InTerm2(Deposed(), Misled(), Follows(2, 1), {});
      && Next(AsWritten, Next(AsWritten, c, Block(0, 1)), Block(1, 2)) == Isolated(Misled())
      && MayCall(Order(), c, Cut(0, 1)) && MayCall(Order(), Next(AsWritten, c, Block(0, 1)), Cut(1, 2))
  {
    hide Deposed, Misled, Follows, MayCall;
    InOrder(Deposed(), Misled(), Follows(2, 1), {}, {First(), Second()}, Cut(0, 1));
    InOrder(Deposed(), Misled(), Follows(2, 1), {{0, 1}}, {First(), Second()}, Cut(1, 2));
    assert {} + {{0, 1}} == {{0, 1}} && {{0, 1}} + {{1, 2}} == {{0, 1}, {1, 2}};
  }

  lemma SetIsolated(n1: Node, n1': Node)
    ensures SetNode(Isolated(n1), 1, n1') == Isolated(n1')
    ensures 1 in Isolated(n1).nodes && Isolated(n1).nodes.Keys - {1} == {0, 2} && Isolated(n1).nodes[1] == n1
  {
    hide Deposed, Follows;
    Peers();
    Setting(Isolated(n1), Deposed(), n1, Follows(2, 1), 1, n1');
  }

  lemma ProposesAlone()
    ensures Enabled(Isolated(Misled()), Propose(1, 20)) && Next(AsWritten, Isolated(Misled()), Propose(1, 20)) == Isolated(Proposing())
    ensures Next(AsWritten, Isolated(Proposing()), Advance(1)) == Isolated(Proposing().(commit := 0))
    ensures Next(AsWritten, Isolated(Proposing().(commit := 0)), Apply(1)) == Isolated(AppliedAlone())
  {
    AppendsAlone();
    CommitsAlone();
    hide AppendOwn, AdvanceCommit, ApplyCommitted, Proposing, AppliedAlone, Isolated;
    SetIsolated(Misled(), Proposing());
    SetIsolated(Proposing(), Proposing().(commit := 0));
    SetIsolated(Proposing().(commit := 0), AppliedAlone());
  }

  /** On the strength of the stale index, node 1 answers that its entry is committed, though nobody else has it. */
  lemma SecondAsk()
    ensures MayCall(Order(), Isolated(Misled()), Ask(1, 20))
    ensures ProposeOp(AsWritten, Isolated(Misled()), 1, [2, 0], 20) == (Isolated(AppliedAlone()), CommittedAt(0))
  {
    hide Next, Broadcast, ReplicateAll, Follows, Deposed;
    ProposesAlone();
    var c, c2 := Isolated(Proposing()), Isolated(Proposing().(commit := 0));
    assert {2, 1} == {1, 2} && {1, 0} == {0, 1};
    Alone(c, 1, 2, 0);
    Alone(c2, 1, 2, 0);
    Rounds(AsWritten, c, 1, [2, 0], c, c2, Outcome(c2, false));
  }

  // ---------------------------------------------------------------- the third election

  function InTerm3(n0: Node, n2: Node): Cluster {
    Cluster3(n0, AppliedAlone(), n2, {{0, 1}, {1, 2}}, {First(), Second(), Third()})
  }

  lemma MayReach()
    ensures {0, 2} !in {{0, 1}, {1, 2}}
  {
    assert 2 !in {0, 1} && 0 !in {1, 2};
  }

  lemma ThirdRequest()
    ensures BeginElection(0, Deposed()) == ThirdStanding() && VoteRequestOf(0, ThirdStanding()) == Third()
  {
  }

  lemma ThirdWin()
    ensures HandleVote(Follows(2, 1), Third()) == (Voter(3, 0), VoteReply(3, true))
    ensures ReceiveVote(0, {1, 2}, ThirdStanding(), 2, VoteReply(3, true)) == ThirdLeader()
  {
    Sizes();
    assert {0} + {2} == {0, 2};
  }

  lemma ThirdStands()
    ensures Next(AsWritten, Isolated(AppliedAlone()), Timeout(0)) == InTerm3(ThirdStanding(), Follows(2, 1))
  {
    ThirdRequest();
    assert {First(), Second()} + {Third()} == {First(), Second(), Third()};
    hide BeginElection, Deposed, Follows, ThirdStanding, AppliedAlone;
    Setting(Isolated(AppliedAlone()), Deposed(), AppliedAlone(), Follows(2, 1), 0, ThirdStanding());
  }

  lemma ThirdVote()
    ensures DoVote(InTerm3(ThirdStanding(), Follows(2, 1)), Third(), 2) == InTerm3(ThirdLeader(), Voter(3, 0))
  {
    ThirdWin();
    Peers();
    hide HandleVote, ReceiveVote, BeginElection, ThirdStanding, ThirdLeader, Voter, Follows, AppliedAlone;
    var c := InTerm3(ThirdStanding(), Follows(2, 1));
    Setting(c, ThirdStanding(), AppliedAlone(), Follows(2, 1), 2, Voter(3, 0));
    Setting(SetNode(c, 2, Voter(3, 0)), ThirdStanding(), AppliedAlone(), Voter(3, 0), 0, ThirdLeader());
  }

  function ThirdBacking(): Node { ThirdLeader().(nextIndex := map[1 := 1, 2 := 0]) }

  lemma ThirdBacksUp()
    ensures AppendRequestFor(0, ThirdLeader(), 2) == AppendRequest(3, 0, 0, 1, [], -1)
    ensures HandleAppend(Voter(3, 0), AppendRequest(3, 0, 0, 1, [], -1)) == (Follows(3, 0), AppendReply(3, false, -1))
    ensures ReceiveAppend(AsWritten, ThirdLeader(), 2, 1, AppendReply(3, false, -1)) == ThirdBacking()
  {
    assert Stale()[1..] == [];
    assert ThirdLeader().nextIndex[2 := 0] == ThirdBacking().nextIndex;
  }

  lemma MergesStale()
    ensures Merge([], 0, Stale()) == Stale() && Stale()[0..] == Stale()
  {
    assert Stale()[1..] == [];
    assert Merge(Stale(), 1, []) == Stale();
  }

  lemma ThirdSends()
    ensures AppendRequestFor(0, ThirdBacking(), 2) == AppendRequest(3, 0, -1, 0, Stale(), -1)
    ensures HandleAppend(Follows(3, 0), AppendRequest(3, 0, -1, 0, Stale(), -1)) == (HoldsStale(), AppendReply(3, true, 0))
  {
    MergesStale();
    hide Merge;
  }

  lemma ThirdHears()
    ensures ReceiveAppend(AsWritten, ThirdBacking(), 2, 0, AppendReply(3, true, 0)) == ThirdSynced()
  {
    assert ThirdBacking().nextIndex[2 := 1] == ThirdSynced().nextIndex;
    assert ThirdBacking().matchIndex[2 := 0] == ThirdSynced().matchIndex;
  }

  lemma ThirdAgain()
    ensures AppendRequestFor(0, ThirdSynced(), 2) == AppendRequest(3, 0, 0, 1, [], -1)
    ensures HandleAppend(HoldsStale(), AppendRequest(3, 0, 0, 1, [], -1)) == (HoldsStale(), AppendReply(3, true, 0))
  {
    assert Stale()[1..] == [] && Merge(Stale(), 1, []) == Stale();
    hide Merge;
  }

  lemma ThirdHearsAgain()
    ensures ReceiveAppend(AsWritten, ThirdSynced(), 2, 1, AppendReply(3, true, 0)) == ThirdSynced()
  {
    assert ThirdSynced().nextIndex[2 := 1] == ThirdSynced().nextIndex;
    assert ThirdSynced().matchIndex[2 := 0] == ThirdSynced().matchIndex;
  }

  lemma SetBoth(n0: Node, n2: Node, n0': Node, n2': Node)
    ensures SetNode(SetNode(InTerm3(n0, n2), 2, n2'), 0, n0') == InTerm3(n0', n2')
  {
    hide AppliedAlone;
    Setting(InTerm3(n0, n2), n0, AppliedAlone(), n2, 2, n2');
    Setting(SetNode(InTerm3(n0, n2), 2, n2'), n0, AppliedAlone(), n2', 0, n0');
  }

  lemma ThirdFirstRound()
    ensures ReplicateAll(AsWritten, InTerm3(ThirdLeader(), Voter(3, 0)), 0, [1, 2]) == Outcome(InTerm3(ThirdSynced(), HoldsStale()), false)
  {
    hide HandleAppend, ReceiveAppend, AppendRequestFor, ReplicateTo, ReplicateAll, AppliedAlone, Voter, Follows, HoldsStale;
    var c := InTerm3(ThirdLeader(), Voter(3, 0));
    MayReach();
    Skips(c, 0, 1);
    Round(c, 0, 1, 2, c);
    ThirdBacksUp();
    BacksUp(c, 0, 2, Follows(3, 0), AppendReply(3, false, -1), ThirdBacking());
    SetBoth(ThirdLeader(), Voter(3, 0), ThirdBacking(), Follows(3, 0));
    ThirdSends();
    ThirdHears();
    Sends(InTerm3(ThirdBacking(), Follows(3, 0)), 0, 2, HoldsStale(), AppendReply(3, true, 0), ThirdSynced());
    SetBoth(ThirdBacking(), Follows(3, 0), ThirdSynced(), HoldsStale());
  }

  lemma ThirdSecondRound()
    ensures var c := InTerm3(ThirdSynced(), HoldsStale()); ReplicateAll(AsWritten, c, 0, [1, 2]) == Outcome(c, false)
  {
    hide HandleAppend, ReceiveAppend, AppendRequestFor, ReplicateTo, ReplicateAll, AppliedAlone, HoldsStale;
    var c := InTerm3(ThirdSynced(), HoldsStale());
    MayReach();
    Skips(c, 0, 1);
    Round(c, 0, 1, 2, c);
    ThirdAgain();
    ThirdHearsAgain();
    Sends(c, 0, 2, HoldsStale(), AppendReply(3, true, 0), ThirdSynced());
    SetBoth(ThirdSynced(), HoldsStale(), ThirdSynced(), HoldsStale());
  }

  /** An entry of an older term is not committed by counting. */
  lemma ThirdIdle()
    ensures AdvanceCommit(ThirdSynced(), {1, 2}) == ThirdSynced() && ApplyCommitted(ThirdSynced()) == ThirdSynced()
  {
    assert !Committable(ThirdSynced(), {1, 2}, 0);
    assert CommitBelow(ThirdSynced(), {1, 2}, 1) == CommitBelow(ThirdSynced(), {1, 2}, 0);
  }

  lemma SetLeader(n0: Node, n2: Node, n0': Node)
    ensures SetNode(InTerm3(n0, n2), 0, n0') == InTerm3(n0', n2)
    ensures InTerm3(n0, n2).nodes.Keys - {0} == {1, 2} && InTerm3(n0, n2).nodes[0] == n0
  {
    hide AppliedAlone;
    Peers();
    Setting(InTerm3(n0, n2), n0, AppliedAlone(), n2, 0, n0');
  }

  lemma ThirdStays()
    ensures var c := InTerm3(ThirdSynced(), HoldsStale()); Next(AsWritten, c, Advance(0)) == c == Next(AsWritten, c, Apply(0))
  {
    ThirdIdle();
    SetLeader(ThirdSynced(), HoldsStale(), ThirdSynced());
    hide AdvanceCommit, ApplyCommitted, ThirdSynced, HoldsStale, InTerm3;
  }

  lemma ThirdBroadcast()
    ensures Broadcast(AsWritten, InTerm3(ThirdLeader(), Voter(3, 0)), 0, [1, 2]) == Outcome(InTerm3(ThirdSynced(), HoldsStale()), false)
  {
    hide ReplicateAll, Next, Broadcast, Voter, HoldsStale, AppliedAlone;
    ThirdFirstRound();
    ThirdSecondRound();
    ThirdStays();
    var c := InTerm3(ThirdSynced(), HoldsStale());
    Rounds(AsWritten, InTerm3(ThirdLeader(), Voter(3, 0)), 0, [1, 2], c, c, Outcome(c, false));
  }

  lemma SkipsVoter(c: Cluster, i: NodeId, peers: seq<NodeId>, r: VoteRequest, rest: seq<NodeId>)
    requires i in c.nodes && r in c.issued && r.candidate == i && rest != [] && !Connected(c, i, rest[0])
    requires (forall q | q in peers :: q in c.nodes && q != i) && forall q | q in rest :: q in peers
    ensures Campaign(AsWritten, c, i, peers, r, rest) == Campaign(AsWritten, c, i, peers, r, rest[1..])
  {
    hide Broadcast, DoVote;
  }

  lemma ThirdCampaign()
    ensures Campaign(AsWritten, InTerm3(ThirdStanding(), Follows(2, 1)), 0, [1, 2], Third(), [1, 2]) == Outcome(InTerm3(ThirdSynced(), HoldsStale()), false)
  {
    hide Broadcast, DoVote, Voter, Follows, Campaign, AppliedAlone, HoldsStale;
    ThirdVote();
    ThirdBroadcast();
    MayReach();
    var c := InTerm3(ThirdSynced(), HoldsStale());
    assert [1, 2][1..] == [2] && [2][1..] == [];
    SkipsVoter(InTerm3(ThirdStanding(), Follows(2, 1)), 0, [1, 2], Third(), [1, 2]);
    Wins(InTerm3(ThirdStanding(), Follows(2, 1)), 0, [1, 2], Third(), [2], InTerm3(ThirdLeader(), Voter(3, 0)), Outcome(c, false));
    NobodyLeft(c, 0, [1, 2], Third());
  }

  lemma ThirdElection()
    ensures MayCall(Order(), Isolated(AppliedAlone()), Elect(0))
    ensures StartElection(AsWritten, Isolated(AppliedAlone()), 0, [1, 2]) == Outcome(InTerm3(ThirdSynced(), HoldsStale()), false)
  {
    hide Next, Follows, Campaign, AppliedAlone, ThirdSynced, ThirdStanding, HoldsStale, Deposed, MayCall;
    InOrder(Deposed(), AppliedAlone(), Follows(2, 1), {{0, 1}, {1, 2}}, {First(), Second()}, Elect(0));
    ThirdStands();
    ThirdRequest();
    ThirdCampaign();
  }

  lemma NobodyLeft(c: Cluster, i: NodeId, peers: seq<NodeId>, r: VoteRequest)
    requires i in c.nodes && r in c.issued && r.candidate == i && forall q | q in peers :: q in c.nodes && q != i
    ensures Campaign(AsWritten, c, i, peers, r, []) == Outcome(c, false)
  {
  }

  // ---------------------------------------------------------------- committed again

  lemma ThirdAddsOwn()
    ensures AppendOwn(0, ThirdSynced(), 30) == ThirdProposing()
  {
    assert ThirdSynced().matchIndex[0 := 1] == ThirdProposing().matchIndex;
  }

  lemma ThirdAppends()
    ensures AppendRequestFor(0, ThirdProposing(), 2) == AppendRequest(3, 0, 0, 1, [LogEntry(3, 30)], -1)
    ensures ReceiveAppend(AsWritten, ThirdProposing(), 2, 1, AppendReply(3, true, 1)) == ThirdAcked()
  {
    assert Longer()[1..] == [LogEntry(3, 30)];
    assert ThirdProposing().nextIndex[2 := 2] == ThirdAcked().nextIndex;
    assert ThirdProposing().matchIndex[2 := 1] == ThirdAcked().matchIndex;
  }

  lemma HoldsMore()
    ensures HandleAppend(HoldsStale(), AppendRequest(3, 0, 0, 1, [LogEntry(3, 30)], -1)) == (HoldsLonger(), AppendReply(3, true, 1))
  {
    assert [LogEntry(3, 30)][1..] == [];
    assert Stale() + [LogEntry(3, 30)] == Longer();
    assert Merge(Longer(), 2, []) == Longer() && Merge(Stale(), 1, [LogEntry(3, 30)]) == Longer();
  }

  lemma ThirdApplies()
    ensures ApplyCommitted(ThirdAcked().(commit := 1)) == ThirdApplied()
  {
    assert Longer()[0..2] == Longer();
    assert CommandsOf(Longer()) == [10, 30];
  }

  lemma ThirdCommits()
    ensures AdvanceCommit(ThirdAcked(), {1, 2}) == ThirdAcked().(commit := 1)
  {
    Sizes();
    assert Holders(ThirdAcked(), {1, 2}, 1) == {2};
    assert |{2}| == 1;
    assert Committable(ThirdAcked(), {1, 2}, 1);
    assert CommitBelow(ThirdAcked(), {1, 2}, 2) == 1;
  }

  lemma AppliesBoth()
    ensures ApplyCommitted(HoldsLonger().(commit := 1)) == AppliesLonger()
    ensures Longer()[2..] == [] && Merge(Longer(), 2, []) == Longer()
  {
    assert Longer()[0..2] == Longer() && CommandsOf(Longer()) == [10, 30];
  }

  lemma ThirdTells()
    ensures AppendRequestFor(0, ThirdAcked().(commit := 1), 2) == AppendRequest(3, 0, 1, 3, [], 1)
    ensures HandleAppend(HoldsLonger(), AppendRequest(3, 0, 1, 3, [], 1)) == (AppliesLonger(), AppendReply(3, true, 1))
  {
    AppliesBoth();
    hide Merge, ApplyCommitted;
  }

  lemma ThirdToldBack()
    ensures var leader := ThirdAcked().(commit := 1); ReceiveAppend(AsWritten, leader, 2, 2, AppendReply(3, true, 1)) == leader
  {
    var leader := ThirdAcked().(commit := 1);
    assert leader.nextIndex[2 := 2] == leader.nextIndex;
    assert leader.matchIndex[2 := 1] == leader.matchIndex;
  }

  lemma LastFirstRound()
    ensures ReplicateAll(AsWritten, InTerm3(ThirdProposing(), HoldsStale()), 0, [1, 2]) == Outcome(InTerm3(ThirdAcked(), HoldsLonger()), false)
  {
    hide HandleAppend, ReceiveAppend, AppendRequestFor, ReplicateTo, ReplicateAll, AppliedAlone, HoldsStale, HoldsLonger;
    var c := InTerm3(ThirdProposing(), HoldsStale());
    MayReach();
    Skips(c, 0, 1);
    Round(c, 0, 1, 2, c);
    ThirdAppends();
    HoldsMore();
    Sends(c, 0, 2, HoldsLonger(), AppendReply(3, true, 1), ThirdAcked());
    SetBoth(ThirdProposing(), HoldsStale(), ThirdAcked(), HoldsLonger());
  }

  lemma LastSecondRound()
    ensures var leader := ThirdAcked().(commit := 1);
      ReplicateAll(AsWritten, InTerm3(leader, HoldsLonger()), 0, [1, 2]) == Outcome(InTerm3(leader, AppliesLonger()), false)
  {
    hide HandleAppend, ReceiveAppend, AppendRequestFor, ReplicateTo, ReplicateAll, AppliedAlone, HoldsLonger, AppliesLonger;
    var leader := ThirdAcked().(commit := 1);
    var c := InTerm3(leader, HoldsLonger());
    MayReach();
    Skips(c, 0, 1);
    Round(c, 0, 1, 2, c);
    ThirdTells();
    ThirdToldBack();
    Sends(c, 0, 2, AppliesLonger(), AppendReply(3, true, 1), leader);
    SetBoth(leader, HoldsLonger(), leader, AppliesLonger());
  }

  lemma LastProposes()
    ensures Enabled(InTerm3(ThirdSynced(), HoldsStale()), Propose(0, 30))
    ensures Next(AsWritten, InTerm3(ThirdSynced(), HoldsStale()), Propose(0, 30)) == InTerm3(ThirdProposing(), HoldsStale())
  {
    ThirdAddsOwn();
    hide AppendOwn, HoldsStale, AppliedAlone, ThirdProposing;
    SetLeader(ThirdSynced(), HoldsStale(), ThirdProposing());
  }

  lemma LastAdvances()
    ensures Next(AsWritten, InTerm3(ThirdAcked(), HoldsLonger()), Advance(0)) == InTerm3(ThirdAcked().(commit := 1), HoldsLonger())
  {
    ThirdCommits();
    hide AdvanceCommit, HoldsLonger, AppliedAlone;
    SetLeader(ThirdAcked(), HoldsLonger(), ThirdAcked().(commit := 1));
  }

  lemma LastApplies()
    ensures Next(AsWritten, InTerm3(ThirdAcked().(commit := 1), AppliesLonger()), Apply(0)) == InTerm3(ThirdApplied(), AppliesLonger())
  {
    ThirdApplies();
    hide ApplyCommitted, AppliesLonger, AppliedAlone;
    SetLeader(ThirdAcked().(commit := 1), AppliesLonger(), ThirdApplied());
  }

  lemma ThirdAsk()
    ensures MayCall(Order(), InTerm3(ThirdSynced(), HoldsStale()), Ask(0, 30))
    ensures ProposeOp(AsWritten, InTerm3(ThirdSynced(), HoldsStale()), 0, [1, 2], 30)
      == (InTerm3(ThirdApplied(), AppliesLonger()), CommittedAt(1))
  {
    hide Next, Broadcast, ReplicateAll, HoldsStale, HoldsLonger, AppliesLonger, AppliedAlone;
    LastProposes();
    LastAdvances();
    LastApplies();
    LastFirstRound();
    LastSecondRound();
    Rounds(AsWritten, InTerm3(ThirdProposing(), HoldsStale()), 0, [1, 2], InTerm3(ThirdAcked(), HoldsLonger()),
           InTerm3(ThirdAcked().(commit := 1), HoldsLonger()), Outcome(InTerm3(ThirdAcked().(commit := 1), AppliesLonger()), false));
  }

  // ---------------------------------------------------------------- the whole run

  lemma More(calls: seq<Call>, c: Cluster, call: Call, c': Cluster) returns (longer: seq<Call>)
    requires Leads(Order(), Start(), calls, c) && MayCall(Order(), c, call) && CallOnce(Order(), c, call) == c'
    ensures longer == calls + [call] && Leads(Order(), Start(), longer, c')
  {
    LeadsOneMore(Order(), Start(), calls, c, call, c');
    longer := calls + [call];
  }

  /** As written, a cluster of three that sees elections, proposals, partitions and their healing alone, each call to
      its end, can reach a state in which nodes 0 and 1 have applied different first commands. */
  lemma UnclampedAckBreaksSafety() returns (ids: seq<NodeId>, calls: seq<Call>)
    ensures CallsRun(ids, Initial({0, 1, 2}), calls)
    ensures var c := CallAll(ids, Initial({0, 1, 2}), calls);
      && c.nodes.Keys == {0, 1, 2} && Reaches(AsWritten, Initial({0, 1, 2}), c)
      && !(c.nodes[0].applied <= c.nodes[1].applied) && !(c.nodes[1].applied <= c.nodes[0].applied)
  {
    hide StartElection, ProposeOp, HealOp, Next, Leads, Cluster3, Order;
    ids := Order();
    calls := FirstPart();
    calls := SecondPart(calls);
    calls := ThirdPart(calls);
    EndDisagrees();
    Led(calls, InTerm3(ThirdApplied(), AppliesLonger()));
    CallsAreRun(ids, Start(), calls);
  }

  lemma FirstPart() returns (calls: seq<Call>)
    ensures Leads(Order(), Start(), calls, CutOff(CutOffLeader()))
  {
    hide StartElection, ProposeOp, Next, Leads, Cluster3, Order, MayCall, Others, FirstLeader, CutOffLeader, Follows;
    NoCalls();
    OrderedPeers();
    FirstStands();
    calls := More([], Start(), Cut(0, 2), FirstStart());
    FirstElection();
    calls := More(calls, FirstStart(), Elect(0), InTerm1(FirstLeader(), Follows(1, 0)));
    FirstCutOff();
    calls := More(calls, InTerm1(FirstLeader(), Follows(1, 0)), Cut(0, 1), CutOff(FirstLeader()));
    FirstAsk();
    calls := More(calls, CutOff(FirstLeader()), Ask(0, 10), CutOff(CutOffLeader()));
  }

  lemma SecondPart(calls0: seq<Call>) returns (calls: seq<Call>)
    requires Leads(Order(), Start(), calls0, CutOff(CutOffLeader()))
    ensures Leads(Order(), Start(), calls, Isolated(Misled()))
  {
    hide StartElection, ProposeOp, HealOp, Next, Leads, Cluster3, Order, MayCall, Others, CutOffLeader, SecondLeader, Misled, Deposed, Follows, Around0;
    OrderedPeers();
    SecondElection();
    var c, c' := InTerm2(CutOffLeader(), SecondLeader(), Follows(2, 1), Around0()), InTerm2(Deposed(), Misled(), Follows(2, 1), {});
    calls := More(calls0, CutOff(CutOffLeader()), Elect(1), c);
    Heals();
    calls := More(calls, c, HealAll, c');
    CutsNode1();
    calls := More(calls, c', Cut(0, 1), Next(AsWritten, c', Block(0, 1)));
    calls := More(calls, Next(AsWritten, c', Block(0, 1)), Cut(1, 2), Isolated(Misled()));
  }

  lemma ThirdPart(calls0: seq<Call>) returns (calls: seq<Call>)
    requires Leads(Order(), Start(), calls0, Isolated(Misled()))
    ensures Leads(Order(), Start(), calls, InTerm3(ThirdApplied(), AppliesLonger()))
  {
    hide StartElection, ProposeOp, Next, Leads, Cluster3, Order, MayCall, Others;
    OrderedPeers();
    SecondAsk();
    calls := More(calls0, Isolated(Misled()), Ask(1, 20), Isolated(AppliedAlone()));
    ThirdElection();
    calls := More(calls, Isolated(AppliedAlone()), Elect(0), InTerm3(ThirdSynced(), HoldsStale()));
    ThirdAsk();
    calls := More(calls, InTerm3(ThirdSynced(), HoldsStale()), Ask(0, 30), InTerm3(ThirdApplied(), AppliesLonger()));
  }

  lemma NoCalls()
    ensures Leads(Order(), Start(), [], Start())
  {
  }

  lemma Led(calls: seq<Call>, c: Cluster)
    requires Leads(Order(), Start(), calls, c)
    ensures CallsRun(Order(), Start(), calls) && CallAll(Order(), Start(), calls) == c
  {
  }

  lemma EndDisagrees()
    ensures var c := InTerm3(ThirdApplied(), AppliesLonger());
      && c.nodes.Keys == {0, 1, 2} && c.nodes[0].applied == [10, 30] && c.nodes[1].applied == [20]
      && !([10, 30] <= [20]) && !([20] <= [10, 30])
  {
    assert [20][0] != [10, 30][0];
  }
}
