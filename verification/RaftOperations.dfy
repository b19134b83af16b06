/** The operations a caller starts (elections, replication, broadcast, proposals), each a
    sequence of steps; replication converges, and a proposal commits exactly when a majority is reachable. */
module RaftOperations {
  import opened RaftProtocol
  import opened RaftInvariant
  import opened RaftSteps
  import opened RaftAppendSteps
  import opened RaftRuns
  import opened RaftSafety

  /** The cluster after an operation; `raised` if it ended with an IndexError. */
  datatype Outcome = Outcome(cluster: Cluster, raised: bool)

  /** replicate_to: send, and on a refusal back up one entry and send again. */
  function ReplicateTo(rule: AckRule, c: Cluster, l: NodeId, p: NodeId): (r: Outcome)
    requires l in c.nodes && p in c.nodes && l != p
    ensures r.cluster.nodes.Keys == c.nodes.Keys
    decreases NextFor(c.nodes[l], p)
  {
    var n := c.nodes[l];
    var next := NextFor(n, p);
    if n.role != Leader then Outcome(c, false)
    else if next > |n.log| then Outcome(c, true)
    else if !Connected(c, l, p) then Outcome(c, false)
    else
      var reply := HandleAppend(c.nodes[p], AppendRequestFor(l, n, p)).1;
      var c' := DoAppend(rule, c, l, p);
      if reply.term <= n.term && !reply.success && next > 0
      then ReplicateTo(rule, c', l, p)
      else Outcome(c', false)
  }

  function ReplicateAll(rule: AckRule, c: Cluster, l: NodeId, peers: seq<NodeId>): (r: Outcome)
    requires l in c.nodes && forall p | p in peers :: p in c.nodes && p != l
    ensures r.cluster.nodes.Keys == c.nodes.Keys
    decreases |peers|
  {
    if peers == [] then Outcome(c, false)
    else
      var one := ReplicateTo(rule, c, l, peers[0]);
      if one.raised then one else ReplicateAll(rule, one.cluster, l, peers[1..])
  }

  /** broadcast_append_entries: replicate, advance the commit index, send it in a second round, apply. */
  function Broadcast(rule: AckRule, c: Cluster, l: NodeId, peers: seq<NodeId>): (r: Outcome)
    requires l in c.nodes && forall p | p in peers :: p in c.nodes && p != l
    ensures r.cluster.nodes.Keys == c.nodes.Keys
  {
    if c.nodes[l].role != Leader then Outcome(c, false)
    else
      var round := ReplicateAll(rule, c, l, peers);
      if round.raised then round
      else
        var advanced := Next(rule, round.cluster, Advance(l));
        var again := ReplicateAll(rule, advanced, l, peers);
        if again.raised then again else Outcome(Next(rule, again.cluster, Apply(l)), false)
  }

  /** The parts of a broadcast, given what each comes to. */
  lemma Rounds(rule: AckRule, c: Cluster, l: NodeId, peers: seq<NodeId>, c1: Cluster, c2: Cluster, again: Outcome)
    requires l in c.nodes && c.nodes[l].role == Leader && forall p | p in peers :: p in c.nodes && p != l
    requires ReplicateAll(rule, c, l, peers) == Outcome(c1, false) && Next(rule, c1, Advance(l)) == c2
    requires ReplicateAll(rule, c2, l, peers) == again
    ensures Broadcast(rule, c, l, peers) == if again.raised then again else Outcome(Next(rule, again.cluster, Apply(l)), false)
  {
    hide ReplicateAll, Next;
  }

  datatype Proposal = NotLeader(leaderId: Option<NodeId>) | Uncommitted | Raised | CommittedAt(index: Index)

  /** propose: append, broadcast, and report the position only once it is committed. */
  function ProposeOp(rule: AckRule, c: Cluster, l: NodeId, peers: seq<NodeId>, command: Command): (r: (Cluster, Proposal))
    requires l in c.nodes && forall p | p in peers :: p in c.nodes && p != l
    ensures r.0.nodes.Keys == c.nodes.Keys
  {
    if c.nodes[l].role != Leader then (c, NotLeader(c.nodes[l].leaderId))
    else
      var sent := Broadcast(rule, Next(rule, c, Propose(l, command)), l, peers);
      var n := sent.cluster.nodes[l];
      if sent.raised then (sent.cluster, Raised)
      else if n.commit < |n.log| - 1 then (sent.cluster, Uncommitted)
      else (sent.cluster, CommittedAt(|n.log| - 1))
  }

  /** The loop of start_election: deliver `r` to each peer; winning broadcasts at once. */
  function Campaign(rule: AckRule, c: Cluster, i: NodeId, peers: seq<NodeId>, r: VoteRequest, rest: seq<NodeId>): (o: Outcome)
    requires i in c.nodes && r in c.issued && r.candidate == i
    requires (forall p | p in peers :: p in c.nodes && p != i) && forall p | p in rest :: p in peers
    ensures o.cluster.nodes.Keys == c.nodes.Keys
    decreases |rest|
  {
    if rest == [] then Outcome(c, false)
    else if !Connected(c, i, rest[0]) then Campaign(rule, c, i, peers, r, rest[1..])
    else
      var c' := DoVote(c, r, rest[0]);
      var won := if c.nodes[i].role != Leader && c'.nodes[i].role == Leader then Broadcast(rule, c', i, peers) else Outcome(c', false);
      if won.raised then won
      else
        BroadcastKeepsIssued(rule, c', i, peers);
        Campaign(rule, won.cluster, i, peers, r, rest[1..])
  }

  function StartElection(rule: AckRule, c: Cluster, i: NodeId, peers: seq<NodeId>): (o: Outcome)
    requires i in c.nodes && forall p | p in peers :: p in c.nodes && p != i
    ensures o.cluster.nodes.Keys == c.nodes.Keys
  {
    var c' := Next(rule, c, Timeout(i));
    Campaign(rule, c', i, peers, VoteRequestOf(i, c'.nodes[i]), peers)
  }

  /** A node's peers: the other nodes, in the cluster's order. */
  function Others(ids: seq<NodeId>, i: NodeId): (peers: seq<NodeId>)
    ensures forall p :: p in peers <==> p in ids && p != i
  {
    if ids == [] then [] else (if ids[0] == i then [] else [ids[0]]) + Others(ids[1..], i)
  }

  /** leaders: the nodes that take themselves for leaders, in the cluster's order. */
  function Leaders(c: Cluster, ids: seq<NodeId>): (leaders: seq<NodeId>)
    requires forall i | i in ids :: i in c.nodes
    ensures forall i :: i in leaders <==> i in ids && c.nodes[i].role == Leader
  {
    if ids == [] then [] else (if c.nodes[ids[0]].role == Leader then [ids[0]] else []) + Leaders(c, ids[1..])
  }

  function BroadcastEach(rule: AckRule, c: Cluster, ids: seq<NodeId>, leaders: seq<NodeId>): (r: Outcome)
    requires (forall i | i in ids :: i in c.nodes) && forall i | i in leaders :: i in c.nodes
    ensures r.cluster.nodes.Keys == c.nodes.Keys
    decreases |leaders|
  {
    if leaders == [] then Outcome(c, false)
    else
      var one := Broadcast(rule, c, leaders[0], Others(ids, leaders[0]));
      if one.raised then one else BroadcastEach(rule, one.cluster, ids, leaders[1..])
  }

  /** heal: every link works again, and every leader broadcasts, until one raises. */
  function HealOp(rule: AckRule, c: Cluster, ids: seq<NodeId>): (r: Outcome)
    requires forall i | i in ids :: i in c.nodes
    ensures r.cluster.nodes.Keys == c.nodes.Keys
  {
    BroadcastEach(rule, Next(rule, c, Heal), ids, Leaders(c, ids))
  }

  // ---------------------------------------------------------------- every operation is a run

  lemma {:induction false} ReplicateKeepsIssued(rule: AckRule, c: Cluster, l: NodeId, p: NodeId)
    requires l in c.nodes && p in c.nodes && l != p
    ensures var c' := ReplicateTo(rule, c, l, p).cluster; c'.issued == c.issued && c'.blocked == c.blocked
    decreases NextFor(c.nodes[l], p)
  {
    var n := c.nodes[l];
    var next := NextFor(n, p);
    if n.role == Leader && next <= |n.log| && Connected(c, l, p) {
      var reply := HandleAppend(c.nodes[p], AppendRequestFor(l, n, p)).1;
      if reply.term <= n.term && !reply.success && next > 0 {
        ReplicateKeepsIssued(rule, DoAppend(rule, c, l, p), l, p);
      }
    }
  }

  lemma {:induction false} ReplicateAllKeepsIssued(rule: AckRule, c: Cluster, l: NodeId, peers: seq<NodeId>)
    requires l in c.nodes && forall p | p in peers :: p in c.nodes && p != l
    ensures var c' := ReplicateAll(rule, c, l, peers).cluster; c'.issued == c.issued && c'.blocked == c.blocked
    decreases |peers|
  {
    if peers != [] {
      ReplicateKeepsIssued(rule, c, l, peers[0]);
      if !ReplicateTo(rule, c, l, peers[0]).raised {
        ReplicateAllKeepsIssued(rule, ReplicateTo(rule, c, l, peers[0]).cluster, l, peers[1..]);
      }
    }
  }

  lemma BroadcastKeepsIssued(rule: AckRule, c: Cluster, l: NodeId, peers: seq<NodeId>)
    requires l in c.nodes && forall p | p in peers :: p in c.nodes && p != l
    ensures var c' := Broadcast(rule, c, l, peers).cluster; c'.issued == c.issued && c'.blocked == c.blocked
  {
    if c.nodes[l].role == Leader {
      ReplicateAllKeepsIssued(rule, c, l, peers);
      var round := ReplicateAll(rule, c, l, peers);
      if !round.raised {
        ReplicateAllKeepsIssued(rule, Next(rule, round.cluster, Advance(l)), l, peers);
      }
    }
  }

  lemma {:induction false} ReplicateIsRun(rule: AckRule, c: Cluster, l: NodeId, p: NodeId)
    requires l in c.nodes && p in c.nodes && l != p
    ensures Reaches(rule, c, ReplicateTo(rule, c, l, p).cluster)
    decreases NextFor(c.nodes[l], p)
  {
    hide Reaches;
    var n := c.nodes[l];
    var next := NextFor(n, p);
    ReachesSelf(rule, c);
    if n.role == Leader && next <= |n.log| && Connected(c, l, p) {
      var c' := DoAppend(rule, c, l, p);
      ReachesByStep(rule, c, AppendRpc(l, p));
      var reply := HandleAppend(c.nodes[p], AppendRequestFor(l, n, p)).1;
      if reply.term <= n.term && !reply.success && next > 0 {
        ReplicateIsRun(rule, c', l, p);
        ReachesTransitive(rule, c, c', ReplicateTo(rule, c', l, p).cluster);
      }
    }
  }

  lemma {:induction false} ReplicateAllIsRun(rule: AckRule, c: Cluster, l: NodeId, peers: seq<NodeId>)
    requires l in c.nodes && forall p | p in peers :: p in c.nodes && p != l
    ensures Reaches(rule, c, ReplicateAll(rule, c, l, peers).cluster)
    decreases |peers|
  {
    hide Reaches, ReplicateTo;
    ReachesSelf(rule, c);
    if peers != [] {
      ReplicateIsRun(rule, c, l, peers[0]);
      var one := ReplicateTo(rule, c, l, peers[0]);
      if !one.raised {
        ReplicateAllIsRun(rule, one.cluster, l, peers[1..]);
        ReachesTransitive(rule, c, one.cluster, ReplicateAll(rule, one.cluster, l, peers[1..]).cluster);
      }
    }
  }

  lemma BroadcastIsRun(rule: AckRule, c: Cluster, l: NodeId, peers: seq<NodeId>)
    requires l in c.nodes && forall p | p in peers :: p in c.nodes && p != l
    ensures Reaches(rule, c, Broadcast(rule, c, l, peers).cluster)
  {
    hide Reaches, ReplicateAll, Next;
    ReachesSelf(rule, c);
    if c.nodes[l].role == Leader {
      ReplicateAllIsRun(rule, c, l, peers);
      var round := ReplicateAll(rule, c, l, peers);
      if !round.raised {
        var advanced := Next(rule, round.cluster, Advance(l));
        ReachesByStep(rule, round.cluster, Advance(l));
        ReachesTransitive(rule, c, round.cluster, advanced);
        ReplicateAllIsRun(rule, advanced, l, peers);
        var again := ReplicateAll(rule, advanced, l, peers);
        ReachesTransitive(rule, c, advanced, again.cluster);
        if !again.raised {
          ReachesByStep(rule, again.cluster, Apply(l));
          ReachesTransitive(rule, c, again.cluster, Next(rule, again.cluster, Apply(l)));
        }
      }
    }
  }

  /** A proposal is a run of steps, so everything proved of runs holds across it. */
  lemma ProposeIsRun(rule: AckRule, c: Cluster, l: NodeId, peers: seq<NodeId>, command: Command)
    requires l in c.nodes && forall p | p in peers :: p in c.nodes && p != l
    ensures Reaches(rule, c, ProposeOp(rule, c, l, peers, command).0)
  {
    hide Reaches, Broadcast;
    ReachesSelf(rule, c);
    if c.nodes[l].role == Leader {
      var c' := Next(rule, c, Propose(l, command));
      ReachesByStep(rule, c, Propose(l, command));
      BroadcastIsRun(rule, c', l, peers);
      ReachesTransitive(rule, c, c', Broadcast(rule, c', l, peers).cluster);
    }
  }

  lemma {:induction false} CampaignIsRun(rule: AckRule, c: Cluster, i: NodeId, peers: seq<NodeId>, r: VoteRequest, rest: seq<NodeId>)
    requires i in c.nodes && r in c.issued && r.candidate == i
    requires (forall p | p in peers :: p in c.nodes && p != i) && forall p | p in rest :: p in peers
    ensures Reaches(rule, c, Campaign(rule, c, i, peers, r, rest).cluster)
    decreases |rest|
  {
    hide Reaches, Broadcast, HandleVote, ReceiveVote;
    ReachesSelf(rule, c);
    if rest != [] {
      if !Connected(c, i, rest[0]) {
        CampaignIsRun(rule, c, i, peers, r, rest[1..]);
      } else {
        assert rest[0] in peers;
        var c' := DoVote(c, r, rest[0]);
        ReachesByStep(rule, c, VoteRpc(r, rest[0]));
        assert c' == Next(rule, c, VoteRpc(r, rest[0]));
        BroadcastIsRun(rule, c', i, peers);
        ReachesTransitive(rule, c, c', Broadcast(rule, c', i, peers).cluster);
        BroadcastKeepsIssued(rule, c', i, peers);
        var won := if c.nodes[i].role != Leader && c'.nodes[i].role == Leader then Broadcast(rule, c', i, peers) else Outcome(c', false);
        if !won.raised {
          CampaignIsRun(rule, won.cluster, i, peers, r, rest[1..]);
          ReachesTransitive(rule, c, won.cluster, Campaign(rule, won.cluster, i, peers, r, rest[1..]).cluster);
        }
      }
    }
  }

  /** So is an election. */
  lemma ElectionIsRun(rule: AckRule, c: Cluster, i: NodeId, peers: seq<NodeId>)
    requires i in c.nodes && forall p | p in peers :: p in c.nodes && p != i
    ensures Reaches(rule, c, StartElection(rule, c, i, peers).cluster)
  {
    hide Reaches, Campaign;
    var c' := Next(rule, c, Timeout(i));
    var r := VoteRequestOf(i, c'.nodes[i]);
    ReachesByStep(rule, c, Timeout(i));
    CampaignIsRun(rule, c', i, peers, r, peers);
    ReachesTransitive(rule, c, c', Campaign(rule, c', i, peers, r, peers).cluster);
  }

  lemma {:induction false} BroadcastsAreRun(rule: AckRule, c: Cluster, ids: seq<NodeId>, leaders: seq<NodeId>)
    requires (forall i | i in ids :: i in c.nodes) && forall i | i in leaders :: i in c.nodes
    ensures Reaches(rule, c, BroadcastEach(rule, c, ids, leaders).cluster)
    decreases |leaders|
  {
    hide Reaches, Broadcast, Others;
    ReachesSelf(rule, c);
    if leaders != [] {
      assert leaders[0] in leaders;
      BroadcastIsRun(rule, c, leaders[0], Others(ids, leaders[0]));
      var one := Broadcast(rule, c, leaders[0], Others(ids, leaders[0]));
      if !one.raised {
        BroadcastsAreRun(rule, one.cluster, ids, leaders[1..]);
        ReachesTransitive(rule, c, one.cluster, BroadcastEach(rule, one.cluster, ids, leaders[1..]).cluster);
      }
    }
  }

  /** So is healing the network. */
  lemma HealIsRun(rule: AckRule, c: Cluster, ids: seq<NodeId>)
    requires forall i | i in ids :: i in c.nodes
    ensures Reaches(rule, c, HealOp(rule, c, ids).cluster)
  {
    hide Reaches, BroadcastEach;
    ReachesByStep(rule, c, Heal);
    BroadcastsAreRun(rule, Next(rule, c, Heal), ids, Leaders(c, ids));
    ReachesTransitive(rule, c, Next(rule, c, Heal), HealOp(rule, c, ids).cluster);
  }

  // ---------------------------------------------------------------- replication converges

  /** A state the protocol can be in, acknowledgements having been honest so far. */
  ghost predicate Legit(c: Cluster) {
    exists h :: Inv(c, h) && Progress(c, h)
  }

  lemma ReachableIsLegit(ids: set<NodeId>, actions: seq<Action>)
    requires Runs(Clamped, Initial(ids), actions)
    ensures Legit(After(Clamped, Initial(ids), actions))
  {
    ClampedIsHonest(Initial(ids), actions);
    RunFromStart(Clamped, ids, actions);
    HonestFromStart(Clamped, ids, actions);
  }

  lemma StepStaysLegit(c: Cluster, a: Action)
    requires Legit(c) && Enabled(c, a)
    ensures Legit(Next(Clamped, c, a))
  {
    hide Inv, Progress;
    var h :| Inv(c, h) && Progress(c, h);
    StepKeepsInv(Clamped, c, h, a);
    StepKeepsProgress(Clamped, c, h, a);
  }

  lemma LeaderFacts(c: Cluster, l: NodeId, p: NodeId)
    requires Legit(c) && l in c.nodes && c.nodes[l].role == Leader && p in c.nodes && p != l
    ensures NextFor(c.nodes[l], p) <= |c.nodes[l].log|
    ensures c.nodes[l].commit < |c.nodes[l].log|
    ensures p in c.nodes[l].matchIndex ==> c.nodes[l].matchIndex[p] < |c.nodes[l].log|
  {
    hide Inv, ProgressOk;
    var h :| Inv(c, h) && Progress(c, h);
    InvNode(c, h, l);
    assert MatchOk(h, l, c.nodes[l]);
    InvStored(c, h);
    CommitBound(h, c.nodes.Keys, c.nodes[l]) by { assert ProgressOk(h, c.nodes.Keys, c.nodes[l]); }
  }

  lemma CommitBound(h: History, ids: set<NodeId>, n: Node)
    requires ProgressOk(h, ids, n)
    ensures n.commit < |n.log|
  {
  }

  lemma InvStored(c: Cluster, h: History)
    requires Inv(c, h)
    ensures StoredOk(c, h)
  {
  }

  /** An append to a peer that is not ahead in term is either accepted, leaving the leader's log
      as a prefix, or refused for a log mismatch, costing the leader one next index. */
  lemma AppendOutcome(c: Cluster, l: NodeId, p: NodeId)
    requires Legit(c) && Enabled(c, AppendRpc(l, p)) && c.nodes[p].term <= c.nodes[l].term
    ensures var n := c.nodes[l];
            var next := NextFor(n, p);
            var (follower, reply) := HandleAppend(c.nodes[p], AppendRequestFor(l, n, p));
            && reply.term == n.term && follower.term == n.term
            && (next == 0 ==> reply.success)
            && (reply.success ==>
                  (follower.log == Merged(c.nodes[p].log, n.log) && CommitTaken(c.nodes[p], follower, n.commit)
                   && ReceiveAppend(Clamped, n, p, next, reply)
                      == n.(matchIndex := n.matchIndex[p := |n.log| - 1], nextIndex := n.nextIndex[p := |n.log|])))
            && (!reply.success ==>
                  (follower.log == c.nodes[p].log && follower.commit == c.nodes[p].commit
                   && ReceiveAppend(Clamped, n, p, next, reply) == n.(nextIndex := n.nextIndex[p := next - 1])))
  {
    hide Legit, HandleAppend, ReceiveAppend, AppendRequestFor, Merged, CommitTaken, NextFor;
    AppendLeaves(c, l, p);
    var n, r := c.nodes[l], AppendRequestFor(l, c.nodes[l], p);
    RequestFacts(l, n, p);
    AppendAnswer(c.nodes[p], r);
    HeardBack(n, p, NextFor(n, p), HandleAppend(c.nodes[p], r).1);
  }

  lemma RequestFacts(l: NodeId, n: Node, p: NodeId)
    requires NextFor(n, p) <= |n.log|
    ensures AppendRequestFor(l, n, p).term == n.term && AppendRequestFor(l, n, p).prevIndex == NextFor(n, p) - 1
  {
  }

  /** What the leader makes of an answer in its own term. */
  lemma HeardBack(n: Node, p: NodeId, next: nat, reply: AppendReply)
    requires n.role == Leader && reply.term == n.term
    ensures var n' := ReceiveAppend(Clamped, n, p, next, reply);
      && (reply.success && |n.log| - 1 <= reply.matchIndex ==>
            n' == n.(matchIndex := n.matchIndex[p := |n.log| - 1], nextIndex := n.nextIndex[p := |n.log|]))
      && (!reply.success && next > 0 ==> n' == n.(nextIndex := n.nextIndex[p := next - 1]))
  {
  }

  /** What it leaves at the follower. */
  lemma AppendLeaves(c: Cluster, l: NodeId, p: NodeId)
    requires Legit(c) && Enabled(c, AppendRpc(l, p)) && c.nodes[p].term <= c.nodes[l].term
    ensures var (follower, reply) := HandleAppend(c.nodes[p], AppendRequestFor(l, c.nodes[l], p));
      if reply.success then
        follower.log == Merged(c.nodes[p].log, c.nodes[l].log) && |c.nodes[l].log| <= |follower.log| && CommitTaken(c.nodes[p], follower, c.nodes[l].commit)
      else follower.log == c.nodes[p].log && follower.commit == c.nodes[p].commit
  {
    hide Inv, Progress;
    var h :| Inv(c, h) && Progress(c, h);
    InvNode(c, h, l);
    InvNode(c, h, p);
    LeaderFacts(c, l, p);
    AppliedIs(c, p);
    var r := AppendRequestFor(l, c.nodes[l], p);
    AppendAnswer(c.nodes[p], r);
    if AppendAccepted(c, l, p) {
      AcceptedLog(c, h, l, p);
      AcceptedCommit(c.nodes[p], r);
    }
    hide CommandsOf, NodeOk, Legit, HandleAppend, Heard;
  }

  /** What an append to a follower of no higher term is answered. */
  lemma AppendAnswer(n: Node, r: AppendRequest)
    requires n.term <= r.term
    ensures var (m, reply) := HandleAppend(n, r);
      && reply.term == r.term && m.term == r.term && (r.prevIndex == -1 ==> reply.success)
      && (reply.success ==> reply.matchIndex == |m.log| - 1) && (!reply.success ==> m.log == n.log && m.commit == n.commit)
  {
    hide Merge;
  }

  lemma AcceptedCommit(n: Node, r: AppendRequest)
    requires HandleAppend(n, r).1.success && n.lastApplied <= n.commit
    ensures var m := HandleAppend(n, r).0;
            r.leaderCommit < |m.log| ==> CommitTaken(n, m, r.leaderCommit)
  {
    hide Merge, CommandsOf;
  }

  /** A leader's commit index that is past a node's is now its own, and everything up to it is applied. */
  ghost predicate CommitTaken(before: Node, after: Node, leaderCommit: Index) {
    if before.commit < leaderCommit then after.commit == leaderCommit == after.lastApplied else after.commit == before.commit
  }

  /** What a node of a reachable cluster has applied. */
  lemma AppliedIs(c: Cluster, i: NodeId)
    requires Legit(c) && i in c.nodes
    ensures var n := c.nodes[i]; n.lastApplied <= n.commit < |n.log| && n.applied == CommandsOf(n.log[..n.lastApplied + 1])
  {
    hide Inv, Committed, MatchOk;
    var h :| Inv(c, h) && Progress(c, h);
    assert ProgressOk(h, c.nodes.Keys, c.nodes[i]);
  }

  /** Only the leader's bookkeeping for `p` and node `p` itself differ. */
  ghost predicate OnlyTouches(c: Cluster, c': Cluster, l: NodeId, p: NodeId)
    requires l in c.nodes && p in c.nodes
  {
    && c'.nodes.Keys == c.nodes.Keys && c'.blocked == c.blocked
    && (forall i | i in c.nodes && i != l && i != p :: c'.nodes[i] == c.nodes[i])
    && c'.nodes[l] == c.nodes[l].(matchIndex := c'.nodes[l].matchIndex, nextIndex := c'.nodes[l].nextIndex)
    && (forall q | q != p :: q in c'.nodes[l].matchIndex <==> q in c.nodes[l].matchIndex)
    && (forall q | q != p && q in c.nodes[l].matchIndex :: c'.nodes[l].matchIndex[q] == c.nodes[l].matchIndex[q])
  }

  lemma DoAppendIs(c: Cluster, l: NodeId, p: NodeId)
    requires Enabled(c, AppendRpc(l, p))
    ensures var (follower, reply) := HandleAppend(c.nodes[p], AppendRequestFor(l, c.nodes[l], p));
            DoAppend(Clamped, c, l, p)
            == c.(nodes := c.nodes[p := follower][l := ReceiveAppend(Clamped, c.nodes[l], p, NextFor(c.nodes[l], p), reply)])
  {
    hide HandleAppend, ReceiveAppend, AppendRequestFor;
  }

  /** The same, seen from the cluster. */
  lemma AppendStepOutcome(c: Cluster, l: NodeId, p: NodeId)
    requires Legit(c) && Enabled(c, AppendRpc(l, p)) && c.nodes[p].term <= c.nodes[l].term
    ensures var c' := DoAppend(Clamped, c, l, p);
            var reply := HandleAppend(c.nodes[p], AppendRequestFor(l, c.nodes[l], p)).1;
            && OnlyTouches(c, c', l, p) && reply.term == c.nodes[l].term && c'.nodes[p].term == c.nodes[l].term
            && (reply.success ==>
                  (c'.nodes[p].log == Merged(c.nodes[p].log, c.nodes[l].log) && CommitTaken(c.nodes[p], c'.nodes[p], c.nodes[l].commit)
                   && p in c'.nodes[l].matchIndex && c'.nodes[l].matchIndex[p] == |c.nodes[l].log| - 1))
            && (!reply.success ==>
                  (c'.nodes[p].log == c.nodes[p].log && c'.nodes[p].commit == c.nodes[p].commit && NextFor(c.nodes[l], p) > 0 && NextFor(c'.nodes[l], p) == NextFor(c.nodes[l], p) - 1))
  {
    hide Legit, HandleAppend, ReceiveAppend, AppendRequestFor, DoAppend;
    AppendOutcome(c, l, p);
    DoAppendIs(c, l, p);
  }

  /** Replicating to a connected peer that is not ahead in term ends with the leader's whole log as a
      prefix of the follower's, whatever tail it had, and with a match index at the log's end. */
  lemma {:induction false} ReplicateConverges(c: Cluster, l: NodeId, p: NodeId)
    requires Legit(c) && l in c.nodes && p in c.nodes && l != p && c.nodes[l].role == Leader
    requires Connected(c, l, p) && c.nodes[p].term <= c.nodes[l].term
    ensures var r := ReplicateTo(Clamped, c, l, p);
            var c' := r.cluster;
            && !r.raised && Legit(c') && OnlyTouches(c, c', l, p)
            && c'.nodes[p].log == Merged(c.nodes[p].log, c.nodes[l].log) && c'.nodes[l].log <= c'.nodes[p].log
            && c'.nodes[p].term == c.nodes[l].term && CommitTaken(c.nodes[p], c'.nodes[p], c.nodes[l].commit)
            && p in c'.nodes[l].matchIndex && c'.nodes[l].matchIndex[p] == |c.nodes[l].log| - 1
    decreases NextFor(c.nodes[l], p)
  {
    hide Legit, HandleAppend, ReceiveAppend, AppendRequestFor, DoAppend, HonestRun;
    LeaderFacts(c, l, p);
    AppendStepOutcome(c, l, p);
    StepStaysLegit(c, AppendRpc(l, p));
    var c' := DoAppend(Clamped, c, l, p);
    assert c' == Next(Clamped, c, AppendRpc(l, p));
    if !HandleAppend(c.nodes[p], AppendRequestFor(l, c.nodes[l], p)).1.success {
      ReplicateConverges(c', l, p);
    }
  }

  ghost predicate SameMatch(n: Node, n': Node, p: NodeId) {
    (p in n'.matchIndex <==> p in n.matchIndex) && (p in n.matchIndex ==> n'.matchIndex[p] == n.matchIndex[p])
  }

  /** `p` now holds the leader's log, and the leader knows it. */
  ghost predicate CaughtUp(c: Cluster, c': Cluster, l: NodeId, p: NodeId)
    requires l in c.nodes && p in c.nodes && l in c'.nodes && p in c'.nodes
  {
    && p in c'.nodes[l].matchIndex && c'.nodes[l].matchIndex[p] == |c.nodes[l].log| - 1
    && c.nodes[l].log <= c'.nodes[p].log && c'.nodes[p].term == c.nodes[l].term && CommitTaken(c.nodes[p], c'.nodes[p], c.nodes[l].commit)
  }

  /** The connected nodes of `peers` are caught up and nothing else is touched. */
  ghost predicate Spread(c: Cluster, c': Cluster, l: NodeId, peers: seq<NodeId>)
    requires l in c.nodes
  {
    && c'.nodes.Keys == c.nodes.Keys && c'.blocked == c.blocked
    && c'.nodes[l] == c.nodes[l].(matchIndex := c'.nodes[l].matchIndex, nextIndex := c'.nodes[l].nextIndex)
    && forall p | p in c.nodes && p != l ::
         if p in peers && Connected(c, l, p) then CaughtUp(c, c', l, p)
         else c'.nodes[p] == c.nodes[p] && SameMatch(c.nodes[l], c'.nodes[l], p)
  }

  ghost predicate Distinct(peers: seq<NodeId>) {
    forall i, j | 0 <= i < j < |peers| :: peers[i] != peers[j]
  }

  /** `l` leads, and no peer it can reach is ahead of it in term. */
  ghost predicate Unopposed(c: Cluster, l: NodeId) {
    && Legit(c) && l in c.nodes && c.nodes[l].role == Leader
    && forall p | p in c.nodes && p != l && Connected(c, l, p) :: c.nodes[p].term <= c.nodes[l].term
  }

  lemma StaysUnopposed(c: Cluster, c': Cluster, l: NodeId)
    requires Unopposed(c, l) && Legit(c') && c'.nodes.Keys == c.nodes.Keys && c'.blocked == c.blocked
    requires c'.nodes[l].role == Leader && c'.nodes[l].term == c.nodes[l].term
    requires forall p | p in c.nodes && p != l :: c'.nodes[p].term == c.nodes[p].term || c'.nodes[p].term == c.nodes[l].term
    ensures Unopposed(c', l)
  {
    hide Legit;
  }

  lemma SpreadOne(c: Cluster, c': Cluster, l: NodeId, p: NodeId)
    requires l in c.nodes && p in c.nodes && l != p && OnlyTouches(c, c', l, p) && Connected(c, l, p) && CaughtUp(c, c', l, p)
    ensures Spread(c, c', l, [p])
  {
  }

  lemma SpreadNobody(c: Cluster, l: NodeId, p: NodeId)
    requires l in c.nodes && !Connected(c, l, p)
    ensures Spread(c, c, l, [p])
  {
  }

  lemma ReplicateOne(c: Cluster, l: NodeId, p: NodeId)
    requires Unopposed(c, l) && p in c.nodes && p != l
    ensures var r := ReplicateTo(Clamped, c, l, p); !r.raised && Unopposed(r.cluster, l) && Spread(c, r.cluster, l, [p])
  {
    hide Legit, Spread;
    LeaderFacts(c, l, p);
    if Connected(c, l, p) {
      ReplicateConverges(c, l, p);
      hide ReplicateTo;
      var c' := ReplicateTo(Clamped, c, l, p).cluster;
      SpreadOne(c, c', l, p);
      StaysUnopposed(c, c', l);
    } else {
      SpreadNobody(c, l, p);
    }
  }

  lemma SpreadOn(a: Cluster, b: Cluster, c: Cluster, l: NodeId, p: NodeId, rest: seq<NodeId>)
    requires l in a.nodes && Spread(a, b, l, [p]) && Spread(b, c, l, rest) && p !in rest
    ensures Spread(a, c, l, [p] + rest)
  {
    forall q | q in a.nodes && q != l
      ensures if q in [p] + rest && Connected(a, l, q) then CaughtUp(a, c, l, q)
              else c.nodes[q] == a.nodes[q] && SameMatch(a.nodes[l], c.nodes[l], q)
    {
    }
  }

  lemma {:induction false} ReplicateAllConverges(c: Cluster, l: NodeId, peers: seq<NodeId>)
    requires Unopposed(c, l) && Distinct(peers) && forall p | p in peers :: p in c.nodes && p != l
    ensures var r := ReplicateAll(Clamped, c, l, peers); !r.raised && Unopposed(r.cluster, l) && Spread(c, r.cluster, l, peers)
    decreases |peers|
  {
    hide Legit, Spread, ReplicateTo;
    if peers == [] {
      SpreadNone(c, l);
    } else {
      var p := peers[0];
      assert peers == [p] + peers[1..];
      ReplicateOne(c, l, p);
      var one := ReplicateTo(Clamped, c, l, p);
      ReplicateAllConverges(one.cluster, l, peers[1..]);
      SpreadOn(c, one.cluster, ReplicateAll(Clamped, one.cluster, l, peers[1..]).cluster, l, p, peers[1..]);
    }
  }

  lemma SpreadNone(c: Cluster, l: NodeId)
    requires l in c.nodes
    ensures Spread(c, c, l, [])
  {
  }

  function Reachable(c: Cluster, l: NodeId): set<NodeId> {
    set p | p in c.nodes && p != l && Connected(c, l, p)
  }

  /** One full round on a leader whose last entry is its own: it commits its whole log exactly
      when a majority is within reach. */
  lemma AdvanceAfterRound(c: Cluster, c': Cluster, l: NodeId, peers: seq<NodeId>)
    requires Unopposed(c, l) && Spread(c, c', l, peers) && Distinct(peers)
    requires forall p :: p in peers <==> p in c.nodes && p != l
    requires c.nodes[l].log != [] && LastTerm(c.nodes[l].log) == c.nodes[l].term && c.nodes[l].commit < |c.nodes[l].log| - 1
    requires forall p | p in c.nodes && p != l && p in c.nodes[l].matchIndex && !Connected(c, l, p) :: c.nodes[l].matchIndex[p] < |c.nodes[l].log| - 1
    ensures var n := AdvanceCommit(c'.nodes[l], c'.nodes.Keys - {l});
            n.commit == |n.log| - 1 <==> 1 + |Reachable(c, l)| >= Majority(|c.nodes.Keys|)
  {
    hide Legit, SameMatch, CaughtUp;
    var n := c'.nodes[l];
    var ids := c'.nodes.Keys - {l};
    var last := |n.log| - 1;
    assert |ids| + 1 == |c.nodes.Keys|;
    ReachedHold(c, c', l, peers);
    hide Spread, Reachable, Holders;
    CommitBelowIs(n, ids, last);
  }

  lemma ReachedHold(c: Cluster, c': Cluster, l: NodeId, peers: seq<NodeId>)
    requires l in c.nodes && Spread(c, c', l, peers) && (forall p :: p in peers <==> p in c.nodes && p != l) && c.nodes[l].log != []
    requires forall p | p in c.nodes && p != l && p in c.nodes[l].matchIndex && !Connected(c, l, p) :: c.nodes[l].matchIndex[p] < |c.nodes[l].log| - 1
    ensures var n := c'.nodes[l]; n.log == c.nodes[l].log && Holders(n, c'.nodes.Keys - {l}, |n.log| - 1) == Reachable(c, l)
  {
    var n := c'.nodes[l];
    forall p ensures p in Holders(n, c'.nodes.Keys - {l}, |n.log| - 1) <==> p in Reachable(c, l) {
      if p in c.nodes && p != l && !Connected(c, l, p) { assert SameMatch(c.nodes[l], n, p); }
    }
  }

  lemma AdvanceStaysUnopposed(c: Cluster, c': Cluster, l: NodeId)
    requires l in c.nodes && c' == Next(Clamped, c, Advance(l))
    requires Unopposed(c, l)
    ensures Unopposed(c', l)
  {
    hide Legit, AdvanceCommit;
    StepStaysLegit(c, Advance(l));
    AdvanceOnly(c, l);
    StaysUnopposed(c, c', l);
  }

  lemma ProposeStaysUnopposed(c: Cluster, c': Cluster, l: NodeId, command: Command)
    requires Enabled(c, Propose(l, command)) && c' == Next(Clamped, c, Propose(l, command))
    requires Unopposed(c, l)
    ensures Unopposed(c', l)
  {
    hide Legit, Connected;
    StepStaysLegit(c, Propose(l, command));
    StaysUnopposed(c, c', l);
  }

  /** The peers in reach hold the leader's log and its commit index, and have applied what is new to them and to it. */
  ghost predicate Told(c: Cluster, c': Cluster, l: NodeId)
    requires l in c.nodes && c'.nodes.Keys == c.nodes.Keys
  {
    var n := c'.nodes[l];
    forall p | p in Reachable(c, l) ::
      && n.log <= c'.nodes[p].log && c'.nodes[p].commit >= n.commit
      && (c.nodes[l].commit < n.commit && c.nodes[p].commit < n.commit ==> c'.nodes[p].lastApplied == n.commit)
  }

  /** A broadcast by an unopposed leader whose last entry is its own and not yet committed: the leader
      keeps its log, commits all of it exactly when it reaches a majority, and everyone in
      reach learns that commit index. */
  lemma BroadcastCommitsIffMajority(c: Cluster, l: NodeId, peers: seq<NodeId>)
    requires Unopposed(c, l) && Distinct(peers) && forall p :: p in peers <==> p in c.nodes && p != l
    requires c.nodes[l].log != [] && LastTerm(c.nodes[l].log) == c.nodes[l].term && c.nodes[l].commit < |c.nodes[l].log| - 1
    requires forall p | p in c.nodes && p != l && p in c.nodes[l].matchIndex && !Connected(c, l, p) :: c.nodes[l].matchIndex[p] < |c.nodes[l].log| - 1
    ensures var r := Broadcast(Clamped, c, l, peers);
            var n := r.cluster.nodes[l];
            && !r.raised && n.role == Leader && n.log == c.nodes[l].log
            && (n.commit == |n.log| - 1 <==> 1 + |Reachable(c, l)| >= Majority(|c.nodes.Keys|))
            && n.lastApplied == n.commit && Told(c, r.cluster, l)
  {
    hide Unopposed, Legit, AdvanceCommit, ApplyCommitted, Broadcast, Told, Spread, Reachable, Distinct, Connected;
    var c1, c2, c3 := BroadcastStages(c, l, peers);
    SpreadLeader(c, c1, l, peers);
    SpreadLeader(c2, c3, l, peers);
    AdvanceAfterRound(c, c1, l, peers);
    AdvanceOnly(c1, l);
    BothRounds(c, c1, c2, c3, l, peers);
    ApplyOnly(c3, l);
    AppliedIs(c3, l) by { UnopposedLegit(c3, l); }
    AppliesAll(c3, l);
    StillTold(c, c3, SetNode(c3, l, ApplyCommitted(c3.nodes[l])), l);
  }

  lemma SpreadLeader(c: Cluster, c': Cluster, l: NodeId, peers: seq<NodeId>)
    requires l in c.nodes && Spread(c, c', l, peers)
    ensures c'.nodes.Keys == c.nodes.Keys && c'.blocked == c.blocked
    ensures c'.nodes[l] == c.nodes[l].(matchIndex := c'.nodes[l].matchIndex, nextIndex := c'.nodes[l].nextIndex)
  {
  }

  lemma UnopposedLegit(c: Cluster, l: NodeId)
    requires Unopposed(c, l)
    ensures Legit(c) && l in c.nodes && c.nodes[l].role == Leader
  {
  }

  /** The clusters after the first round, the commit index, and the second round. */
  ghost predicate Staged(c: Cluster, l: NodeId, peers: seq<NodeId>, c1: Cluster, c2: Cluster, c3: Cluster) {
    && l in c.nodes && l in c1.nodes && l in c2.nodes && l in c3.nodes && c1.nodes[l].role == Leader
    && Spread(c, c1, l, peers) && c2 == SetNode(c1, l, AdvanceCommit(c1.nodes[l], c1.nodes.Keys - {l})) && Spread(c2, c3, l, peers)
    && Unopposed(c3, l)
  }

  lemma BroadcastStages(c: Cluster, l: NodeId, peers: seq<NodeId>) returns (c1: Cluster, c2: Cluster, c3: Cluster)
    requires Unopposed(c, l) && Distinct(peers) && forall p | p in peers :: p in c.nodes && p != l
    ensures Staged(c, l, peers, c1, c2, c3)
    ensures Broadcast(Clamped, c, l, peers) == Outcome(SetNode(c3, l, ApplyCommitted(c3.nodes[l])), false)
  {
    hide Legit, ReplicateAll, Broadcast, AdvanceCommit, ApplyCommitted;
    ReplicateAllConverges(c, l, peers);
    c1 := ReplicateAll(Clamped, c, l, peers).cluster;
    c2 := Next(Clamped, c1, Advance(l));
    AdvanceStaysUnopposed(c1, c2, l);
    ReplicateAllConverges(c2, l, peers);
    c3 := ReplicateAll(Clamped, c2, l, peers).cluster;
    Rounds(Clamped, c, l, peers, c1, c2, Outcome(c3, false));
    hide Spread;
  }

  lemma StillTold(c: Cluster, c3: Cluster, c4: Cluster, l: NodeId)
    requires l in c.nodes && c3.nodes.Keys == c.nodes.Keys && c4.nodes.Keys == c.nodes.Keys && Told(c, c3, l)
    requires (forall p | p in c.nodes && p != l :: c4.nodes[p] == c3.nodes[p]) && c4.nodes[l].log == c3.nodes[l].log
    requires c4.nodes[l].commit == c3.nodes[l].commit
    ensures Told(c, c4, l)
  {
  }

  lemma AppliesAll(c: Cluster, l: NodeId)
    requires l in c.nodes && c.nodes[l].lastApplied <= c.nodes[l].commit < |c.nodes[l].log|
    ensures var n := Next(Clamped, c, Apply(l)).nodes[l]; n.lastApplied == n.commit == c.nodes[l].commit
  {
    hide CommandsOf;
  }

  /** What two rounds with the commit index raised between them leave at the peers in reach. */
  lemma BothRounds(c: Cluster, c1: Cluster, c2: Cluster, c3: Cluster, l: NodeId, peers: seq<NodeId>)
    requires l in c.nodes && (forall p :: p in peers <==> p in c.nodes && p != l)
    requires Spread(c, c1, l, peers) && c2.blocked == c1.blocked && c2.nodes.Keys == c1.nodes.Keys && Spread(c2, c3, l, peers)
    requires c2.nodes[l].log == c1.nodes[l].log && forall p | p in c.nodes && p != l :: c2.nodes[p] == c1.nodes[p]
    ensures l in c3.nodes && c3.nodes.Keys == c.nodes.Keys && c3.nodes[l].commit == c2.nodes[l].commit && c3.nodes[l].log == c.nodes[l].log
    ensures Told(c, c3, l)
  {
    hide SameMatch;
  }

  lemma AdvanceOnly(c: Cluster, l: NodeId)
    requires l in c.nodes
    ensures var c' := Next(Clamped, c, Advance(l));
            && c'.blocked == c.blocked && c'.nodes.Keys == c.nodes.Keys
            && (forall i | i in c.nodes && i != l :: c'.nodes[i] == c.nodes[i])
            && c'.nodes[l] == c.nodes[l].(commit := c'.nodes[l].commit)
            && c'.nodes[l] == AdvanceCommit(c.nodes[l], c.nodes.Keys - {l})
  {
  }

  lemma ApplyOnly(c: Cluster, l: NodeId)
    requires l in c.nodes
    ensures var c' := Next(Clamped, c, Apply(l));
            && c'.nodes.Keys == c.nodes.Keys && (forall i | i in c.nodes && i != l :: c'.nodes[i] == c.nodes[i])
            && c'.nodes[l] == c.nodes[l].(applied := c'.nodes[l].applied, lastApplied := c'.nodes[l].lastApplied)
  {
  }

  /** Committed at the next free position, and at every peer in reach, exactly when these are a majority. */
  ghost predicate Answered(c: Cluster, c': Cluster, answer: Proposal, l: NodeId)
    requires l in c.nodes && c'.nodes.Keys == c.nodes.Keys
  {
    var index := |c.nodes[l].log|;
    && answer == (if 2 * (1 + |Reachable(c, l)|) > |c.nodes.Keys| then CommittedAt(index) else Uncommitted)
    && (forall p | p in Reachable(c, l) :: c'.nodes[l].log <= c'.nodes[p].log && (answer.CommittedAt? ==> c'.nodes[p].commit >= index))
    && (answer.CommittedAt? ==> c'.nodes[l].commit == index && c'.nodes[l].applied == CommandsOf(c'.nodes[l].log))
    && (answer.CommittedAt? ==> forall p | p in Reachable(c, l) && c.nodes[p].commit < index :: c'.nodes[p].applied == CommandsOf(c'.nodes[l].log))
  }

  /** A proposal to an unopposed leader is acknowledged, at the next free position, exactly when the
      leader and the peers it reaches are a majority; otherwise it is reported uncommitted. Once
      acknowledged it is in the log, and committed, at every peer in reach. */
  lemma ProposeCommitsIffMajority(c: Cluster, l: NodeId, peers: seq<NodeId>, command: Command)
    requires Unopposed(c, l) && Distinct(peers) && forall p :: p in peers <==> p in c.nodes && p != l
    ensures var r := ProposeOp(Clamped, c, l, peers, command);
            Answered(c, r.0, r.1, l) && r.0.nodes[l].log == c.nodes[l].log + [LogEntry(c.nodes[l].term, command)]
  {
    hide Legit, Broadcast;
    forall p | p in c.nodes && p != l ensures p in c.nodes[l].matchIndex ==> c.nodes[l].matchIndex[p] < |c.nodes[l].log| {
      LeaderFacts(c, l, p);
    }
    LeaderCommit(c, l);
    var c1 := Next(Clamped, c, Propose(l, command));
    ProposeStaysUnopposed(c, c1, l, command);
    assert Reachable(c1, l) == Reachable(c, l);
    BroadcastCommitsIffMajority(c1, l, peers);
    BroadcastLegit(c1, l, peers);
    AllApplied(c1, Broadcast(Clamped, c1, l, peers).cluster, l);
  }

  /** What a fully committed leader and the peers that took its commit index have applied. */
  lemma AllApplied(c: Cluster, c': Cluster, l: NodeId)
    requires l in c.nodes && Legit(c') && c'.nodes.Keys == c.nodes.Keys
    requires var n := c'.nodes[l]; n.lastApplied == n.commit
    requires forall p | p in Reachable(c, l) :: c'.nodes[l].log <= c'.nodes[p].log
    ensures var n := c'.nodes[l]; n.commit < |n.log|
    ensures var n := c'.nodes[l]; n.commit == |n.log| - 1 ==>
      && n.applied == CommandsOf(n.log)
      && forall p | p in Reachable(c, l) && c'.nodes[p].lastApplied == n.commit :: c'.nodes[p].applied == CommandsOf(n.log)
  {
    hide Legit, CommandsOf, Connected;
    var n := c'.nodes[l];
    AppliedIs(c', l);
    if n.commit == |n.log| - 1 {
      assert n.log[..n.commit + 1] == n.log;
      forall p | p in Reachable(c, l) && c'.nodes[p].lastApplied == n.commit ensures c'.nodes[p].applied == CommandsOf(n.log) {
        AppliedIs(c', p);
        assert c'.nodes[p].log[..n.commit + 1] == n.log;
      }
    }
  }

  lemma LeaderCommit(c: Cluster, l: NodeId)
    requires Legit(c) && l in c.nodes
    ensures c.nodes[l].commit < |c.nodes[l].log|
  {
    hide Inv, ProgressOk;
    var h :| Inv(c, h) && Progress(c, h);
    CommitBound(h, c.nodes.Keys, c.nodes[l]) by { assert ProgressOk(h, c.nodes.Keys, c.nodes[l]); }
  }

  lemma BroadcastLegit(c: Cluster, l: NodeId, peers: seq<NodeId>)
    requires Unopposed(c, l) && forall p | p in peers :: p in c.nodes && p != l
    ensures Legit(Broadcast(Clamped, c, l, peers).cluster)
  {
    hide Inv, Progress, Runs, After;
    BroadcastIsRun(Clamped, c, l, peers);
    var c' := Broadcast(Clamped, c, l, peers).cluster;
    var actions :| Runs(Clamped, c, actions) && After(Clamped, c, actions) == c';
    var h :| Inv(c, h) && Progress(c, h);
    ClampedIsHonest(c, actions);
    RunKeepsInv(Clamped, c, h, actions);
    RunKeepsProgress(Clamped, c, h, actions);
  }

  // ---------------------------------------------------------------- from any reachable state

  /** In any reachable state, a leader that replicates to a connected peer whose term is no higher ends
      with its whole log as a prefix of the peer's, its match index at the log's end, and no error. */
  lemma ReplicationConverges(ids: set<NodeId>, actions: seq<Action>, l: NodeId, p: NodeId)
    requires Runs(Clamped, Initial(ids), actions)
    requires var c := After(Clamped, Initial(ids), actions);
             l in c.nodes && p in c.nodes && l != p && c.nodes[l].role == Leader
             && Connected(c, l, p) && c.nodes[p].term <= c.nodes[l].term
    ensures var c := After(Clamped, Initial(ids), actions);
            var r := ReplicateTo(Clamped, c, l, p);
            && !r.raised
            && r.cluster.nodes[l].role == Leader && r.cluster.nodes[l].log == c.nodes[l].log
            && c.nodes[l].log <= r.cluster.nodes[p].log && r.cluster.nodes[p].commit >= c.nodes[l].commit
            && r.cluster.nodes[p].log == (if c.nodes[l].log <= c.nodes[p].log then c.nodes[p].log else c.nodes[l].log)
            && p in r.cluster.nodes[l].matchIndex && r.cluster.nodes[l].matchIndex[p] == |c.nodes[l].log| - 1
  {
    hide Legit, ReplicateTo;
    ReachableIsLegit(ids, actions);
    ReplicateConverges(After(Clamped, Initial(ids), actions), l, p);
  }

  /** In any reachable state, a proposal to a leader that no reachable peer outranks is acknowledged, at
      the next free position, exactly when the leader and the peers it reaches are more than half; otherwise
      it is reported uncommitted. Acknowledged, it is committed at the leader and every peer in reach, and they have
      applied it after all the leader's commands before it. */
  lemma ProposalAcknowledgedIffMajority(ids: set<NodeId>, actions: seq<Action>, l: NodeId, peers: seq<NodeId>, command: Command)
    requires Runs(Clamped, Initial(ids), actions)
    requires Distinct(peers) && forall p :: p in peers <==> p in ids && p != l
    requires var c := After(Clamped, Initial(ids), actions);
             c.nodes.Keys == ids && l in c.nodes && c.nodes[l].role == Leader
             && forall p | p in peers && Connected(c, l, p) :: c.nodes[p].term <= c.nodes[l].term
    ensures var c := After(Clamped, Initial(ids), actions);
            var (c', answer) := ProposeOp(Clamped, c, l, peers, command);
            var reached := set p | p in peers && Connected(c, l, p);
            var index := |c.nodes[l].log|;
            && answer == (if 2 * (1 + |reached|) > |ids| then CommittedAt(index) else Uncommitted)
            && c'.nodes[l].log == c.nodes[l].log + [LogEntry(c.nodes[l].term, command)]
            && (forall p | p in reached :: c'.nodes[l].log <= c'.nodes[p].log)
            && (answer.CommittedAt? ==>
                  forall p | p in reached || p == l :: c'.nodes[p].commit >= index && c'.nodes[p].applied == CommandsOf(c'.nodes[l].log))
  {
    hide Legit, ProposeOp, Runs, After, CommandsOf, Connected;
    ReachableIsLegit(ids, actions);
    var c := After(Clamped, Initial(ids), actions);
    ProposeCommitsIffMajority(c, l, peers, command);
    assert Reachable(c, l) == set p | p in peers && Connected(c, l, p);
    forall p | p in Reachable(c, l) ensures c.nodes[p].commit < |c.nodes[l].log| {
      CommitsWithinLeader(ids, actions, p, l);
    }
  }

  /** No node has committed past the log of a leader of its term or a later one. */
  lemma CommitsWithinLeader(ids: set<NodeId>, actions: seq<Action>, i: NodeId, l: NodeId)
    requires Runs(Clamped, Initial(ids), actions)
    requires var c := After(Clamped, Initial(ids), actions);
      i in c.nodes && l in c.nodes && c.nodes[l].role == Leader && c.nodes[i].term <= c.nodes[l].term
    ensures var c := After(Clamped, Initial(ids), actions); c.nodes[i].commit < |c.nodes[l].log|
  {
    ClampedIsHonest(Initial(ids), actions);
    var c := After(Clamped, Initial(ids), actions);
    assert Runs(Clamped, c, []) && After(Clamped, c, []) == c;
    LeaderCompleteness(Clamped, ids, actions, [], i, l);
  }
}
