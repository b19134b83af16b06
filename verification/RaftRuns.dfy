/** Each action is made of the steps above, so every run keeps the invariant. */
module RaftRuns {
  import opened RaftProtocol
  import opened RaftInvariant
  import opened RaftSteps
  import opened RaftAppendSteps

  // ---------------------------------------------------------------- vote RPC

  /** The cluster once the voter has caught up with the request's term. */
  function VoterRaised(c: Cluster, r: VoteRequest, p: NodeId): Cluster
    requires p in c.nodes
  {
    if r.term > c.nodes[p].term then SetNode(c, p, StepDown(c.nodes[p], r.term, None)) else c
  }

  lemma VoterKeepsInv(c: Cluster, h: History, r: VoteRequest, p: NodeId)
    requires Inv(c, h) && r in c.issued && p in c.nodes
    ensures Inv(SetNode(c, p, HandleVote(c.nodes[p], r).0), RecordBallot(c, h, r, p))
    ensures var reply := HandleVote(c.nodes[p], r).1;
            reply.granted ==> reply.term == r.term && (p, r.term) in RecordBallot(c, h, r, p).ballots
                              && RecordBallot(c, h, r, p).ballots[(p, r.term)].candidate == r.candidate
  {
    hide Inv;
    var raised := VoterRaised(c, r, p);
    var c' := SetNode(c, p, HandleVote(c.nodes[p], r).0);
    assert c.nodes[p := c.nodes[p]] == c.nodes;
    VoterRaisedKeepsInv(c, h, r, p);
    if HandleVote(c.nodes[p], r).1.granted {
      GrantKeepsInv(raised, h, r, p);
      assert c'.nodes == Granted(raised, r, p).nodes;
    } else {
      assert c' == raised;
    }
  }

  lemma VoterRaisedKeepsInv(c: Cluster, h: History, r: VoteRequest, p: NodeId)
    requires Inv(c, h) && p in c.nodes
    ensures Inv(VoterRaised(c, r, p), h)
  {
    if r.term > c.nodes[p].term {
      QuietNodeKeepsInv(c, h, p, StepDown(c.nodes[p], r.term, None));
    }
  }

  lemma InvNode(c: Cluster, h: History, i: NodeId)
    requires Inv(c, h) && i in c.nodes
    ensures NodeOk(c, h, i)
  {
  }

  lemma CandidateCountsVote(c: Cluster, h: History, i: NodeId, p: NodeId, c': Cluster)
    requires Inv(c, h) && i in c.nodes && p in c.nodes && c.nodes[i].role == Candidate
    requires (p, c.nodes[i].term) in h.ballots && h.ballots[(p, c.nodes[i].term)].candidate == i
    requires c' == SetNode(c, i, ReceiveVote(i, c.nodes.Keys - {i}, c.nodes[i], p, VoteReply(c.nodes[i].term, true)))
    ensures Inv(c', RecordWin(c', h, i))
  {
    hide Inv;
    var n := c.nodes[i];
    var m := n.(votes := n.votes + {p});
    var counted := SetNode(c, i, m);
    assert |c.nodes.Keys - {i}| + 1 == |c.nodes.Keys|;
    CountVoteKeepsInv(c, counted, h, i, p);
    if |m.votes| >= Majority(|c.nodes.Keys|) {
      assert counted.nodes.Keys == c.nodes.Keys && counted.nodes[i] == m;
      assert c'.nodes == counted.nodes[i := BecomeLeader(i, c.nodes.Keys - {i}, m)];
      WinKeepsInv(counted, c', h, i);
    } else {
      assert c' == counted;
    }
  }

  lemma CandidateIgnoresVote(c: Cluster, h: History, i: NodeId, p: NodeId, r: VoteReply)
    requires Inv(c, h) && i in c.nodes
    requires r.term > c.nodes[i].term || c.nodes[i].role != Candidate || r.term != c.nodes[i].term || !r.granted
    ensures var c' := SetNode(c, i, ReceiveVote(i, c.nodes.Keys - {i}, c.nodes[i], p, r)); Inv(c', RecordWin(c', h, i))
  {
    InvNode(c, h, i);
    hide Inv;
    var c' := SetNode(c, i, ReceiveVote(i, c.nodes.Keys - {i}, c.nodes[i], p, r));
    if r.term > c.nodes[i].term {
      QuietNodeKeepsInv(c, h, i, StepDown(c.nodes[i], r.term, None));
    } else {
      assert c'.nodes == c.nodes;
    }
  }

  lemma QuietNodeKeepsInv(c: Cluster, h: History, i: NodeId, n: Node)
    requires Inv(c, h) && i in c.nodes && Quiet(c.nodes[i], n)
    ensures Inv(SetNode(c, i, n), h)
  {
    assert QuietStep(c, SetNode(c, i, n));
    QuietKeepsInv(c, SetNode(c, i, n), h);
  }

  lemma VoteKeepsInv(rule: AckRule, c: Cluster, h: History, r: VoteRequest, p: NodeId)
    requires Inv(c, h) && Enabled(c, VoteRpc(r, p))
    ensures var c' := Next(rule, c, VoteRpc(r, p)); Inv(c', Record(c, c', h, VoteRpc(r, p)))
  {
    hide Inv;
    var (voter, reply) := HandleVote(c.nodes[p], r);
    var c1 := SetNode(c, p, voter);
    var h1 := RecordBallot(c, h, r, p);
    var i := r.candidate;
    VoterKeepsInv(c, h, r, p);
    assert c1.nodes.Keys == c.nodes.Keys;
    if reply.term > c1.nodes[i].term || c1.nodes[i].role != Candidate || reply.term != c1.nodes[i].term || !reply.granted {
      CandidateIgnoresVote(c1, h1, i, p, reply);
    } else {
      assert reply == VoteReply(c1.nodes[i].term, true);
      CandidateCountsVote(c1, h1, i, p, SetNode(c1, i, ReceiveVote(i, c1.nodes.Keys - {i}, c1.nodes[i], p, reply)));
    }
  }

  // ---------------------------------------------------------------- append RPC

  /** The follower once it has heard of the leader, before it looks at the entries. */
  function Heard(n: Node, r: AppendRequest): Node {
    var m := if r.term > n.term || n.role != Follower then StepDown(n, r.term, Some(r.leader)) else n;
    m.(leaderId := Some(r.leader))
  }

  lemma MergedIs(log: Log, leader: Log)
    ensures Merged(log, leader) == if Agree(leader, log, |leader|) then log else leader
  {
    if Agree(leader, log, |leader|) { assert leader <= log; }
  }

  lemma ApplyKeepsLog(n: Node)
    ensures var m := ApplyCommitted(n); m == n.(applied := m.applied, lastApplied := m.lastApplied)
  {
  }

  /** What the append handler does to the follower's log, term and vote. */
  lemma AcceptedNode(n: Node, r: AppendRequest)
    requires HandleAppend(n, r).1.success
    ensures var (m, reply) := HandleAppend(n, r);
            && r.term >= n.term && reply.term == r.term && reply.matchIndex == |m.log| - 1
            && m.term == r.term && m.votedFor == Heard(n, r).votedFor && m.role == Follower
            && Matches(n.log, r.prevIndex, r.prevTerm) && m.log == Merge(n.log, r.prevIndex + 1, r.entries)
            && m.disk == Disk(m.term, m.votedFor, m.log)
  {
    var merged := Heard(n, r).(log := Merge(n.log, r.prevIndex + 1, r.entries));
    ApplyKeepsLog(merged.(commit := Min(r.leaderCommit, |merged.log| - 1)));
  }

  /** An accepted append leaves the follower with its own log if that starts with the leader's, else with the leader's. */
  lemma AcceptedLog(c: Cluster, h: History, l: NodeId, p: NodeId)
    requires Enabled(c, AppendRpc(l, p)) && AppendAccepted(c, l, p) && NodeOk(c, h, l) && NodeOk(c, h, p)
    ensures HandleAppend(c.nodes[p], AppendRequestFor(l, c.nodes[l], p)).0.log == Merged(c.nodes[p].log, c.nodes[l].log)
    ensures NextFor(c.nodes[l], p) <= |c.nodes[p].log|
  {
    AcceptedNode(c.nodes[p], AppendRequestFor(l, c.nodes[l], p));
    MergeResult(c.nodes[p].log, c.nodes[l].log, NextFor(c.nodes[l], p), h);
    MergedIs(c.nodes[p].log, c.nodes[l].log);
  }

  lemma HandlerAccepts(c: Cluster, h: History, l: NodeId, p: NodeId)
    requires Enabled(c, AppendRpc(l, p)) && AppendAccepted(c, l, p) && NodeOk(c, h, l) && NodeOk(c, h, p)
    ensures var r := AppendRequestFor(l, c.nodes[l], p);
            Accepts(SetNode(c, p, Heard(c.nodes[p], r)), h, SetNode(c, p, HandleAppend(c.nodes[p], r).0), StoredHistory(h, p, c.nodes[l]), l, p)
  {
    hide NodeOk;
    var r := AppendRequestFor(l, c.nodes[l], p);
    var c' := SetNode(c, p, HandleAppend(c.nodes[p], r).0);
    var heard := SetNode(c, p, Heard(c.nodes[p], r));
    AcceptedNode(c.nodes[p], r);
    AcceptedLog(c, h, l, p);
    assert c'.nodes == heard.nodes[p := c'.nodes[p]];
  }

  lemma FollowerAcceptsKeepsInv(c: Cluster, h: History, l: NodeId, p: NodeId)
    requires Inv(c, h) && Enabled(c, AppendRpc(l, p)) && AppendAccepted(c, l, p)
    ensures Inv(SetNode(c, p, HandleAppend(c.nodes[p], AppendRequestFor(l, c.nodes[l], p)).0), StoredHistory(h, p, c.nodes[l]))
  {
    hide Inv, NodeOk, Accepts;
    InvNode(c, h, l);
    InvNode(c, h, p);
    InvDisk(c, h, p);
    var r := AppendRequestFor(l, c.nodes[l], p);
    QuietNodeKeepsInv(c, h, p, Heard(c.nodes[p], r)) by { AcceptedNode(c.nodes[p], r); }
    HandlerAccepts(c, h, l, p);
    AcceptKeepsInv(SetNode(c, p, Heard(c.nodes[p], r)), h, SetNode(c, p, HandleAppend(c.nodes[p], r).0), StoredHistory(h, p, c.nodes[l]), l, p);
  }

  lemma InvDisk(c: Cluster, h: History, i: NodeId)
    requires Inv(c, h) && i in c.nodes
    ensures c.nodes[i].disk == Disk(c.nodes[i].term, c.nodes[i].votedFor, c.nodes[i].log)
  {
  }

  lemma NotAccepted(n: Node, r: AppendRequest)
    ensures r.term < n.term ==> HandleAppend(n, r).0 == n && !HandleAppend(n, r).1.success
    ensures r.term >= n.term && !HandleAppend(n, r).1.success ==> HandleAppend(n, r).0 == Heard(n, r)
    ensures r.term >= n.term && n.disk == Disk(n.term, n.votedFor, n.log) ==> Quiet(n, Heard(n, r))
  {
    hide Merge, ApplyCommitted;
  }

  lemma FollowerKeepsInv(c: Cluster, h: History, l: NodeId, p: NodeId)
    requires Inv(c, h) && Enabled(c, AppendRpc(l, p))
    ensures var c' := SetNode(c, p, HandleAppend(c.nodes[p], AppendRequestFor(l, c.nodes[l], p)).0);
            Inv(c', if AppendAccepted(c, l, p) then StoredHistory(h, p, c.nodes[l]) else h)
  {
    InvDisk(c, h, p);
    var r := AppendRequestFor(l, c.nodes[l], p);
    NotAccepted(c.nodes[p], r);
    hide Inv, HandleAppend, Heard, StoredHistory;
    var c' := SetNode(c, p, HandleAppend(c.nodes[p], r).0);
    if r.term < c.nodes[p].term {
      assert c'.nodes == c.nodes;
    } else if AppendAccepted(c, l, p) {
      FollowerAcceptsKeepsInv(c, h, l, p);
    } else {
      QuietNodeKeepsInv(c, h, p, Heard(c.nodes[p], r));
    }
  }

  lemma AppendKeepsInv(rule: AckRule, c: Cluster, h: History, l: NodeId, p: NodeId)
    requires Inv(c, h) && Enabled(c, AppendRpc(l, p))
    ensures var c' := Next(rule, c, AppendRpc(l, p)); Inv(c', Record(c, c', h, AppendRpc(l, p)))
  {
    hide Inv;
    FollowerKeepsInv(c, h, l, p);
    var (follower, reply) := HandleAppend(c.nodes[p], AppendRequestFor(l, c.nodes[l], p));
    var c1 := SetNode(c, p, follower);
    var h' := if AppendAccepted(c, l, p) then StoredHistory(h, p, c.nodes[l]) else h;
    InvDisk(c1, h', l);
    QuietNodeKeepsInv(c1, h', l, ReceiveAppend(rule, c1.nodes[l], p, NextFor(c.nodes[l], p), reply));
  }

  // ---------------------------------------------------------------- all steps

  lemma InvDisks(c: Cluster, h: History)
    requires Inv(c, h)
    ensures DiskOk(c)
  {
  }

  lemma QuietNodes(c: Cluster, a: Action)
    requires (a.Advance? && a.leader in c.nodes) || (a.Apply? && a.id in c.nodes)
    ensures a.Advance? ==> var n := AdvanceCommit(c.nodes[a.leader], c.nodes.Keys - {a.leader}); n == c.nodes[a.leader].(commit := n.commit)
    ensures a.Apply? ==> var n := ApplyCommitted(c.nodes[a.id]); n == c.nodes[a.id].(applied := n.applied, lastApplied := n.lastApplied)
  {
  }

  lemma QuietActionKeepsInv(rule: AckRule, c: Cluster, h: History, a: Action)
    requires Inv(c, h) && Enabled(c, a) && !a.Timeout? && !a.VoteRpc? && !a.AppendRpc? && !a.Propose?
    ensures Inv(Next(rule, c, a), h)
  {
    InvDisks(c, h);
    hide Inv, ApplyCommitted, AdvanceCommit;
    if a.Advance? || a.Apply? { QuietNodes(c, a); }
    assert QuietStep(c, Next(rule, c, a));
    QuietKeepsInv(c, Next(rule, c, a), h);
  }

  /** The invariant holds after any enabled action, under either acknowledgement rule. */
  lemma StepKeepsInv(rule: AckRule, c: Cluster, h: History, a: Action)
    requires Inv(c, h) && Enabled(c, a)
    ensures Inv(Next(rule, c, a), Record(c, Next(rule, c, a), h, a))
  {
    match a
    case Timeout(i) => TimeoutKeepsInv(rule, c, h, i);
    case VoteRpc(r, p) => VoteKeepsInv(rule, c, h, r, p);
    case AppendRpc(l, p) => AppendKeepsInv(rule, c, h, l, p);
    case Propose(l, command) =>
      InvNode(c, h, l);
      ProposeKeepsInv(c, h, Next(rule, c, a), Record(c, Next(rule, c, a), h, a), l, command);
    case _ => QuietActionKeepsInv(rule, c, h, a);
  }

  /** Elections never change winner and nothing stored is forgotten. */
  ghost predicate Continues(h: History, h': History) {
    Grows(h, h')
    && forall v, t | (v, t) in h.stored :: (v, t) in h'.stored && h.stored[(v, t)] <= h'.stored[(v, t)]
  }

  lemma VoteContinues(rule: AckRule, c: Cluster, h: History, r: VoteRequest, p: NodeId)
    requires StoredOk(c, h) && Enabled(c, VoteRpc(r, p))
    ensures Continues(h, Record(c, Next(rule, c, VoteRpc(r, p)), h, VoteRpc(r, p)))
  {
    var c' := Next(rule, c, VoteRpc(r, p));
    var h1 := RecordBallot(c, h, r, p);
    WinContinues(c, c', h1, r.candidate);
  }

  lemma WinContinues(c: Cluster, c': Cluster, h: History, i: NodeId)
    requires i in c.nodes && i in c'.nodes
    requires (i, c'.nodes[i].term) in h.stored ==> c'.nodes[i].term in h.elections
    ensures Continues(h, RecordWin(c', h, i))
  {
  }

  lemma AppendContinues(rule: AckRule, c: Cluster, h: History, l: NodeId, p: NodeId)
    requires StoredOk(c, h) && Enabled(c, AppendRpc(l, p)) && NodeOk(c, h, l)
    ensures Continues(h, Record(c, Next(rule, c, AppendRpc(l, p)), h, AppendRpc(l, p)))
  {
  }

  lemma ProposeContinues(rule: AckRule, c: Cluster, h: History, l: NodeId, command: Command)
    requires Enabled(c, Propose(l, command)) && NodeOk(c, h, l)
    ensures Continues(h, Record(c, Next(rule, c, Propose(l, command)), h, Propose(l, command)))
  {
  }

  lemma StepContinues(rule: AckRule, c: Cluster, h: History, a: Action)
    requires Inv(c, h) && Enabled(c, a)
    ensures Continues(h, Record(c, Next(rule, c, a), h, a))
  {
    hide NodeOk, Continues;
    match a
    case AppendRpc(l, p) => InvNode(c, h, l); AppendContinues(rule, c, h, l, p);
    case Propose(l, command) => InvNode(c, h, l); ProposeContinues(rule, c, h, l, command);
    case VoteRpc(r, p) => VoteContinues(rule, c, h, r, p);
    case _ => OtherContinues(rule, c, h, a);
  }

  lemma OtherContinues(rule: AckRule, c: Cluster, h: History, a: Action)
    requires Enabled(c, a) && !a.VoteRpc? && !a.AppendRpc? && !a.Propose?
    ensures Continues(h, Record(c, Next(rule, c, a), h, a))
  {
  }

  // ---------------------------------------------------------------- runs

  function HistoryAfter(rule: AckRule, c: Cluster, h: History, actions: seq<Action>): History
    requires Runs(rule, c, actions)
    decreases |actions|
  {
    if actions == [] then h
    else HistoryAfter(rule, Next(rule, c, actions[0]), Record(c, Next(rule, c, actions[0]), h, actions[0]), actions[1..])
  }

  lemma ContinuesSelf(h: History)
    ensures Continues(h, h)
  {
  }

  /** The invariant holds at the end of every run, and history only grows. */
  lemma {:induction false} RunKeepsInv(rule: AckRule, c: Cluster, h: History, actions: seq<Action>)
    requires Inv(c, h) && Runs(rule, c, actions)
    ensures Inv(After(rule, c, actions), HistoryAfter(rule, c, h, actions))
    ensures Continues(h, HistoryAfter(rule, c, h, actions))
    decreases |actions|
  {
    hide Inv, Continues, Enabled, Record;
    ContinuesSelf(h);
    if actions != [] {
      var c' := Next(rule, c, actions[0]);
      var h' := Record(c, c', h, actions[0]);
      StepKeepsInv(rule, c, h, actions[0]);
      StepContinues(rule, c, h, actions[0]);
      RunKeepsInv(rule, c', h', actions[1..]);
      ContinuesOn(h, h', HistoryAfter(rule, c', h', actions[1..]));
    }
  }

  lemma ContinuesOn(a: History, b: History, c: History)
    requires Continues(a, b) && Continues(b, c)
    ensures Continues(a, c)
  {
    forall t | t in a.elections
      ensures Agree(a.elections[t].log, c.elections[t].log, |a.elections[t].log|)
      ensures forall j | |a.elections[t].log| <= j < |c.elections[t].log| :: c.elections[t].log[j].term == t
    {
      assert Agree(a.elections[t].log, b.elections[t].log, |a.elections[t].log|);
      assert Agree(b.elections[t].log, c.elections[t].log, |b.elections[t].log|);
      forall j | |a.elections[t].log| <= j < |c.elections[t].log| ensures c.elections[t].log[j].term == t {
        if j < |b.elections[t].log| { assert c.elections[t].log[j] == b.elections[t].log[j]; }
      }
    }
  }
}
