/** What Raft promises: one leader per term, matching logs, committed entries in every later
    leader, and one sequence of applied commands. */
module RaftSafety {
  import opened RaftProtocol
  import opened RaftInvariant
  import opened RaftSteps
  import opened RaftAppendSteps
  import opened RaftRuns

  // ---------------------------------------------------------------- under either acknowledgement rule

  lemma RunFromStart(rule: AckRule, ids: set<NodeId>, actions: seq<Action>)
    requires Runs(rule, Initial(ids), actions)
    ensures Inv(After(rule, Initial(ids), actions), HistoryAfter(rule, Initial(ids), EmptyHistory(), actions))
  {
    InvInitially(ids);
    RunKeepsInv(rule, Initial(ids), EmptyHistory(), actions);
  }

  /** Election Safety: a leader now and a leader at any later point, in the same term, are the same node. */
  lemma ElectionSafety(rule: AckRule, ids: set<NodeId>, first: seq<Action>, second: seq<Action>, i: NodeId, j: NodeId)
    requires Runs(rule, Initial(ids), first)
    requires var a := After(rule, Initial(ids), first);
             Runs(rule, a, second) && i in a.nodes && j in After(rule, a, second).nodes
    requires var a := After(rule, Initial(ids), first);
             var b := After(rule, a, second);
             a.nodes[i].role == Leader && b.nodes[j].role == Leader && a.nodes[i].term == b.nodes[j].term
    ensures i == j
  {
    hide Inv, CandidateOk, TermsUpTo, Sound;
    RunFromStart(rule, ids, first);
    var a := After(rule, Initial(ids), first);
    var h := HistoryAfter(rule, Initial(ids), EmptyHistory(), first);
    RunKeepsInv(rule, a, h, second);
    InvNode(a, h, i);
    InvNode(After(rule, a, second), HistoryAfter(rule, a, h, second), j);
  }

  /** Log Matching: in any reachable state, two logs with the same term at an index are the same up to it. */
  lemma LogMatching(rule: AckRule, ids: set<NodeId>, actions: seq<Action>, i: NodeId, j: NodeId, index: nat)
    requires Runs(rule, Initial(ids), actions)
    requires var c := After(rule, Initial(ids), actions);
             i in c.nodes && j in c.nodes && index < |c.nodes[i].log| && index < |c.nodes[j].log|
             && c.nodes[i].log[index].term == c.nodes[j].log[index].term
    ensures var c := After(rule, Initial(ids), actions);
            c.nodes[i].log[..index + 1] == c.nodes[j].log[..index + 1]
  {
    hide Inv, CandidateOk, LeaderOk, TermsUpTo, Sound;
    RunFromStart(rule, ids, actions);
    var c := After(rule, Initial(ids), actions);
    var h := HistoryAfter(rule, Initial(ids), EmptyHistory(), actions);
    InvNode(c, h, i);
    InvNode(c, h, j);
    SameTermSamePrefix(c.nodes[i].log, c.nodes[j].log, h, index);
  }

  // ---------------------------------------------------------------- chosen entries

  function Supporters(h: History, ids: set<NodeId>, t: nat, k: nat): set<NodeId> {
    set v | v in ids && (v, t) in h.stored && h.stored[(v, t)] >= k
  }

  /** A majority has taken over the first `k` entries of term `t`'s leader, the last of them its own. */
  ghost predicate Chosen(h: History, ids: set<NodeId>, t: nat, k: nat) {
    Own(h, t, k) && |Supporters(h, ids, t, k)| >= Majority(|ids|)
  }

  lemma ChosenStays(h: History, h': History, ids: set<NodeId>, t: nat, k: nat)
    requires Continues(h, h') && Chosen(h, ids, t, k)
    ensures Chosen(h', ids, t, k) && Agree(h.elections[t].log, h'.elections[t].log, k)
  {
    assert Agree(h.elections[t].log, h'.elections[t].log, |h.elections[t].log|);
    SubsetSize(Supporters(h, ids, t, k), Supporters(h', ids, t, k));
  }

  lemma LastTermBound(log: Log, i: nat)
    requires Monotone(log) && i < |log|
    ensures log[i].term <= LastTerm(log)
  {
  }

  /** A log at least as up to date as one holding a chosen prefix holds it too, if the leaders in between do. */
  lemma UpToDateHas(h: History, t: nat, k: nat, end: nat, bid: Log, voted: Log)
    requires Own(h, t, k) && Has(h, t, k, voted) && t < end && LeadersBetweenHave(h, t, end, k)
    requires Sound(bid, h) && Sound(voted, h) && TermsUpTo(bid, end - 1) && Monotone(h.elections[t].log)
    requires UpToDate(|bid| - 1, LastTerm(bid), voted)
    ensures Has(h, t, k, bid)
  {
    var leader := h.elections[t].log;
    assert voted[k - 1] == leader[k - 1];
    LastTermBound(voted, k - 1);
    assert bid != [];
    var s := LastTerm(bid);
    assert AnchoredAt(bid, h, |bid| - 1) && AnchoredAt(voted, h, |voted| - 1);
    if s == LastTerm(voted) {
      assert Agree(voted, h.elections[s].log, |voted|) && Agree(bid, h.elections[s].log, |bid|);
    } else {
      assert Has(h, t, k, h.elections[s].log);
      var m := Min(|bid|, k);
      assert bid[m - 1] == leader[m - 1] && leader[m - 1].term <= t;
      assert |bid| >= k;
    }
  }

  lemma InvElection(c: Cluster, h: History, t: nat)
    requires Inv(c, h) && t in h.elections
    ensures ElectionOk(c, h, t)
  {
  }

  lemma InvBallot(c: Cluster, h: History, v: NodeId, t: nat, end: nat, k: nat)
    requires Inv(c, h) && end in h.elections && v in h.elections[end].quorum
    requires (v, end) in h.ballots && h.ballots[(v, end)].candidate == h.elections[end].leader
    ensures BallotKeeps(h, v, t, end, k) && BallotOk(h, v, end) && BidOk(c, h, h.elections[end].leader, end)
  {
    assert BallotOk(h, v, end);
  }

  /** Every leader of a later term holds what was chosen. */
  lemma {:induction false} LaterLeadersHave(c: Cluster, h: History, t: nat, k: nat, end: nat)
    requires Inv(c, h) && Chosen(h, c.nodes.Keys, t, k) && t < end && end in h.elections
    ensures Has(h, t, k, h.elections[end].log)
    decreases end
  {
    hide Inv;
    forall u | t < u < end && u in h.elections ensures Has(h, t, k, h.elections[u].log) {
      LaterLeadersHave(c, h, t, k, u);
    }
    InvElection(c, h, t);
    InvElection(c, h, end);
    var e := h.elections[end];
    var v := MajoritiesMeet(c.nodes.Keys, Supporters(h, c.nodes.Keys, t, k), e.quorum);
    InvBallot(c, h, v, t, end, k);
    UpToDateHas(h, t, k, end, h.bids[(e.leader, end)], h.ballots[(v, end)].log);
  }

  // ---------------------------------------------------------------- commit and apply

  ghost predicate CommittedBy(h: History, ids: set<NodeId>, log: Log, count: nat, t: nat, k: nat) {
    Chosen(h, ids, t, k) && count <= k && Agree(log, h.elections[t].log, count)
  }

  /** The first `count` entries of `log` were chosen in some term up to `bound`. */
  ghost predicate Committed(h: History, ids: set<NodeId>, log: Log, count: nat, bound: nat) {
    exists t: nat, k: nat :: t <= bound && CommittedBy(h, ids, log, count, t, k)
  }

  ghost predicate ProgressOk(h: History, ids: set<NodeId>, n: Node) {
    && n.lastApplied <= n.commit < |n.log|
    && (n.commit >= 0 ==> Committed(h, ids, n.log, n.commit + 1, n.term))
    && n.applied == CommandsOf(n.log[..n.lastApplied + 1])
  }

  /** A leader's match indexes are true and its next indexes are within its log. */
  ghost predicate MatchOk(h: History, i: NodeId, n: Node) {
    n.role == Leader ==>
      && (forall p | p in n.matchIndex && p != i && n.matchIndex[p] >= 0 ::
            (p, n.term) in h.stored && n.matchIndex[p] < h.stored[(p, n.term)])
      && (forall p | p in n.nextIndex :: n.nextIndex[p] <= |n.log|)
  }

  ghost predicate Progress(c: Cluster, h: History) {
    forall i | i in c.nodes :: ProgressOk(h, c.nodes.Keys, c.nodes[i]) && MatchOk(h, i, c.nodes[i])
  }

  /** The acknowledgement, if any, does not exceed the leader's log. */
  predicate Honest(rule: AckRule, c: Cluster, a: Action)
    requires Enabled(c, a)
  {
    rule == Clamped || (a.AppendRpc? && AppendAccepted(c, a.leader, a.peer) ==>
      |HandleAppend(c.nodes[a.peer], AppendRequestFor(a.leader, c.nodes[a.leader], a.peer)).0.log| <= |c.nodes[a.leader].log|)
  }

  predicate HonestRun(rule: AckRule, c: Cluster, actions: seq<Action>)
    requires Runs(rule, c, actions)
    decreases |actions|
  {
    actions == [] || (Honest(rule, c, actions[0]) && HonestRun(rule, Next(rule, c, actions[0]), actions[1..]))
  }

  lemma {:induction false} ClampedIsHonest(c: Cluster, actions: seq<Action>)
    requires Runs(Clamped, c, actions)
    ensures HonestRun(Clamped, c, actions)
    decreases |actions|
  {
    if actions != [] { ClampedIsHonest(Next(Clamped, c, actions[0]), actions[1..]); }
  }

  lemma CommittedStays(h: History, h': History, ids: set<NodeId>, log: Log, log': Log, count: nat, bound: nat, bound': nat)
    requires Continues(h, h') && Committed(h, ids, log, count, bound) && bound <= bound' && Agree(log, log', count)
    ensures Committed(h', ids, log', count, bound')
  {
    var t: nat, k: nat :| t <= bound && CommittedBy(h, ids, log, count, t, k);
    ChosenStays(h, h', ids, t, k);
    assert CommittedBy(h', ids, log', count, t, k);
  }

  /** Progress carries over when the log keeps what was committed and nothing new is. */
  lemma ProgressStays(h: History, h': History, ids: set<NodeId>, n: Node, n': Node)
    requires Continues(h, h') && ProgressOk(h, ids, n) && n.term <= n'.term
    requires n'.commit == n.commit && n'.lastApplied == n.lastApplied && n'.applied == n.applied
    requires |n'.log| > n.commit && Agree(n.log, n'.log, n.commit + 1)
    ensures ProgressOk(h', ids, n')
  {
    assert n'.log[..n.lastApplied + 1] == n.log[..n.lastApplied + 1];
    if n.commit >= 0 {
      CommittedStays(h, h', ids, n.log, n'.log, n.commit + 1, n.term, n'.term);
    }
  }

  lemma MatchStays(h: History, h': History, i: NodeId, n: Node)
    requires Continues(h, h') && MatchOk(h, i, n)
    ensures MatchOk(h', i, n)
  {
  }

  lemma ApplyProgress(h: History, ids: set<NodeId>, n: Node, commit: Index)
    requires ProgressOk(h, ids, n) && n.commit <= commit < |n.log|
    requires commit >= 0 ==> Committed(h, ids, n.log, commit + 1, n.term)
    ensures ProgressOk(h, ids, ApplyCommitted(n.(commit := commit)))
  {
    hide Committed;
    var log := n.log;
    assert log[..commit + 1] == log[..n.lastApplied + 1] + log[n.lastApplied + 1..commit + 1];
    assert CommandsOf(log[..commit + 1]) == CommandsOf(log[..n.lastApplied + 1]) + CommandsOf(log[n.lastApplied + 1..commit + 1]);
  }

  /** What a node has committed survives taking over the log of a leader of its term or a later one. */
  lemma CommitSurvivesMerge(c: Cluster, h: History, log: Log, count: nat, bound: nat, t: nat)
    requires Inv(c, h) && Committed(h, c.nodes.Keys, log, count, bound) && bound <= t && t in h.elections
    ensures Agree(log, Merged(log, h.elections[t].log), count)
  {
    hide Inv;
    var u: nat, k: nat :| u <= bound && CommittedBy(h, c.nodes.Keys, log, count, u, k);
    if u < t {
      LaterLeadersHave(c, h, u, k, t);
    }
  }

  lemma AcceptProgress(c: Cluster, h: History, h': History, l: NodeId, p: NodeId)
    requires Inv(c, h) && Progress(c, h) && Enabled(c, AppendRpc(l, p)) && AppendAccepted(c, l, p) && Continues(h, h')
    ensures ProgressOk(h', c.nodes.Keys, HandleAppend(c.nodes[p], AppendRequestFor(l, c.nodes[l], p)).0)
  {
    hide Inv, ProgressOk, MatchOk;
    var ids := c.nodes.Keys;
    var n := c.nodes[p];
    var leader := c.nodes[l];
    var r := AppendRequestFor(l, leader, p);
    InvNode(c, h, l);
    InvNode(c, h, p);
    assert ProgressOk(h, ids, n) && ProgressOk(h, ids, leader);
    AcceptedNode(n, r);
    AcceptedLog(c, h, l, p);
    AcceptProgressOn(c, h, h', n, leader, r);
  }

  /** What an accepted append does to the node, given the merged log. */
  lemma AcceptedIs(n: Node, r: AppendRequest, merged: Node)
    requires HandleAppend(n, r).1.success
    requires merged == Heard(n, r).(log := Merge(n.log, r.prevIndex + 1, r.entries)) || !Matches(n.log, r.prevIndex, r.prevTerm)
    ensures Matches(n.log, r.prevIndex, r.prevTerm) && merged.term == r.term && merged.commit == n.commit
    ensures merged.lastApplied == n.lastApplied && merged.applied == n.applied
    ensures HandleAppend(n, r).0 == Persist(
      if r.leaderCommit > n.commit then ApplyCommitted(merged.(commit := Min(r.leaderCommit, |merged.log| - 1))) else merged)
  {
    hide Merge, ApplyCommitted, CommandsOf;
  }

  lemma AcceptProgressOn(c: Cluster, h: History, h': History, n: Node, leader: Node, r: AppendRequest)
    requires Inv(c, h) && ProgressOk(h, c.nodes.Keys, n) && ProgressOk(h, c.nodes.Keys, leader) && Continues(h, h')
    requires leader.term in h.elections && h.elections[leader.term].log == leader.log
    requires r.term == leader.term && r.leaderCommit == leader.commit && HandleAppend(n, r).1.success
    requires n.term <= r.term
    requires Matches(n.log, r.prevIndex, r.prevTerm) && Merge(n.log, r.prevIndex + 1, r.entries) == Merged(n.log, leader.log)
    ensures ProgressOk(h', c.nodes.Keys, HandleAppend(n, r).0)
  {
    hide Inv, ProgressOk, Committed, Continues, HandleAppend, ApplyCommitted;
    var ids := c.nodes.Keys;
    var merged := Heard(n, r).(log := Merged(n.log, leader.log));
    AcceptedIs(n, r, merged);
    MergedProgress(c, h, h', n, merged, leader);
    if r.leaderCommit > n.commit {
      LeaderCommitProgress(h, h', ids, merged, leader);
      PersistProgress(h', ids, ApplyCommitted(merged.(commit := leader.commit)));
    } else {
      PersistProgress(h', ids, merged);
    }
  }

  lemma PersistProgress(h: History, ids: set<NodeId>, n: Node)
    requires ProgressOk(h, ids, n)
    ensures ProgressOk(h, ids, Persist(n))
  {
  }

  lemma MergedProgress(c: Cluster, h: History, h': History, n: Node, merged: Node, leader: Node)
    requires Inv(c, h) && ProgressOk(h, c.nodes.Keys, n) && Continues(h, h') && n.term <= leader.term
    requires leader.term in h.elections && h.elections[leader.term].log == leader.log
    requires merged.term == leader.term && merged.log == Merged(n.log, leader.log)
    requires merged.commit == n.commit && merged.lastApplied == n.lastApplied && merged.applied == n.applied
    ensures ProgressOk(h', c.nodes.Keys, merged)
  {
    hide Inv;
    if n.commit >= 0 {
      CommitSurvivesMerge(c, h, n.log, n.commit + 1, n.term, leader.term);
    }
    ProgressStays(h, h', c.nodes.Keys, n, merged);
  }

  lemma LeaderCommitProgress(h: History, h': History, ids: set<NodeId>, merged: Node, leader: Node)
    requires Continues(h, h') && ProgressOk(h', ids, merged) && ProgressOk(h, ids, leader)
    requires merged.term == leader.term && leader.commit > merged.commit && leader.log <= merged.log
    ensures |merged.log| - 1 >= leader.commit && ProgressOk(h', ids, ApplyCommitted(merged.(commit := leader.commit)))
  {
    assert Agree(leader.log, merged.log, leader.commit + 1);
    CommittedStays(h, h', ids, leader.log, merged.log, leader.commit + 1, leader.term, leader.term);
    ApplyProgress(h', ids, merged, leader.commit);
  }

  ghost predicate NodeProgress(h: History, ids: set<NodeId>, i: NodeId, n: Node) {
    ProgressOk(h, ids, n) && MatchOk(h, i, n)
  }

  /** A node that keeps its log and commit position keeps its progress. */
  lemma NodeCarries(h: History, h': History, ids: set<NodeId>, i: NodeId, n: Node, n': Node)
    requires Continues(h, h') && NodeProgress(h, ids, i, n)
    requires n'.log == n.log && n'.commit == n.commit && n'.lastApplied == n.lastApplied && n'.applied == n.applied
    requires n.term <= n'.term
    requires n'.role == Leader ==>
               n.role == Leader && n'.term == n.term && n'.matchIndex == n.matchIndex && n'.nextIndex == n.nextIndex
    ensures NodeProgress(h', ids, i, n')
  {
    ProgressStays(h, h', ids, n, n');
  }

  lemma VoterProgress(h: History, h': History, ids: set<NodeId>, i: NodeId, n: Node, r: VoteRequest)
    requires Continues(h, h') && NodeProgress(h, ids, i, n)
    ensures NodeProgress(h', ids, i, HandleVote(n, r).0)
  {
    hide Continues, NodeProgress;
    NodeCarries(h, h', ids, i, n, HandleVote(n, r).0);
  }

  lemma CandidateProgress(h: History, h': History, ids: set<NodeId>, i: NodeId, n: Node, p: NodeId, r: VoteReply)
    requires Continues(h, h') && NodeProgress(h, ids, i, n)
    ensures NodeProgress(h', ids, i, ReceiveVote(i, ids - {i}, n, p, r))
  {
    var n' := ReceiveVote(i, ids - {i}, n, p, r);
    if n'.role == Leader && n.role != Leader {
      ProgressStays(h, h', ids, n, n');
    } else {
      NodeCarries(h, h', ids, i, n, n');
    }
  }

  lemma OthersCarry(c: Cluster, h: History, c': Cluster, h': History, changed: set<NodeId>)
    requires Progress(c, h) && Continues(h, h') && c'.nodes.Keys == c.nodes.Keys
    requires forall i | i in c.nodes && i !in changed :: c'.nodes[i] == c.nodes[i]
    requires forall i | i in c.nodes && i in changed :: NodeProgress(h', c.nodes.Keys, i, c'.nodes[i])
    ensures Progress(c', h')
  {
    hide ProgressOk, MatchOk, Continues;
    forall i | i in c.nodes ensures NodeProgress(h', c.nodes.Keys, i, c'.nodes[i]) {
      if i !in changed {
        assert NodeProgress(h, c.nodes.Keys, i, c.nodes[i]);
        NodeCarries(h, h', c.nodes.Keys, i, c.nodes[i], c.nodes[i]);
      }
    }
  }

  lemma VoteProgress(rule: AckRule, c: Cluster, h: History, h': History, r: VoteRequest, p: NodeId)
    requires Progress(c, h) && Enabled(c, VoteRpc(r, p)) && Continues(h, h')
    ensures Progress(Next(rule, c, VoteRpc(r, p)), h')
  {
    hide ProgressOk, MatchOk, Continues;
    var ids := c.nodes.Keys;
    var i := r.candidate;
    assert NodeProgress(h, ids, i, c.nodes[i]) && NodeProgress(h, ids, p, c.nodes[p]);
    var (voter, reply) := HandleVote(c.nodes[p], r);
    VoterProgress(h, h', ids, p, c.nodes[p], r);
    assert SetNode(c, p, voter).nodes.Keys == ids;
    CandidateProgress(h, h', ids, i, c.nodes[i], p, reply);
    OthersCarry(c, h, Next(rule, c, VoteRpc(r, p)), h', {i, p});
  }

  lemma FollowerProgress(c: Cluster, h: History, h': History, l: NodeId, p: NodeId)
    requires Inv(c, h) && Progress(c, h) && Enabled(c, AppendRpc(l, p)) && Continues(h, h')
    ensures NodeProgress(h', c.nodes.Keys, p, HandleAppend(c.nodes[p], AppendRequestFor(l, c.nodes[l], p)).0)
  {
    hide Inv, ProgressOk, Continues;
    var r := AppendRequestFor(l, c.nodes[l], p);
    assert NodeProgress(h, c.nodes.Keys, p, c.nodes[p]);
    if AppendAccepted(c, l, p) {
      AcceptProgress(c, h, h', l, p);
      AcceptedNode(c.nodes[p], r);
    } else {
      NodeCarries(h, h', c.nodes.Keys, p, c.nodes[p], HandleAppend(c.nodes[p], r).0);
    }
  }

  /** The leader's side: an honest acknowledgement is a true match index. */
  lemma LeaderProgress(rule: AckRule, c: Cluster, h: History, l: NodeId, p: NodeId)
    requires Inv(c, h) && Progress(c, h) && Enabled(c, AppendRpc(l, p)) && Honest(rule, c, AppendRpc(l, p))
    requires Continues(h, Record(c, Next(rule, c, AppendRpc(l, p)), h, AppendRpc(l, p)))
    ensures var h' := Record(c, Next(rule, c, AppendRpc(l, p)), h, AppendRpc(l, p));
            var reply := HandleAppend(c.nodes[p], AppendRequestFor(l, c.nodes[l], p)).1;
            NodeProgress(h', c.nodes.Keys, l, ReceiveAppend(rule, c.nodes[l], p, NextFor(c.nodes[l], p), reply))
  {
    hide Inv, Continues, ProgressOk;
    var h' := Record(c, Next(rule, c, AppendRpc(l, p)), h, AppendRpc(l, p));
    var r := AppendRequestFor(l, c.nodes[l], p);
    var reply := HandleAppend(c.nodes[p], r).1;
    var n := c.nodes[l];
    var n' := ReceiveAppend(rule, n, p, NextFor(n, p), reply);
    assert NodeProgress(h, c.nodes.Keys, l, n);
    NodeCarries(h, h', c.nodes.Keys, l, n, n.(role := Follower, term := n'.term));
    if reply.success {
      AcceptedNode(c.nodes[p], r);
    }
    LeaderMatch(rule, h, h', l, p, n, n', reply);
    LeaderKeepsProgress(h', c.nodes.Keys, n.(role := Follower, term := n'.term), n');
  }

  lemma LeaderKeepsProgress(h: History, ids: set<NodeId>, n: Node, n': Node)
    requires ProgressOk(h, ids, n)
    requires n'.log == n.log && n'.commit == n.commit && n'.lastApplied == n.lastApplied && n'.applied == n.applied && n'.term == n.term
    ensures ProgressOk(h, ids, n')
  {
  }

  lemma LeaderMatch(rule: AckRule, h: History, h': History, l: NodeId, p: NodeId, n: Node, n': Node, reply: AppendReply)
    requires MatchOk(h, l, n) && NextFor(n, p) <= |n.log| && n' == ReceiveAppend(rule, n, p, NextFor(n, p), reply) && l != p
    requires Continues(h, h')
    requires reply.success ==> (p, n.term) in h'.stored && h'.stored[(p, n.term)] == |n.log|
    requires reply.success && rule == AsWritten ==> reply.matchIndex < |n.log|
    ensures MatchOk(h', l, n')
  {
  }

  lemma AppendProgress(rule: AckRule, c: Cluster, h: History, l: NodeId, p: NodeId)
    requires Inv(c, h) && Progress(c, h) && Enabled(c, AppendRpc(l, p)) && Honest(rule, c, AppendRpc(l, p))
    ensures Progress(Next(rule, c, AppendRpc(l, p)), Record(c, Next(rule, c, AppendRpc(l, p)), h, AppendRpc(l, p)))
  {
    hide Inv, Continues, NodeProgress, Progress;
    var a := AppendRpc(l, p);
    StepContinues(rule, c, h, a);
    FollowerProgress(c, h, Record(c, Next(rule, c, a), h, a), l, p);
    LeaderProgress(rule, c, h, l, p);
    OthersCarry(c, h, Next(rule, c, a), Record(c, Next(rule, c, a), h, a), {l, p});
  }

  lemma {:induction false} CommitBelowIs(n: Node, peers: set<NodeId>, end: nat)
    requires end <= |n.log|
    ensures var r := CommitBelow(n, peers, end);
            r == n.commit || (n.commit < r < end && Committable(n, peers, r))
    decreases end
  {
    if end > n.commit + 1 && !Committable(n, peers, end - 1) { CommitBelowIs(n, peers, end - 1); }
  }

  /** The current-term commit rule picks only entries a majority has. */
  lemma CommitRuleIsSafe(h: History, ids: set<NodeId>, l: NodeId, n: Node, index: nat)
    requires l in ids && n.role == Leader && index < |n.log| && Committable(n, ids - {l}, index)
    requires MatchOk(h, l, n) && n.term in h.elections && h.elections[n.term].log == n.log
    requires (l, n.term) in h.stored && h.stored[(l, n.term)] == |n.log|
    ensures Committed(h, ids, n.log, index + 1, n.term)
  {
    var holders := Holders(n, ids - {l}, index);
    assert |ids - {l}| + 1 == |ids|;
    SubsetSize(holders + {l}, Supporters(h, ids, n.term, index + 1));
    assert CommittedBy(h, ids, n.log, index + 1, n.term, index + 1);
  }

  lemma LeaderAdvances(h: History, ids: set<NodeId>, l: NodeId, n: Node)
    requires l in ids && NodeProgress(h, ids, l, n)
    requires n.role == Leader ==>
               n.term in h.elections && h.elections[n.term].log == n.log && (l, n.term) in h.stored && h.stored[(l, n.term)] == |n.log|
    ensures NodeProgress(h, ids, l, AdvanceCommit(n, ids - {l}))
  {
    hide Committed, Supporters;
    var n' := AdvanceCommit(n, ids - {l});
    if n.role == Leader && n'.commit != n.commit {
      CommitBelowIs(n, ids - {l}, |n.log|);
      CommitRuleIsSafe(h, ids, l, n, n'.commit);
    }
  }

  lemma AdvanceProgress(rule: AckRule, c: Cluster, h: History, l: NodeId)
    requires Inv(c, h) && Progress(c, h) && l in c.nodes
    ensures Progress(Next(rule, c, Advance(l)), h)
  {
    hide Inv, Continues, ProgressOk, MatchOk, AdvanceCommit, Sound, TermsUpTo, CandidateOk;
    InvNode(c, h, l);
    assert NodeProgress(h, c.nodes.Keys, l, c.nodes[l]);
    LeaderAdvances(h, c.nodes.Keys, l, c.nodes[l]);
    ContinuesSelf(h);
    OthersCarry(c, h, Next(rule, c, Advance(l)), h, {l});
  }

  lemma ApplyNodeProgress(h: History, ids: set<NodeId>, i: NodeId, n: Node)
    requires NodeProgress(h, ids, i, n)
    ensures NodeProgress(h, ids, i, ApplyCommitted(n))
  {
    ApplyKeepsLog(n);
    hide ApplyCommitted, Committed;
    assert n.(commit := n.commit) == n;
    ApplyProgress(h, ids, n, n.commit);
  }

  lemma ApplyStepProgress(rule: AckRule, c: Cluster, h: History, i: NodeId)
    requires Progress(c, h) && i in c.nodes
    ensures Progress(Next(rule, c, Apply(i)), h)
  {
    hide Committed;
    ContinuesSelf(h);
    assert NodeProgress(h, c.nodes.Keys, i, c.nodes[i]);
    ApplyNodeProgress(h, c.nodes.Keys, i, c.nodes[i]);
    hide NodeProgress, Progress, ApplyCommitted;
    OthersCarry(c, h, Next(rule, c, Apply(i)), h, {i});
  }

  lemma ProposeNodeProgress(h: History, h': History, ids: set<NodeId>, l: NodeId, n: Node, command: Command)
    requires NodeProgress(h, ids, l, n) && Continues(h, h')
    ensures NodeProgress(h', ids, l, AppendOwn(l, n, command))
  {
    ProgressStays(h, h', ids, n, AppendOwn(l, n, command));
    MatchStays(h, h', l, n);
    hide Continues, ProgressOk;
  }

  lemma ProposeProgress(rule: AckRule, c: Cluster, h: History, h': History, l: NodeId, command: Command)
    requires Progress(c, h) && Enabled(c, Propose(l, command)) && Continues(h, h')
    ensures Progress(Next(rule, c, Propose(l, command)), h')
  {
    var n := c.nodes[l];
    assert NodeProgress(h, c.nodes.Keys, l, n);
    ProposeNodeProgress(h, h', c.nodes.Keys, l, n, command);
    hide NodeProgress, Progress, Continues, AppendOwn;
    OthersCarry(c, h, Next(rule, c, Propose(l, command)), h', {l});
  }

  lemma SimpleProgress(rule: AckRule, c: Cluster, h: History, h': History, a: Action)
    requires Progress(c, h) && Enabled(c, a) && Continues(h, h') && (a.Timeout? || a.Block? || a.Heal? || a.Restart?)
    requires a.Restart? ==> c.nodes[a.id].disk.log == c.nodes[a.id].log
    ensures Progress(Next(rule, c, a), h')
  {
    hide Committed, Continues;
    match a
    case Timeout(i) =>
      NodeCarries(h, h', c.nodes.Keys, i, c.nodes[i], BeginElection(i, c.nodes[i]));
      OthersCarry(c, h, Next(rule, c, a), h', {i});
    case Restart(i) =>
      assert NodeProgress(h', c.nodes.Keys, i, Restarted(c.nodes[i].disk));
      OthersCarry(c, h, Next(rule, c, a), h', {i});
    case Block(_, _) => OthersCarry(c, h, Next(rule, c, a), h', {});
    case Heal => OthersCarry(c, h, Next(rule, c, a), h', {});
    case _ =>
  }

  /** Commit positions, applied commands and match indexes stay true after every honest step. */
  lemma StepKeepsProgress(rule: AckRule, c: Cluster, h: History, a: Action)
    requires Inv(c, h) && Progress(c, h) && Enabled(c, a) && Honest(rule, c, a)
    ensures Progress(Next(rule, c, a), Record(c, Next(rule, c, a), h, a))
  {
    hide Inv, Progress, Continues;
    StepContinues(rule, c, h, a);
    var h' := Record(c, Next(rule, c, a), h, a);
    match a
    case VoteRpc(r, p) => VoteProgress(rule, c, h, h', r, p);
    case AppendRpc(l, p) => AppendProgress(rule, c, h, l, p);
    case Advance(l) => AdvanceProgress(rule, c, h, l);
    case Apply(i) => ApplyStepProgress(rule, c, h, i);
    case Propose(l, command) => ProposeProgress(rule, c, h, h', l, command);
    case Restart(i) => InvDisk(c, h, i); SimpleProgress(rule, c, h, h', a);
    case _ => SimpleProgress(rule, c, h, h', a);
  }

  lemma {:induction false} RunKeepsProgress(rule: AckRule, c: Cluster, h: History, actions: seq<Action>)
    requires Inv(c, h) && Progress(c, h) && Runs(rule, c, actions) && HonestRun(rule, c, actions)
    ensures Progress(After(rule, c, actions), HistoryAfter(rule, c, h, actions))
    decreases |actions|
  {
    hide Inv, Progress;
    if actions != [] {
      StepKeepsInv(rule, c, h, actions[0]);
      StepKeepsProgress(rule, c, h, actions[0]);
      RunKeepsProgress(rule, Next(rule, c, actions[0]), Record(c, Next(rule, c, actions[0]), h, actions[0]), actions[1..]);
    }
  }

  // ---------------------------------------------------------------- the promises

  lemma HonestFromStart(rule: AckRule, ids: set<NodeId>, actions: seq<Action>)
    requires Runs(rule, Initial(ids), actions) && HonestRun(rule, Initial(ids), actions)
    ensures Progress(After(rule, Initial(ids), actions), HistoryAfter(rule, Initial(ids), EmptyHistory(), actions))
  {
    InvInitially(ids);
    assert Progress(Initial(ids), EmptyHistory());
    RunKeepsProgress(rule, Initial(ids), EmptyHistory(), actions);
  }

  lemma CommittedNowInLeaderLater(h: History, b: Cluster, h': History, n: Node, l: NodeId)
    requires Continues(h, h') && Inv(b, h') && ProgressOk(h, b.nodes.Keys, n)
    requires l in b.nodes && b.nodes[l].role == Leader && n.term <= b.nodes[l].term
    ensures n.commit < |n.log| && n.log[..n.commit + 1] <= b.nodes[l].log
  {
    hide Inv, Continues, Committed, CandidateOk, Sound, TermsUpTo;
    InvNode(b, h', l);
    if n.commit >= 0 {
      CommittedStays(h, h', b.nodes.Keys, n.log, n.log, n.commit + 1, n.term, n.term);
      CommittedInLeader(b, h', n.log, n.commit + 1, n.term, b.nodes[l].term);
    }
  }

  /** Leader Completeness: whatever any node has committed is in the log of every leader,
      then or later, of that node's term or a later one. */
  lemma LeaderCompleteness(rule: AckRule, ids: set<NodeId>, first: seq<Action>, second: seq<Action>, i: NodeId, l: NodeId)
    requires Runs(rule, Initial(ids), first) && HonestRun(rule, Initial(ids), first)
    requires var a := After(rule, Initial(ids), first);
             Runs(rule, a, second) && i in a.nodes && l in After(rule, a, second).nodes
    requires var a := After(rule, Initial(ids), first);
             var b := After(rule, a, second);
             b.nodes[l].role == Leader && a.nodes[i].term <= b.nodes[l].term
    ensures var a := After(rule, Initial(ids), first);
            var b := After(rule, a, second);
            a.nodes[i].commit < |a.nodes[i].log| && a.nodes[i].log[..a.nodes[i].commit + 1] <= b.nodes[l].log
  {
    hide Inv, Continues, NodeOk, ProgressOk, MatchOk;
    RunFromStart(rule, ids, first);
    HonestFromStart(rule, ids, first);
    var a := After(rule, Initial(ids), first);
    var h := HistoryAfter(rule, Initial(ids), EmptyHistory(), first);
    RunKeepsInv(rule, a, h, second);
    assert ProgressOk(h, a.nodes.Keys, a.nodes[i]);
    CommittedNowInLeaderLater(h, After(rule, a, second), HistoryAfter(rule, a, h, second), a.nodes[i], l);
  }

  lemma CommittedInLeader(c: Cluster, h: History, log: Log, count: nat, bound: nat, t: nat)
    requires Inv(c, h) && Committed(h, c.nodes.Keys, log, count, bound) && bound <= t && t in h.elections
    ensures Agree(log, h.elections[t].log, count)
  {
    hide Inv;
    var u: nat, k: nat :| u <= bound && CommittedBy(h, c.nodes.Keys, log, count, u, k);
    if u < t {
      LaterLeadersHave(c, h, u, k, t);
    }
  }

  /** Two committed prefixes never disagree. */
  lemma CommittedAgree(c: Cluster, h: History, a: Log, count: nat, bound: nat, a': Log, count': nat, bound': nat)
    requires Inv(c, h) && Committed(h, c.nodes.Keys, a, count, bound) && Committed(h, c.nodes.Keys, a', count', bound')
    requires count <= count'
    ensures Agree(a, a', count)
  {
    hide Inv;
    var u: nat, k: nat :| u <= bound && CommittedBy(h, c.nodes.Keys, a, count, u, k);
    var u': nat, k': nat :| u' <= bound' && CommittedBy(h, c.nodes.Keys, a', count', u', k');
    if u < u' {
      LaterLeadersHave(c, h, u, k, u');
    } else if u' < u {
      LaterLeadersHave(c, h, u', k', u);
    }
  }

  lemma AppliedAgree(h: History, b: Cluster, h': History, n: Node, m: Node)
    requires Continues(h, h') && Inv(b, h') && ProgressOk(h, b.nodes.Keys, n) && ProgressOk(h', b.nodes.Keys, m)
    ensures n.applied <= m.applied || m.applied <= n.applied
  {
    hide Inv, Continues, Committed;
    if n.lastApplied >= 0 && m.lastApplied >= 0 {
      CommittedStays(h, h', b.nodes.Keys, n.log, n.log, n.commit + 1, n.term, n.term);
      CommitsAgree(b, h', n, m);
      assert n.log[..Min(n.lastApplied, m.lastApplied) + 1] == m.log[..Min(n.lastApplied, m.lastApplied) + 1];
    }
  }

  /** State Machine Safety: what one node has applied now and what another has applied now or
      later are the same sequence, one perhaps shorter. */
  lemma StateMachineSafety(rule: AckRule, ids: set<NodeId>, first: seq<Action>, second: seq<Action>, i: NodeId, j: NodeId)
    requires Runs(rule, Initial(ids), first) && HonestRun(rule, Initial(ids), first)
    requires var a := After(rule, Initial(ids), first);
             Runs(rule, a, second) && HonestRun(rule, a, second) && i in a.nodes && j in After(rule, a, second).nodes
    ensures var a := After(rule, Initial(ids), first);
            var b := After(rule, a, second);
            a.nodes[i].applied <= b.nodes[j].applied || b.nodes[j].applied <= a.nodes[i].applied
  {
    hide Inv, Continues, ProgressOk, MatchOk;
    RunFromStart(rule, ids, first);
    HonestFromStart(rule, ids, first);
    var a := After(rule, Initial(ids), first);
    var h := HistoryAfter(rule, Initial(ids), EmptyHistory(), first);
    RunKeepsInv(rule, a, h, second);
    RunKeepsProgress(rule, a, h, second);
    var b := After(rule, a, second);
    assert ProgressOk(h, a.nodes.Keys, a.nodes[i]);
    assert ProgressOk(HistoryAfter(rule, a, h, second), b.nodes.Keys, b.nodes[j]);
    AppliedAgree(h, b, HistoryAfter(rule, a, h, second), a.nodes[i], b.nodes[j]);
  }

  lemma CommitsAgree(c: Cluster, h: History, n: Node, m: Node)
    requires Inv(c, h) && n.commit >= 0 && m.commit >= 0
    requires Committed(h, c.nodes.Keys, n.log, n.commit + 1, n.term) && Committed(h, c.nodes.Keys, m.log, m.commit + 1, m.term)
    ensures Agree(n.log, m.log, Min(n.commit, m.commit) + 1)
  {
    hide Inv, Committed;
    if n.commit <= m.commit {
      CommittedAgree(c, h, n.log, n.commit + 1, n.term, m.log, m.commit + 1, m.term);
    } else {
      CommittedAgree(c, h, m.log, m.commit + 1, m.term, n.log, n.commit + 1, n.term);
    }
  }
}
