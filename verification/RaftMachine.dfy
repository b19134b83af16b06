/** RaftNode and RaftCluster as the mutable objects of novadb/raft.py, refining the protocol functions. */
module RaftMachine {
  import opened RaftProtocol
  import opened RaftOperations

  class RaftNode {
    const id: NodeId
    const peers: set<NodeId>
    var term: nat
    var votedFor: Option<NodeId>
    var log: Log
    var role: Role
    var leaderId: Option<NodeId>
    var commit: Index
    var lastApplied: Index
    var applied: seq<Command>
    var nextIndex: map<NodeId, nat>
    var matchIndex: map<NodeId, Index>
    var votes: set<NodeId>
    var disk: Disk

    function State(): Node
      reads this
    {
      Node(term, votedFor, log, role, leaderId, commit, lastApplied, applied, nextIndex, matchIndex, votes, disk)
    }

    constructor (id: NodeId, peers: set<NodeId>, disk: Disk)
      ensures this.id == id && this.peers == peers && State() == Restarted(disk)
    {
      this.id, this.peers := id, peers;
      term, votedFor, log := disk.term, disk.votedFor, disk.log;
      role, leaderId := Follower, None;
      commit, lastApplied, applied := -1, -1, [];
      nextIndex, matchIndex, votes := map[], map[], {};
      this.disk := disk;
    }

    method Save()
      modifies this
      ensures State() == Persist(old(State()))
    {
      disk := Disk(term, votedFor, log);
    }

    method LowerTo(newTerm: nat, leader: Option<NodeId>)
      modifies this
      ensures State() == StepDown(old(State()), newTerm, leader)
    {
      if newTerm > term {
        term := newTerm;
        votedFor := None;
      }
      role := Follower;
      leaderId := leader;
      votes := {};
      Save();
    }

    method Stand() returns (r: VoteRequest)
      modifies this
      ensures State() == BeginElection(id, old(State())) && r == VoteRequestOf(id, State()) && r.candidate == id
    {
      role := Candidate;
      term := term + 1;
      votedFor := Some(id);
      votes := {id};
      leaderId := None;
      Save();
      r := VoteRequest(term, id, |log| - 1, LastTerm(log));
    }

    method HandleRequestVote(r: VoteRequest) returns (reply: VoteReply)
      modifies this
      ensures (State(), reply) == HandleVote(old(State()), r)
    {
      if r.term < term {
        return VoteReply(term, false);
      }
      if r.term > term {
        LowerTo(r.term, None);
      }
      var grant := (votedFor == None || votedFor == Some(r.candidate)) && UpToDate(r.lastIndex, r.lastTerm, log);
      if grant {
        votedFor := Some(r.candidate);
        Save();
      }
      reply := VoteReply(term, grant);
    }

    method Lead()
      modifies this
      ensures State() == BecomeLeader(id, peers, old(State()))
    {
      role := Leader;
      leaderId := Some(id);
      nextIndex := map p | p in peers :: |log|;
      matchIndex := (map p | p in peers :: -1)[id := |log| - 1];
    }

    method ReceiveVoteResponse(peer: NodeId, r: VoteReply) returns (won: bool)
      modifies this
      ensures State() == ReceiveVote(id, peers, old(State()), peer, r)
      ensures won <==> old(role) != Leader && role == Leader
    {
      won := false;
      if r.term > term {
        LowerTo(r.term, None);
        return;
      }
      if role != Candidate || r.term != term {
        return;
      }
      if r.granted {
        votes := votes + {peer};
        if |votes| >= Majority(|peers| + 1) {
          Lead();
          won := true;
        }
      }
    }

    /** Cut the log at the first conflicting entry and append what is missing. */
    method MergeEntries(start: nat, entries: Log)
      requires start <= |log|
      modifies `log
      ensures log == Merge(old(log), start, entries)
    {
      var index := start;
      for k := 0 to |entries|
        invariant index == start + k && index <= |log|
        invariant Merge(log, index, entries[k..]) == Merge(old(log), start, entries)
      {
        var entry := entries[k];
        ghost var rest := entries[k..];
        assert rest[0] == entry && rest[1..] == entries[k + 1..];
        if index < |log| && log[index].term != entry.term {
          log := log[..index];
        }
        if index >= |log| {
          log := log + [entry];
        }
        index := index + 1;
      }
    }

    method ApplyAll()
      modifies `lastApplied, `applied
      ensures State() == ApplyCommitted(old(State()))
    {
      if !(lastApplied < commit < |log|) {
        return;
      }
      ghost var start := lastApplied;
      while lastApplied < commit
        invariant start <= lastApplied <= commit
        invariant applied == old(applied) + CommandsOf(log[start + 1..lastApplied + 1])
      {
        lastApplied := lastApplied + 1;
        assert log[start + 1..lastApplied + 1] == log[start + 1..lastApplied] + [log[lastApplied]];
        applied := applied + [log[lastApplied].command];
      }
    }

    method HandleAppendEntries(r: AppendRequest) returns (reply: AppendReply)
      modifies this
      ensures (State(), reply) == HandleAppend(old(State()), r)
    {
      hide ApplyCommitted, Merge;
      if r.term < term {
        return AppendReply(term, false, |log| - 1);
      }
      if r.term > term || role != Follower {
        LowerTo(r.term, Some(r.leader));
      }
      leaderId := Some(r.leader);
      if !Matches(log, r.prevIndex, r.prevTerm) {
        return AppendReply(term, false, |log| - 1);
      }
      Accept(r);
      reply := AppendReply(term, true, |log| - 1);
    }

    method Accept(r: AppendRequest)
      requires Matches(log, r.prevIndex, r.prevTerm)
      modifies this
      ensures var merged := old(State()).(log := Merge(old(log), r.prevIndex + 1, r.entries));
        State() == Persist(if r.leaderCommit > merged.commit
                           then ApplyCommitted(merged.(commit := Min(r.leaderCommit, |merged.log| - 1))) else merged)
    {
      hide ApplyCommitted, Merge;
      MergeEntries(r.prevIndex + 1, r.entries);
      if r.leaderCommit > commit {
        commit := Min(r.leaderCommit, |log| - 1);
        ApplyAll();
      }
      Save();
    }

    method ReceiveAppendResponse(rule: AckRule, peer: NodeId, next: nat, r: AppendReply)
      modifies this
      ensures State() == ReceiveAppend(rule, old(State()), peer, next, r)
    {
      if r.term > term {
        LowerTo(r.term, None);
        return;
      }
      if role != Leader {
        return;
      }
      if r.success {
        var ack := AckIndex(rule, r.matchIndex, log);
        matchIndex := matchIndex[peer := ack];
        nextIndex := nextIndex[peer := ack + 1];
      } else {
        nextIndex := nextIndex[peer := if next > 0 then next - 1 else 0];
      }
    }

    method RaiseCommit()
      modifies `commit
      ensures State() == AdvanceCommit(old(State()), peers)
    {
      if role != Leader {
        return;
      }
      ghost var before := State();
      var start: nat := commit + 1;
      if start > |log| {
        return;
      }
      for index := start to |log|
        invariant State() == before.(commit := CommitBelow(before, peers, index))
      {
        if log[index].term == term {
          var replicated := 1 + |Holders(State(), peers, index)|;
          assert Holders(State(), peers, index) == Holders(before, peers, index);
          if replicated >= Majority(|peers| + 1) {
            commit := index;
          }
        }
      }
    }

    method AppendEntry(command: Command)
      modifies this
      ensures State() == AppendOwn(id, old(State()), command)
    {
      log := log + [LogEntry(term, command)];
      matchIndex := matchIndex[id := |log| - 1];
      Save();
    }
  }

  /** The in-memory transport and the nodes it connects. */
  class RaftCluster {
    const rule: AckRule
    var nodes: map<NodeId, RaftNode>
    var blocked: set<set<NodeId>>
    ghost var issued: set<VoteRequest>

    ghost predicate Valid()
      reads this, nodes.Values
    {
      && (forall i | i in nodes :: nodes[i].id == i && nodes[i].peers == nodes.Keys - {i})
      && (forall i, j | i in nodes && j in nodes && i != j :: nodes[i] != nodes[j])
    }

    ghost function View(): Cluster
      reads this, nodes.Values
    {
      Cluster(map i | i in nodes :: nodes[i].State(), blocked, issued)
    }

    method Partition(left: seq<NodeId>, right: seq<NodeId>)
      requires Valid()
      modifies `blocked
      ensures blocked == old(blocked) + (set a, b | a in left && b in right :: {a, b})
      ensures Valid() && View() == old(View()).(blocked := blocked)
    {
      for i := 0 to |left|
        invariant blocked == old(blocked) + (set a, b | a in left[..i] && b in right :: {a, b})
      {
        ghost var before := blocked;
        for j := 0 to |right|
          invariant blocked == before + (set b | b in right[..j] :: {left[i], b})
        {
          blocked := blocked + {{left[i], right[j]}};
          assert right[..j + 1] == right[..j] + [right[j]];
        }
        assert right[..|right|] == right && left[..i + 1] == left[..i] + [left[i]];
      }
      assert left[..|left|] == left;
    }

    /** Only node `i` differs from before. */
    lemma OnlyAt(before: Cluster, i: NodeId)
      requires Valid() && i in nodes && before.nodes.Keys == nodes.Keys && before.blocked == blocked && before.issued == issued
      requires forall j | j in nodes && j != i :: nodes[j].State() == before.nodes[j]
      ensures View() == SetNode(before, i, nodes[i].State())
    {
      assert View().nodes == before.nodes[i := nodes[i].State()];
    }

    method AnswerVote(p: NodeId, r: VoteRequest) returns (reply: VoteReply)
      requires Valid() && p in nodes
      modifies nodes[p]
      ensures Valid() && View() == old(SetNode(View(), p, HandleVote(View().nodes[p], r).0))
      ensures reply == old(HandleVote(View().nodes[p], r).1)
    {
      hide HandleVote;
      ghost var before := View();
      reply := nodes[p].HandleRequestVote(r);
      OnlyAt(before, p);
    }

    method CountVote(i: NodeId, p: NodeId, reply: VoteReply) returns (won: bool)
      requires Valid() && i in nodes
      modifies nodes[i]
      ensures Valid() && View() == old(SetNode(View(), i, ReceiveVote(i, View().nodes.Keys - {i}, View().nodes[i], p, reply)))
      ensures won <==> old(View().nodes[i].role) != Leader && View().nodes[i].role == Leader
    {
      hide ReceiveVote;
      ghost var before := View();
      won := nodes[i].ReceiveVoteResponse(p, reply);
      OnlyAt(before, i);
    }

    /** Deliver a vote request, and the reply to the candidate. */
    method CallForVote(r: VoteRequest, p: NodeId) returns (won: bool)
      requires Valid() && r.candidate in nodes && p in nodes && p != r.candidate
      modifies nodes.Values
      ensures Valid() && View() == old(DoVote(View(), r, p))
      ensures won <==> old(nodes[r.candidate].role) != Leader && nodes[r.candidate].role == Leader
    {
      hide HandleVote, ReceiveVote, RaftCluster.Valid;
      var i := r.candidate;
      assert View().nodes[i].role == nodes[i].role;
      var reply := AnswerVote(p, r);
      won := CountVote(i, p, reply);
      assert View().nodes[i].role == nodes[i].role;
    }

    method AnswerAppend(p: NodeId, r: AppendRequest) returns (reply: AppendReply)
      requires Valid() && p in nodes
      modifies nodes[p]
      ensures Valid() && View() == old(SetNode(View(), p, HandleAppend(View().nodes[p], r).0))
      ensures reply == old(HandleAppend(View().nodes[p], r).1)
    {
      hide HandleAppend;
      ghost var before := View();
      reply := nodes[p].HandleAppendEntries(r);
      OnlyAt(before, p);
    }

    method HearAppend(l: NodeId, p: NodeId, next: nat, reply: AppendReply)
      requires Valid() && l in nodes
      modifies nodes[l]
      ensures Valid() && View() == old(SetNode(View(), l, ReceiveAppend(rule, View().nodes[l], p, next, reply)))
    {
      hide ReceiveAppend;
      ghost var before := View();
      nodes[l].ReceiveAppendResponse(rule, p, next, reply);
      OnlyAt(before, l);
    }

    /** One append RPC and the leader's handling of the reply. */
    method CallAppend(l: NodeId, p: NodeId) returns (reply: AppendReply)
      requires Valid() && l in nodes && p in nodes && l != p && NextFor(nodes[l].State(), p) <= |nodes[l].log|
      modifies nodes.Values
      ensures Valid() && View() == old(DoAppend(rule, View(), l, p))
      ensures reply == old(HandleAppend(nodes[p].State(), AppendRequestFor(l, nodes[l].State(), p)).1)
    {
      hide HandleAppend, ReceiveAppend, AppendRequestFor;
      var next := NextFor(nodes[l].State(), p);
      reply := AnswerAppend(p, AppendRequestFor(l, nodes[l].State(), p));
      HearAppend(l, p, next, reply);
    }

    method Replicate(l: NodeId, p: NodeId) returns (raised: bool)
      requires Valid() && l in nodes && p in nodes && l != p
      modifies nodes.Values
      ensures Valid() && Outcome(View(), raised) == old(ReplicateTo(rule, View(), l, p))
      decreases NextFor(nodes[l].State(), p)
    {
      var n := nodes[l];
      var next := NextFor(n.State(), p);
      if n.role != Leader {
        return false;
      }
      if next > |n.log| {
        return true;
      }
      if {l, p} in blocked {
        return false;
      }
      var termBefore := n.term;
      ghost var before := View();
      var reply := CallAppend(l, p);
      if reply.term <= termBefore && !reply.success && next > 0 {
        assert NextFor(View().nodes[l], p) < next by {
          ReplicateBacksUp(rule, before, l, p);
        }
        raised := Replicate(l, p);
      } else {
        raised := false;
      }
    }

    method ReplicateRound(l: NodeId, peers: seq<NodeId>) returns (raised: bool)
      requires Valid() && l in nodes && forall p | p in peers :: p in nodes && p != l
      modifies nodes.Values
      ensures Valid() && Outcome(View(), raised) == old(ReplicateAll(rule, View(), l, peers))
    {
      raised := false;
      for k := 0 to |peers|
        invariant Valid() && nodes == old(nodes) && !raised
        invariant ReplicateAll(rule, View(), l, peers[k..]) == old(ReplicateAll(rule, View(), l, peers))
      {
        assert peers[k..][0] == peers[k] && peers[k..][1..] == peers[k + 1..];
        raised := Replicate(l, peers[k]);
        if raised {
          return;
        }
      }
    }

    method AdvanceAt(l: NodeId)
      requires Valid() && l in nodes
      modifies nodes.Values
      ensures Valid() && View() == old(Next(rule, View(), Advance(l)))
    {
      hide AdvanceCommit;
      ghost var before := View();
      nodes[l].RaiseCommit();
      OnlyAt(before, l);
    }

    method ApplyAt(l: NodeId)
      requires Valid() && l in nodes
      modifies nodes.Values
      ensures Valid() && View() == old(Next(rule, View(), Apply(l)))
    {
      hide ApplyCommitted;
      ghost var before := View();
      nodes[l].ApplyAll();
      OnlyAt(before, l);
    }

    method AppendAt(l: NodeId, command: Command)
      requires Valid() && l in nodes && nodes[l].role == Leader
      modifies nodes.Values
      ensures Valid() && View() == old(Next(rule, View(), Propose(l, command)))
    {
      ghost var before := View();
      nodes[l].AppendEntry(command);
      OnlyAt(before, l);
    }

    method StandNode(i: NodeId) returns (r: VoteRequest)
      requires Valid() && i in nodes
      modifies nodes[i]
      ensures Valid() && View() == old(SetNode(View(), i, BeginElection(i, View().nodes[i])))
      ensures r == VoteRequestOf(i, View().nodes[i]) && r.candidate == i
    {
      hide BeginElection, VoteRequestOf;
      ghost var before := View();
      r := nodes[i].Stand();
      OnlyAt(before, i);
    }

    method StandAt(i: NodeId) returns (r: VoteRequest)
      requires Valid() && i in nodes
      modifies this`issued, nodes.Values
      ensures Valid() && View() == old(Next(rule, View(), Timeout(i))) && r == VoteRequestOf(i, nodes[i].State())
      ensures r in issued && r.candidate == i
    {
      hide BeginElection, VoteRequestOf;
      r := StandNode(i);
      issued := issued + {r};
    }

    method BroadcastAppendEntries(l: NodeId, peers: seq<NodeId>) returns (raised: bool)
      requires Valid() && l in nodes && forall p | p in peers :: p in nodes && p != l
      modifies nodes.Values
      ensures Valid() && Outcome(View(), raised) == old(Broadcast(rule, View(), l, peers))
    {
      hide ReplicateAll, Next;
      if nodes[l].role != Leader {
        return false;
      }
      raised := ReplicateRound(l, peers);
      if raised {
        return;
      }
      AdvanceAt(l);
      raised := ReplicateRound(l, peers);
      if raised {
        return;
      }
      ApplyAt(l);
    }

    method ProposeCommand(l: NodeId, peers: seq<NodeId>, command: Command) returns (answer: Proposal)
      requires Valid() && l in nodes && forall p | p in peers :: p in nodes && p != l
      modifies nodes.Values
      ensures Valid() && (View(), answer) == old(ProposeOp(rule, View(), l, peers, command))
    {
      hide Broadcast, Next;
      if nodes[l].role != Leader {
        return NotLeader(nodes[l].leaderId);
      }
      AppendAt(l, command);
      var raised := BroadcastAppendEntries(l, peers);
      if raised {
        return Raised;
      }
      if nodes[l].commit < |nodes[l].log| - 1 {
        return Uncommitted;
      }
      answer := CommittedAt(|nodes[l].log| - 1);
    }

    method RunElection(i: NodeId, peers: seq<NodeId>) returns (raised: bool)
      requires Valid() && i in nodes && forall p | p in peers :: p in nodes && p != i
      modifies this`issued, nodes.Values
      ensures Valid() && Outcome(View(), raised) == old(StartElection(rule, View(), i, peers))
    {
      hide Broadcast, DoVote, Next;
      var r := StandAt(i);
      ghost var standing := View();
      raised := false;
      for k := 0 to |peers|
        invariant Valid() && nodes == old(nodes) && !raised && r in issued && r.candidate == i
        invariant Campaign(rule, View(), i, peers, r, peers[k..]) == Campaign(rule, standing, i, peers, r, peers)
      {
        assert peers[k..][0] == peers[k] && peers[k..][1..] == peers[k + 1..];
        if {i, peers[k]} !in blocked {
          ghost var c := View();
          var won := CallForVote(r, peers[k]);
          BroadcastKeepsIssued(rule, View(), i, peers);
          if won {
            raised := BroadcastAppendEntries(i, peers);
            if raised {
              return;
            }
          }
        }
      }
    }

    /** Every link works again, and every node that takes itself for a leader broadcasts, until one raises. */
    method HealNetwork(ids: seq<NodeId>) returns (raised: bool)
      requires Valid() && forall i | i in ids :: i in nodes
      modifies `blocked, nodes.Values
      ensures Valid() && Outcome(View(), raised) == old(HealOp(rule, View(), ids))
    {
      hide BroadcastEach, Leaders, RaftCluster.Valid;
      ghost var before := View();
      Unblock();
      SameLeaders(before, View(), ids);
      var leaders := LeadingNodes(ids);
      raised := BroadcastFrom(ids, leaders);
    }

    method Unblock()
      requires Valid()
      modifies `blocked
      ensures Valid() && View() == old(View()).(blocked := {})
    {
      blocked := {};
    }

    method BroadcastFrom(ids: seq<NodeId>, leaders: seq<NodeId>) returns (raised: bool)
      requires Valid() && (forall i | i in ids :: i in nodes) && forall i | i in leaders :: i in nodes
      modifies nodes.Values
      ensures Valid() && Outcome(View(), raised) == old(BroadcastEach(rule, View(), ids, leaders))
    {
      hide Broadcast, Others, BroadcastEach, RaftCluster.Valid;
      ghost var healed := View();
      raised := false;
      BroadcastsLeft(rule, View(), ids, leaders, 0);
      for k := 0 to |leaders|
        invariant Valid() && nodes == old(nodes) && !raised
        invariant BroadcastEach(rule, View(), ids, leaders[k..]) == BroadcastEach(rule, healed, ids, leaders)
      {
        BroadcastsLeft(rule, View(), ids, leaders, k);
        raised := BroadcastAppendEntries(leaders[k], Others(ids, leaders[k]));
        if raised {
          return;
        }
      }
      BroadcastsLeft(rule, View(), ids, leaders, |leaders|);
    }

    method LeadingNodes(ids: seq<NodeId>) returns (leaders: seq<NodeId>)
      requires Valid() && forall i | i in ids :: i in nodes
      ensures leaders == Leaders(View(), ids)
    {
      hide Leaders, RaftCluster.Valid, RaftCluster.View;
      RolesSeen();
      ghost var c := View();
      leaders := [];
      LeadersLeft(c, ids, 0);
      for k := 0 to |ids|
        invariant leaders + Leaders(c, ids[k..]) == Leaders(c, ids)
      {
        LeadersLeft(c, ids, k);
        if nodes[ids[k]].role == Leader {
          OneMoved(leaders, ids[k], Leaders(c, ids[k + 1..]));
          leaders := leaders + [ids[k]];
        }
      }
      LeadersLeft(c, ids, |ids|);
    }

    lemma RolesSeen()
      ensures View().nodes.Keys == nodes.Keys && forall i | i in nodes :: View().nodes[i].role == nodes[i].role
    {
    }

    /** A crash: the node comes back over its stored term, vote and log. */
    method RestartNode(i: NodeId)
      requires Valid() && i in nodes
      modifies this
      ensures i in nodes && fresh(nodes[i]) && nodes == old(nodes)[i := nodes[i]]
      ensures Valid() && View() == old(Next(rule, View(), Restart(i)))
    {
      ghost var before := View();
      var n := new RaftNode(i, nodes[i].peers, nodes[i].disk);
      nodes := nodes[i := n];
      assert nodes.Keys == old(nodes).Keys;
      assert View().nodes == Next(rule, before, Restart(i)).nodes;
    }
  }

  lemma {:induction false} SameLeaders(c: Cluster, c': Cluster, ids: seq<NodeId>)
    requires c'.nodes == c.nodes && forall i | i in ids :: i in c.nodes
    ensures Leaders(c', ids) == Leaders(c, ids)
  {
    if ids != [] { SameLeaders(c, c', ids[1..]); }
  }

  lemma OneMoved(first: seq<NodeId>, i: NodeId, rest: seq<NodeId>)
    ensures first + ([i] + rest) == (first + [i]) + rest && first + ([] + rest) == first + rest
  {
  }

  lemma LeadersLeft(c: Cluster, ids: seq<NodeId>, k: nat)
    requires k <= |ids| && forall i | i in ids :: i in c.nodes
    ensures ids[0..] == ids && (k == |ids| ==> Leaders(c, ids[k..]) == [])
    ensures k < |ids| ==> (ids[k] in ids
      && Leaders(c, ids[k..]) == (if c.nodes[ids[k]].role == Leader then [ids[k]] else []) + Leaders(c, ids[k + 1..]))
  {
    if k < |ids| {
      assert ids[k..][0] == ids[k] && ids[k..][1..] == ids[k + 1..];
    }
  }

  lemma BroadcastsLeft(rule: AckRule, c: Cluster, ids: seq<NodeId>, leaders: seq<NodeId>, k: nat)
    requires k <= |leaders| && (forall i | i in ids :: i in c.nodes) && forall i | i in leaders :: i in c.nodes
    ensures leaders[0..] == leaders && (k == |leaders| ==> BroadcastEach(rule, c, ids, leaders[k..]) == Outcome(c, false))
    ensures k < |leaders| ==> (
      && leaders[k] in leaders
      && var one := Broadcast(rule, c, leaders[k], Others(ids, leaders[k]));
         BroadcastEach(rule, c, ids, leaders[k..]) == if one.raised then one else BroadcastEach(rule, one.cluster, ids, leaders[k + 1..]))
  {
    hide Broadcast, Others;
    if k < |leaders| {
      assert leaders[k..][0] == leaders[k] && leaders[k..][1..] == leaders[k + 1..];
    }
  }

  lemma ReplicateBacksUp(rule: AckRule, c: Cluster, l: NodeId, p: NodeId)
    requires l in c.nodes && p in c.nodes && l != p && c.nodes[l].role == Leader
    requires 0 < NextFor(c.nodes[l], p) <= |c.nodes[l].log|
    requires var reply := HandleAppend(c.nodes[p], AppendRequestFor(l, c.nodes[l], p)).1;
             reply.term <= c.nodes[l].term && !reply.success
    ensures NextFor(DoAppend(rule, c, l, p).nodes[l], p) == NextFor(c.nodes[l], p) - 1
  {
  }
}
