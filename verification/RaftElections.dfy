/** When a vote is granted and when an election is won: in terms of logs ordered by their last term and then by their
    length, and of the nodes in reach. */
module RaftElections {
  import opened RaftProtocol
  import opened RaftInvariant
  import opened RaftAppendSteps
  import opened RaftRuns
  import opened RaftSafety
  import opened RaftOperations

  /** The order of logs: by the term of the last entry, then by length. */
  predicate NoLater(a: Log, b: Log) {
    var x, y := if a == [] then 0 else a[|a| - 1].term, if b == [] then 0 else b[|b| - 1].term;
    x < y || (x == y && |a| <= |b|)
  }

  // ---------------------------------------------------------------- votes

  /** A vote is granted exactly in a term not yet passed, to nobody but the one voted for in it, and to a log no
      earlier than the voter's own. Granted or not, a higher term makes the voter its follower, with its vote free. */
  lemma VoteGrantedIff(n: Node, term: nat, candidate: NodeId, log: Log)
    ensures var (voter, reply) := HandleVote(n, VoteRequest(term, candidate, |log| - 1, LastTerm(log)));
      && reply.term == voter.term == (if term > n.term then term else n.term)
      && (reply.granted <==>
            (term > n.term || (term == n.term && (n.votedFor == None || n.votedFor == Some(candidate)))) && NoLater(n.log, log))
      && voter.votedFor == (if reply.granted then Some(candidate) else if term > n.term then None else n.votedFor)
      && (term > n.term ==> voter.role == Follower) && (term <= n.term ==> voter.role == n.role) && voter.log == n.log
      && (voter != n ==> voter.disk == Disk(voter.term, voter.votedFor, voter.log))
  {
  }

  function Later(a: nat, b: nat): nat {
    if a < b then b else a
  }

  /** After a bid both nodes are in the higher of their terms, and a candidate that was behind follows. */
  lemma BidTermsMeet(c: Cluster, i: NodeId, p: NodeId)
    requires i in c.nodes && p in c.nodes && i != p
    ensures var after, behind := DoVote(c, VoteRequestOf(i, c.nodes[i]), p), c.nodes[i].term < c.nodes[p].term;
      && after.nodes[i].term == after.nodes[p].term == Later(c.nodes[i].term, c.nodes[p].term)
      && (behind ==> after.nodes[i].role == Follower && after.nodes[p] == c.nodes[p])
  {
    VoteGrantedIff(c.nodes[p], c.nodes[i].term, i, c.nodes[i].log);
    hide HandleVote, NoLater, BecomeLeader;
  }

  /** So are they after an append, and whichever node it is addressed to follows, unless the sender is behind and
      follows. */
  lemma AppendTermsMeet(rule: AckRule, c: Cluster, l: NodeId, p: NodeId)
    requires l in c.nodes && p in c.nodes && l != p && NextFor(c.nodes[l], p) <= |c.nodes[l].log|
    ensures var after, behind := DoAppend(rule, c, l, p), c.nodes[l].term < c.nodes[p].term;
      && after.nodes[l].term == after.nodes[p].term == Later(c.nodes[l].term, c.nodes[p].term)
      && (behind ==> after.nodes[l].role == Follower && after.nodes[p] == c.nodes[p])
      && (!behind ==> after.nodes[p].role == Follower && after.nodes[p].leaderId == Some(l))
  {
    AppendHeard(c.nodes[p], AppendRequestFor(l, c.nodes[l], p));
    hide HandleAppend, AckIndex;
  }

  lemma AppendHeard(n: Node, r: AppendRequest)
    ensures var (follower, reply) := HandleAppend(n, r);
      && follower.term == reply.term == Later(n.term, r.term)
      && (r.term < n.term ==> follower == n && !reply.success)
      && (r.term >= n.term ==> follower.role == Follower && follower.leaderId == Some(r.leader))
  {
    hide Merge, Matches, CommandsOf, Min;
  }

  /** Of any two nodes, one would be given the other's vote in a fresh term; each would exactly if their logs are
      equally late. */
  lemma OneBidIsAccepted(a: Node, b: Node, x: NodeId, y: NodeId, term: nat)
    requires a.term < term && b.term < term
    ensures var fromB := HandleVote(b, VoteRequest(term, x, |a.log| - 1, LastTerm(a.log))).1.granted;
      var fromA := HandleVote(a, VoteRequest(term, y, |b.log| - 1, LastTerm(b.log))).1.granted;
      (fromA || fromB) && (fromA && fromB <==> |a.log| == |b.log| && LastTerm(a.log) == LastTerm(b.log))
  {
  }

  lemma NoLaterTransitive(a: Log, b: Log, c: Log)
    requires NoLater(a, b) && NoLater(b, c)
    ensures NoLater(a, c)
  {
  }

  // ---------------------------------------------------------------- what a leader's operations keep

  /** The leader's steps keep `keeps`. */
  ghost predicate Kept(keeps: Cluster -> bool, rule: AckRule, l: NodeId) {
    && (forall c: Cluster, p: NodeId :: keeps(c) && Enabled(c, AppendRpc(l, p)) ==> keeps(Next(rule, c, AppendRpc(l, p))))
    && (forall c: Cluster :: keeps(c) && Enabled(c, Advance(l)) ==> keeps(Next(rule, c, Advance(l))))
    && (forall c: Cluster :: keeps(c) && Enabled(c, Apply(l)) ==> keeps(Next(rule, c, Apply(l))))
  }

  lemma {:induction false} ReplicateKeeps(keeps: Cluster -> bool, rule: AckRule, c: Cluster, l: NodeId, p: NodeId)
    requires l in c.nodes && p in c.nodes && l != p && Kept(keeps, rule, l) && keeps(c)
    ensures keeps(ReplicateTo(rule, c, l, p).cluster)
    decreases NextFor(c.nodes[l], p)
  {
    hide HandleAppend, AppendRequestFor;
    var n := c.nodes[l];
    var next := NextFor(n, p);
    if n.role == Leader && next <= |n.log| && Connected(c, l, p) {
      assert keeps(Next(rule, c, AppendRpc(l, p)));
      var reply := HandleAppend(c.nodes[p], AppendRequestFor(l, n, p)).1;
      if reply.term <= n.term && !reply.success && next > 0 {
        ReplicateKeeps(keeps, rule, DoAppend(rule, c, l, p), l, p);
      }
    }
  }

  lemma {:induction false} ReplicateAllKeeps(keeps: Cluster -> bool, rule: AckRule, c: Cluster, l: NodeId, peers: seq<NodeId>)
    requires l in c.nodes && (forall p | p in peers :: p in c.nodes && p != l) && Kept(keeps, rule, l) && keeps(c)
    ensures keeps(ReplicateAll(rule, c, l, peers).cluster)
    decreases |peers|
  {
    hide Kept, ReplicateTo;
    if peers != [] {
      ReplicateKeeps(keeps, rule, c, l, peers[0]);
      var one := ReplicateTo(rule, c, l, peers[0]);
      if !one.raised { ReplicateAllKeeps(keeps, rule, one.cluster, l, peers[1..]); }
    }
  }

  lemma BroadcastKeeps(keeps: Cluster -> bool, rule: AckRule, c: Cluster, l: NodeId, peers: seq<NodeId>)
    requires l in c.nodes && (forall p | p in peers :: p in c.nodes && p != l) && Kept(keeps, rule, l) && keeps(c)
    ensures keeps(Broadcast(rule, c, l, peers).cluster)
  {
    hide ReplicateAll, AdvanceCommit, ApplyCommitted;
    if c.nodes[l].role == Leader {
      ReplicateAllKeeps(keeps, rule, c, l, peers);
      var round := ReplicateAll(rule, c, l, peers);
      if !round.raised {
        var advanced := Next(rule, round.cluster, Advance(l));
        ReplicateAllKeeps(keeps, rule, advanced, l, peers);
      }
    }
  }

  /** The votes for `r` keep it too. */
  ghost predicate KeptByVotes(keeps: Cluster -> bool, r: VoteRequest) {
    forall c: Cluster, p: NodeId :: keeps(c) && r.candidate in c.nodes && p in c.nodes && p != r.candidate && Connected(c, r.candidate, p)
      ==> keeps(DoVote(c, r, p))
  }

  lemma {:induction false} CampaignKeeps(keeps: Cluster -> bool, rule: AckRule, c: Cluster, i: NodeId, peers: seq<NodeId>, r: VoteRequest, rest: seq<NodeId>)
    requires i in c.nodes && r in c.issued && r.candidate == i
    requires (forall p | p in peers :: p in c.nodes && p != i) && forall p | p in rest :: p in peers
    requires Kept(keeps, rule, i) && KeptByVotes(keeps, r) && keeps(c)
    ensures keeps(Campaign(rule, c, i, peers, r, rest).cluster)
    decreases |rest|
  {
    hide Kept, Broadcast;
    if rest != [] {
      if !Connected(c, i, rest[0]) {
        CampaignKeeps(keeps, rule, c, i, peers, r, rest[1..]);
      } else {
        assert rest[0] in peers;
        var c' := DoVote(c, r, rest[0]);
        assert keeps(c');
        BroadcastKeeps(keeps, rule, c', i, peers);
        BroadcastKeepsIssued(rule, c', i, peers);
        var won := if c.nodes[i].role != Leader && c'.nodes[i].role == Leader then Broadcast(rule, c', i, peers) else Outcome(c', false);
        if !won.raised { CampaignKeeps(keeps, rule, won.cluster, i, peers, r, rest[1..]); }
      }
    }
  }

  // ---------------------------------------------------------------- a leader stays one

  /** `i` leads in `term`, and nobody it reaches is past that term. */
  predicate Reigns(c: Cluster, i: NodeId, term: nat) {
    && i in c.nodes && c.nodes[i].role == Leader && c.nodes[i].term == term
    && forall p | p in c.nodes && Connected(c, i, p) && p != i :: c.nodes[p].term <= term
  }

  lemma AppendTerms(n: Node, r: AppendRequest)
    requires n.term <= r.term
    ensures HandleAppend(n, r).0.term == r.term == HandleAppend(n, r).1.term
  {
    hide Merge;
    ApplyTerms(n);
  }

  lemma ApplyTerms(n: Node)
    ensures ApplyCommitted(n).term == n.term && ApplyCommitted(n).role == n.role && ApplyCommitted(n).log == n.log
  {
  }

  lemma AppendKeepsReign(rule: AckRule, c: Cluster, i: NodeId, term: nat, p: NodeId)
    requires Reigns(c, i, term) && Enabled(c, AppendRpc(i, p))
    ensures Reigns(Next(rule, c, AppendRpc(i, p)), i, term)
  {
    AppendTerms(c.nodes[p], AppendRequestFor(i, c.nodes[i], p));
    hide HandleAppend;
  }

  lemma VoteKeepsReign(c: Cluster, i: NodeId, term: nat, r: VoteRequest, p: NodeId)
    requires Reigns(c, i, term) && r.candidate == i && r.term == term && p in c.nodes && p != i && Connected(c, i, p)
    ensures Reigns(DoVote(c, r, p), i, term)
  {
  }

  lemma ReignKept(rule: AckRule, i: NodeId, term: nat)
    ensures Kept((c: Cluster) => Reigns(c, i, term), rule, i)
  {
    hide HandleAppend, ReceiveAppend, CommitBelow;
    var keeps := (c: Cluster) => Reigns(c, i, term);
    forall c: Cluster, p: NodeId | keeps(c) && Enabled(c, AppendRpc(i, p)) ensures keeps(Next(rule, c, AppendRpc(i, p))) {
      AppendKeepsReign(rule, c, i, term, p);
    }
    forall c: Cluster | keeps(c) && Enabled(c, Apply(i)) ensures keeps(Next(rule, c, Apply(i))) {
      ApplyTerms(c.nodes[i]);
    }
  }

  lemma ReignKeptByVotes(i: NodeId, term: nat, r: VoteRequest)
    requires r.candidate == i && r.term == term
    ensures KeptByVotes((c: Cluster) => Reigns(c, i, term), r)
  {
    hide DoVote;
    var keeps := (c: Cluster) => Reigns(c, i, term);
    forall c: Cluster, p: NodeId | keeps(c) && i in c.nodes && p in c.nodes && p != i && Connected(c, i, p) ensures keeps(DoVote(c, r, p)) {
      VoteKeepsReign(c, i, term, r, p);
    }
  }

  // ---------------------------------------------------------------- a campaign

  /** The peers whose vote is within reach: their links work and their logs are no later than the candidate's. */
  function Supporters(c: Cluster, i: NodeId, rest: seq<NodeId>): set<NodeId>
    requires i in c.nodes
  {
    set p | p in rest && p in c.nodes && Connected(c, i, p) && NoLater(c.nodes[p].log, c.nodes[i].log)
  }

  /** `i` stands with `r`, and nobody in reach that is still to be asked has reached its term. */
  ghost predicate Stands(c: Cluster, i: NodeId, r: VoteRequest, rest: seq<NodeId>) {
    && i in c.nodes && c.nodes[i].role == Candidate && r == VoteRequestOf(i, c.nodes[i]) && r in c.issued
    && |c.nodes[i].votes| < Majority(|c.nodes.Keys|)
    && (forall p | p in rest :: p in c.nodes && p != i && p !in c.nodes[i].votes)
    && (forall p | p in c.nodes && p != i && Connected(c, i, p) :: c.nodes[p].term <= r.term)
    && (forall p | p in rest && Connected(c, i, p) :: c.nodes[p].term < r.term)
  }

  /** The votes after asking a peer that has not reached the candidate's term. */
  function VotesWith(c: Cluster, i: NodeId, p: NodeId): set<NodeId>
    requires i in c.nodes && p in c.nodes
  {
    if NoLater(c.nodes[p].log, c.nodes[i].log) then c.nodes[i].votes + {p} else c.nodes[i].votes
  }

  lemma AskedNodes(c: Cluster, i: NodeId, r: VoteRequest, p: NodeId)
    requires i in c.nodes && p in c.nodes && p != i && c.nodes[i].role == Candidate && r == VoteRequestOf(i, c.nodes[i])
    requires c.nodes[p].term < r.term && |c.nodes[i].votes| < Majority(|c.nodes.Keys|)
    ensures var c', votes := DoVote(c, r, p), VotesWith(c, i, p);
      && c'.nodes.Keys == c.nodes.Keys && c'.blocked == c.blocked && c'.issued == c.issued
      && (forall q | q in c.nodes && q != i && q != p :: c'.nodes[q] == c.nodes[q]) && c'.nodes[p].term == r.term
      && (if |votes| >= Majority(|c.nodes.Keys|) then c'.nodes[i].role == Leader && c'.nodes[i].term == r.term && c'.nodes[i].log == c.nodes[i].log
          else c'.nodes[i] == c.nodes[i].(votes := votes))
  {
    var n := c.nodes[i];
    VoteGrantedIff(c.nodes[p], r.term, i, n.log);
    VoteTerms(c.nodes[p], r);
    var reply := HandleVote(c.nodes[p], r).1;
    Hears(i, c.nodes.Keys - {i}, n, p, reply);
    assert |c.nodes.Keys - {i}| + 1 == |c.nodes.Keys|;
    hide HandleVote, ReceiveVote, NoLater, Majority;
  }

  /** What asking one more peer comes to. */
  lemma OneAsked(c: Cluster, i: NodeId, r: VoteRequest, rest: seq<NodeId>)
    requires Stands(c, i, r, rest) && rest != [] && Distinct(rest) && Connected(c, i, rest[0])
    ensures var p, c' := rest[0], DoVote(c, r, rest[0]);
      && p in c.nodes && c'.nodes.Keys == c.nodes.Keys && c'.blocked == c.blocked && c'.issued == c.issued
      && (forall q | q in c.nodes && q != i && q != p :: c'.nodes[q] == c.nodes[q])
      && (if |VotesWith(c, i, p)| >= Majority(|c.nodes.Keys|) then Reigns(c', i, r.term) && NoLater(c.nodes[p].log, c.nodes[i].log)
          else Stands(c', i, r, rest[1..]) && c'.nodes[i] == c.nodes[i].(votes := VotesWith(c, i, p)))
  {
    assert rest[0] in rest;
    AskedNodes(c, i, r, rest[0]);
    var c', votes := DoVote(c, r, rest[0]), VotesWith(c, i, rest[0]);
    if |votes| < Majority(|c.nodes.Keys|) { StillStands(c, c', i, r, rest, votes); }
    hide DoVote, NoLater, Majority, Stands;
  }

  lemma StillStands(c: Cluster, c': Cluster, i: NodeId, r: VoteRequest, rest: seq<NodeId>, votes: set<NodeId>)
    requires Stands(c, i, r, rest) && rest != [] && Distinct(rest)
    requires c'.nodes.Keys == c.nodes.Keys && c'.blocked == c.blocked && c'.issued == c.issued
    requires forall q | q in c.nodes && q != i && q != rest[0] :: c'.nodes[q] == c.nodes[q]
    requires c'.nodes[rest[0]].term == r.term && c'.nodes[i] == c.nodes[i].(votes := votes)
    requires votes <= c.nodes[i].votes + {rest[0]} && |votes| < Majority(|c.nodes.Keys|)
    ensures Stands(c', i, r, rest[1..])
  {
    hide Majority;
    assert forall q | q in rest[1..] :: q in rest && q != rest[0];
  }

  /** A candidate hears one answer in its own term. */
  lemma Hears(self: NodeId, peers: set<NodeId>, n: Node, p: NodeId, reply: VoteReply)
    requires n.role == Candidate && reply.term == n.term
    ensures var n' := ReceiveVote(self, peers, n, p, reply);
      var votes := if reply.granted then n.votes + {p} else n.votes;
      if reply.granted && |votes| >= Majority(|peers| + 1) then n'.role == Leader && n'.term == n.term && n'.log == n.log
      else n' == n.(votes := votes)
  {
  }

  lemma VoteTerms(n: Node, r: VoteRequest)
    requires n.term <= r.term
    ensures HandleVote(n, r).0.term == r.term
  {
  }

  lemma OneFewer(c: Cluster, c': Cluster, i: NodeId, rest: seq<NodeId>)
    requires i in c.nodes && rest != [] && Distinct(rest) && (forall p | p in rest :: p in c.nodes && p != i)
    requires c'.nodes.Keys == c.nodes.Keys && c'.blocked == c.blocked && c'.nodes[i].log == c.nodes[i].log
    requires forall q | q in c.nodes && q != i && q != rest[0] :: c'.nodes[q] == c.nodes[q]
    ensures rest[0] !in Supporters(c', i, rest[1..])
    ensures Supporters(c, i, rest) == Supporters(c', i, rest[1..])
      + if Connected(c, i, rest[0]) && NoLater(c.nodes[rest[0]].log, c.nodes[i].log) then {rest[0]} else {}
  {
    hide NoLater;
    assert forall q | q in rest[1..] :: q in rest && q != rest[0];
    assert forall q | q in rest :: q == rest[0] || q in rest[1..];
  }

  /** A campaign makes its candidate leader exactly when the votes it has and those in reach are a majority. */
  lemma {:induction false} CampaignWinsIff(rule: AckRule, c: Cluster, i: NodeId, peers: seq<NodeId>, r: VoteRequest, rest: seq<NodeId>)
    requires Stands(c, i, r, rest) && Distinct(rest)
    requires (forall p | p in peers :: p in c.nodes && p != i) && forall p | p in rest :: p in peers
    ensures var n := Campaign(rule, c, i, peers, r, rest).cluster.nodes[i];
      n.role == Leader <==> |c.nodes[i].votes| + |Supporters(c, i, rest)| >= Majority(|c.nodes.Keys|)
    ensures var n := Campaign(rule, c, i, peers, r, rest).cluster.nodes[i]; n.role == Leader ==> n.term == r.term
    decreases |rest|
  {
    hide Broadcast, DoVote, NoLater, Majority, Supporters;
    if rest == [] {
      assert Supporters(c, i, []) == {} by { NoSupporters(c, i); }
    } else if !Connected(c, i, rest[0]) {
      OneFewer(c, c, i, rest);
      CampaignWinsIff(rule, c, i, peers, r, rest[1..]);
    } else {
      assert rest[0] in peers;
      var c' := DoVote(c, r, rest[0]);
      OneAsked(c, i, r, rest);
      if c'.nodes[i].role == Leader {
        WonAlready(rule, c, i, peers, r, rest);
      } else {
        OneFewer(c, c', i, rest);
        CampaignWinsIff(rule, c', i, peers, r, rest[1..]);
      }
    }
  }

  lemma NoSupporters(c: Cluster, i: NodeId)
    requires i in c.nodes
    ensures Supporters(c, i, []) == {}
  {
  }

  /** The vote that makes the majority: the broadcast and the votes after it leave the leader one. */
  lemma WonAlready(rule: AckRule, c: Cluster, i: NodeId, peers: seq<NodeId>, r: VoteRequest, rest: seq<NodeId>)
    requires Stands(c, i, r, rest) && rest != [] && Distinct(rest) && Connected(c, i, rest[0]) && DoVote(c, r, rest[0]).nodes[i].role == Leader
    requires (forall p | p in peers :: p in c.nodes && p != i) && forall p | p in rest :: p in peers
    ensures Reigns(Campaign(rule, c, i, peers, r, rest).cluster, i, r.term)
    ensures |c.nodes[i].votes| + |Supporters(c, i, rest)| >= Majority(|c.nodes.Keys|)
  {
    hide Broadcast, NoLater, Majority, HandleVote, Supporters, Reigns;
    OneAsked(c, i, r, rest);
    var c' := DoVote(c, r, rest[0]);
    var keeps := (c: Cluster) => Reigns(c, i, r.term);
    ReignKept(rule, i, r.term);
    ReignKeptByVotes(i, r.term, r);
    BroadcastKeeps(keeps, rule, c', i, peers);
    BroadcastKeepsIssued(rule, c', i, peers);
    var won := Broadcast(rule, c', i, peers);
    if !won.raised { CampaignKeeps(keeps, rule, won.cluster, i, peers, r, rest[1..]); }
    OneSupporter(c, i, rest);
  }

  lemma OneSupporter(c: Cluster, i: NodeId, rest: seq<NodeId>)
    requires i in c.nodes && rest != [] && rest[0] in c.nodes && Connected(c, i, rest[0])
    ensures NoLater(c.nodes[rest[0]].log, c.nodes[i].log) ==> |Supporters(c, i, rest)| >= 1
  {
    if NoLater(c.nodes[rest[0]].log, c.nodes[i].log) {
      assert rest[0] in Supporters(c, i, rest);
    }
  }

  /** Votes are only counted when a peer answers: with no peers, nobody is elected. */
  lemma LoneNodeIsNotElected(rule: AckRule, c: Cluster, i: NodeId)
    requires i in c.nodes
    ensures var n := StartElection(rule, c, i, []).cluster.nodes[i]; n.role == Candidate && n.term == c.nodes[i].term + 1
  {
    hide Inv, Broadcast;
  }

  // ---------------------------------------------------------------- main results

  /** An election with nobody in reach at its term or past it makes the candidate leader, of that term, exactly when
      it and the peers in reach with logs no later than its own are more than half of the cluster. */
  lemma ElectedIff(rule: AckRule, c: Cluster, i: NodeId, peers: seq<NodeId>)
    requires i in c.nodes && Distinct(peers) && (forall p :: p in peers <==> p in c.nodes && p != i) && peers != []
    requires forall p | p in peers && Connected(c, i, p) :: c.nodes[p].term <= c.nodes[i].term
    ensures var n := StartElection(rule, c, i, peers).cluster.nodes[i];
      var support := set p | p in peers && Connected(c, i, p) && NoLater(c.nodes[p].log, c.nodes[i].log);
      && (n.role == Leader <==> 2 * (1 + |support|) > |c.nodes.Keys|)
      && (n.role == Leader ==> n.term == c.nodes[i].term + 1)
  {
    hide Campaign, NoLater;
    var c' := Next(rule, c, Timeout(i));
    var r := VoteRequestOf(i, c'.nodes[i]);
    TwoNodes(c, i, peers);
    assert Stands(c', i, r, peers);
    CampaignWinsIff(rule, c', i, peers, r, peers);
    assert Supporters(c', i, peers) == set p | p in peers && Connected(c, i, p) && NoLater(c.nodes[p].log, c.nodes[i].log);
  }

  lemma TwoNodes(c: Cluster, i: NodeId, peers: seq<NodeId>)
    requires i in c.nodes && peers != [] && forall p | p in peers :: p in c.nodes && p != i
    ensures 1 < Majority(|c.nodes.Keys|)
  {
    assert peers[0] in peers && {i, peers[0]} <= c.nodes.Keys;
    assert |{i, peers[0]}| == 2;
    var rest := c.nodes.Keys - {i, peers[0]};
    assert c.nodes.Keys == rest + {i, peers[0]};
  }

  // ---------------------------------------------------------------- standing again

  /** A reachable cluster: some history explains it. */
  ghost predicate Explained(c: Cluster) {
    exists h :: Inv(c, h)
  }

  /** Nobody that `i` reaches has a later log or a term past `top`, nor has `i`. */
  predicate Latest(c: Cluster, i: NodeId, top: nat) {
    && i in c.nodes && c.nodes[i].term <= top
    && forall p | p in c.nodes && p != i && Connected(c, i, p) :: c.nodes[p].term <= top && NoLater(c.nodes[p].log, c.nodes[i].log)
  }

  /** So it is while `i` campaigns with `r` on these links with this log. */
  ghost predicate Campaigning(c: Cluster, i: NodeId, top: nat, r: VoteRequest, ids: set<NodeId>, blocked: set<set<NodeId>>, log: Log) {
    && Explained(c) && c.nodes.Keys == ids && c.blocked == blocked && r in c.issued
    && Latest(c, i, top) && c.nodes[i].log == log && r.term <= c.nodes[i].term
  }

  lemma MergedNoLater(log: Log, leader: Log)
    requires NoLater(log, leader)
    ensures NoLater(Merged(log, leader), leader)
  {
  }

  lemma ReceiveAppendKeeps(rule: AckRule, n: Node, p: NodeId, next: nat, reply: AppendReply, top: nat)
    requires n.term <= top && reply.term <= top
    ensures var n' := ReceiveAppend(rule, n, p, next, reply); n'.log == n.log && n.term <= n'.term <= top
  {
  }

  lemma AppendKeepsCampaign(rule: AckRule, c: Cluster, i: NodeId, p: NodeId, top: nat, r: VoteRequest, ids: set<NodeId>, blocked: set<set<NodeId>>, log: Log)
    requires Campaigning(c, i, top, r, ids, blocked, log) && Enabled(c, AppendRpc(i, p))
    ensures Campaigning(Next(rule, c, AppendRpc(i, p)), i, top, r, ids, blocked, log)
  {
    hide Inv, NodeOk, HandleAppend, ReceiveAppend, Heard;
    var h :| Inv(c, h);
    StepKeepsInv(rule, c, h, AppendRpc(i, p));
    InvNode(c, h, i);
    InvNode(c, h, p);
    var q := AppendRequestFor(i, c.nodes[i], p);
    AppendedNode(c, h, i, p, top);
    hide AppendRequestFor, NoLater;
    ReceiveAppendKeeps(rule, c.nodes[i], p, NextFor(c.nodes[i], p), HandleAppend(c.nodes[p], q).1, top);
  }

  /** What an append leaves at its follower. */
  lemma AppendedNode(c: Cluster, h: History, i: NodeId, p: NodeId, top: nat)
    requires Enabled(c, AppendRpc(i, p)) && NodeOk(c, h, i) && NodeOk(c, h, p)
    requires c.nodes[i].term <= top && c.nodes[p].term <= top && NoLater(c.nodes[p].log, c.nodes[i].log)
    ensures var (m, reply) := HandleAppend(c.nodes[p], AppendRequestFor(i, c.nodes[i], p));
      m.term <= top && reply.term <= top && NoLater(m.log, c.nodes[i].log)
  {
    hide NodeOk, Heard;
    var q := AppendRequestFor(i, c.nodes[i], p);
    NotAccepted(c.nodes[p], q);
    AnswerTerm(c.nodes[p], q);
    HeardLog(c.nodes[p], q);
    hide HandleAppend, NoLater;
    if AppendAccepted(c, i, p) {
      AcceptedNode(c.nodes[p], q);
      AcceptedLog(c, h, i, p);
      MergedNoLater(c.nodes[p].log, c.nodes[i].log);
    }
  }

  lemma HeardLog(n: Node, r: AppendRequest)
    ensures Heard(n, r).log == n.log && (n.term <= r.term ==> Heard(n, r).term == r.term)
  {
  }

  lemma AnswerTerm(n: Node, r: AppendRequest)
    ensures HandleAppend(n, r).1.term == HandleAppend(n, r).0.term == if r.term < n.term then n.term else r.term
  {
    if n.term <= r.term { AppendTerms(n, r); }
  }

  lemma QuietKeepsCampaign(rule: AckRule, c: Cluster, i: NodeId, a: Action, top: nat, r: VoteRequest, ids: set<NodeId>, blocked: set<set<NodeId>>, log: Log)
    requires Campaigning(c, i, top, r, ids, blocked, log) && Enabled(c, a) && (a == Advance(i) || a == Apply(i))
    ensures Campaigning(Next(rule, c, a), i, top, r, ids, blocked, log)
  {
    hide Inv, NoLater, ApplyCommitted, CommitBelow;
    var h :| Inv(c, h);
    StepKeepsInv(rule, c, h, a);
    ApplyTerms(c.nodes[i]);
  }

  lemma VoteAnswers(n: Node, r: VoteRequest, top: nat)
    requires n.term <= top && r.term <= top
    ensures var (m, reply) := HandleVote(n, r); m.log == n.log && m.term <= top && reply.term <= top
  {
  }

  lemma ReceiveVoteKeeps(self: NodeId, peers: set<NodeId>, n: Node, p: NodeId, reply: VoteReply, top: nat)
    requires n.term <= top && reply.term <= top
    ensures var n' := ReceiveVote(self, peers, n, p, reply); n'.log == n.log && n.term <= n'.term <= top
  {
  }

  lemma VoteKeepsCampaign(rule: AckRule, c: Cluster, i: NodeId, p: NodeId, top: nat, r: VoteRequest, ids: set<NodeId>, blocked: set<set<NodeId>>, log: Log)
    requires Campaigning(c, i, top, r, ids, blocked, log) && r.candidate == i && p in c.nodes && p != i && Connected(c, i, p)
    ensures Campaigning(DoVote(c, r, p), i, top, r, ids, blocked, log)
  {
    hide Inv, NoLater, HandleVote, ReceiveVote;
    var h :| Inv(c, h);
    StepKeepsInv(rule, c, h, VoteRpc(r, p));
    VoteAnswers(c.nodes[p], r, top);
    ReceiveVoteKeeps(i, c.nodes.Keys - {i}, c.nodes[i], p, HandleVote(c.nodes[p], r).1, top);
  }

  lemma CampaigningKept(rule: AckRule, i: NodeId, top: nat, r: VoteRequest, ids: set<NodeId>, blocked: set<set<NodeId>>, log: Log)
    requires r.candidate == i
    ensures Kept((c: Cluster) => Campaigning(c, i, top, r, ids, blocked, log), rule, i)
    ensures KeptByVotes((c: Cluster) => Campaigning(c, i, top, r, ids, blocked, log), r)
  {
    hide Campaigning, DoVote, Next;
    var keeps := (c: Cluster) => Campaigning(c, i, top, r, ids, blocked, log);
    forall c: Cluster, p: NodeId | keeps(c) && Enabled(c, AppendRpc(i, p)) ensures keeps(Next(rule, c, AppendRpc(i, p))) {
      AppendKeepsCampaign(rule, c, i, p, top, r, ids, blocked, log);
    }
    forall c: Cluster | keeps(c) && Enabled(c, Advance(i)) ensures keeps(Next(rule, c, Advance(i))) {
      QuietKeepsCampaign(rule, c, i, Advance(i), top, r, ids, blocked, log);
    }
    forall c: Cluster | keeps(c) && Enabled(c, Apply(i)) ensures keeps(Next(rule, c, Apply(i))) {
      QuietKeepsCampaign(rule, c, i, Apply(i), top, r, ids, blocked, log);
    }
    forall c: Cluster, p: NodeId | keeps(c) && i in c.nodes && p in c.nodes && p != i && Connected(c, i, p) ensures keeps(DoVote(c, r, p)) {
      VoteKeepsCampaign(rule, c, i, p, top, r, ids, blocked, log);
    }
  }

  /** Standing raises the term, and keeps the candidate's log the latest among those it reaches. */
  lemma StandingAgain(rule: AckRule, c: Cluster, i: NodeId, peers: seq<NodeId>, top: nat)
    requires Explained(c) && Latest(c, i, top) && c.nodes[i].term < top && forall p | p in peers :: p in c.nodes && p != i
    ensures var c' := StartElection(rule, c, i, peers).cluster;
      Explained(c') && Latest(c', i, top) && c.nodes[i].term < c'.nodes[i].term && c'.nodes.Keys == c.nodes.Keys && c'.blocked == c.blocked
  {
    hide Inv, Campaign, NoLater, Kept, KeptByVotes;
    var c1 := Next(rule, c, Timeout(i));
    var r := VoteRequestOf(i, c1.nodes[i]);
    var h :| Inv(c, h);
    StepKeepsInv(rule, c, h, Timeout(i));
    var keeps := (c2: Cluster) => Campaigning(c2, i, top, r, c.nodes.Keys, c.blocked, c.nodes[i].log);
    assert Explained(c1);
    assert keeps(c1);
    CampaigningKept(rule, i, top, r, c.nodes.Keys, c.blocked, c.nodes[i].log);
    CampaignKeeps(keeps, rule, c1, i, peers, r, peers);
    assert keeps(StartElection(rule, c, i, peers).cluster);
  }

  function StandTimes(rule: AckRule, c: Cluster, i: NodeId, peers: seq<NodeId>, n: nat): (c': Cluster)
    requires i in c.nodes && forall p | p in peers :: p in c.nodes && p != i
    ensures c'.nodes.Keys == c.nodes.Keys
    decreases n
  {
    if n == 0 then c else StandTimes(rule, StartElection(rule, c, i, peers).cluster, i, peers, n - 1)
  }

  /** A node that reaches more than half of the cluster, none of them with a later log, is elected by its first
      election in a term that none of them has reached. */
  lemma {:induction false} LatestIsElected(rule: AckRule, c: Cluster, i: NodeId, peers: seq<NodeId>, top: nat) returns (n: nat)
    requires Explained(c) && Latest(c, i, top)
    requires Distinct(peers) && (forall p :: p in peers <==> p in c.nodes && p != i) && peers != []
    requires 2 * (1 + |Reachable(c, i)|) > |c.nodes.Keys|
    ensures n <= top - c.nodes[i].term + 1 && StandTimes(rule, c, i, peers, n).nodes[i].role == Leader
    decreases top - c.nodes[i].term
  {
    hide StartElection, Explained, Inv, NoLater;
    if c.nodes[i].term == top {
      ElectedIff(rule, c, i, peers);
      assert (set p | p in peers && Connected(c, i, p) && NoLater(c.nodes[p].log, c.nodes[i].log)) == Reachable(c, i);
      n := 1;
      OnceMore(rule, c, i, peers, 1);
    } else {
      StandingAgain(rule, c, i, peers, top);
      var c' := StartElection(rule, c, i, peers).cluster;
      assert Reachable(c', i) == Reachable(c, i);
      n := LatestIsElected(rule, c', i, peers, top);
      n := n + 1;
      OnceMore(rule, c, i, peers, n);
    }
  }

  lemma OnceMore(rule: AckRule, c: Cluster, i: NodeId, peers: seq<NodeId>, n: nat)
    requires i in c.nodes && (forall p | p in peers :: p in c.nodes && p != i) && n > 0
    ensures StandTimes(rule, c, i, peers, n) == StandTimes(rule, StartElection(rule, c, i, peers).cluster, i, peers, n - 1)
    ensures StandTimes(rule, c, i, peers, 0) == c
  {
    hide StartElection;
  }

  lemma {:induction false} LatestOf(c: Cluster, members: set<NodeId>) returns (i: NodeId, top: nat)
    requires members != {} && members <= c.nodes.Keys
    ensures i in members && forall p | p in members :: NoLater(c.nodes[p].log, c.nodes[i].log) && c.nodes[p].term <= top
    decreases members
  {
    var x :| x in members;
    if members == {x} {
      return x, c.nodes[x].term;
    }
    var rest := members - {x};
    i, top := LatestOf(c, rest);
    assert members == rest + {x};
    if NoLater(c.nodes[i].log, c.nodes[x].log) {
      forall p | p in rest ensures NoLater(c.nodes[p].log, c.nodes[x].log) {
        NoLaterTransitive(c.nodes[p].log, c.nodes[i].log, c.nodes[x].log);
      }
      i := x;
    }
    top := if top < c.nodes[x].term then c.nodes[x].term else top;
  }

  lemma {:induction false} OthersDistinct(ids: seq<NodeId>, i: NodeId)
    requires Distinct(ids)
    ensures Distinct(Others(ids, i))
  {
    if ids != [] {
      OthersDistinct(ids[1..], i);
      var rest := Others(ids[1..], i);
      forall k | 0 <= k < |rest| ensures rest[k] != ids[0] {
        assert rest[k] in rest && rest[k] in ids[1..];
      }
    }
  }

  /** In any reachable state, whatever the runs before and under either acknowledgement rule, a majority whose members
      reach each other and nobody else has a member that is elected by standing, at most so often that its term passes
      theirs. */
  lemma ConnectedMajorityElects(rule: AckRule, ids: seq<NodeId>, actions: seq<Action>, members: set<NodeId>) returns (i: NodeId, n: nat)
    requires Runs(rule, Initial(set p | p in ids), actions) && Distinct(ids) && |ids| > 1
    requires var c := After(rule, Initial(set p | p in ids), actions);
      && members <= c.nodes.Keys && 2 * |members| > |c.nodes.Keys|
      && forall a, b | a in members && b in c.nodes && a != b :: Connected(c, a, b) <==> b in members
    ensures var c := After(rule, Initial(set p | p in ids), actions);
      i in members && StandTimes(rule, c, i, Others(ids, i), n).nodes[i].role == Leader
  {
    hide Inv, Runs, After, StandTimes;
    var all := set p | p in ids;
    RunFromStart(rule, all, actions);
    i, n := MajorityElects(rule, After(rule, Initial(all), actions), ids, members);
  }

  lemma MajorityElects(rule: AckRule, c: Cluster, ids: seq<NodeId>, members: set<NodeId>) returns (i: NodeId, n: nat)
    requires Explained(c) && Distinct(ids) && |ids| > 1 && c.nodes.Keys == set p | p in ids
    requires members <= c.nodes.Keys && 2 * |members| > |c.nodes.Keys|
    requires forall a, b | a in members && b in c.nodes && a != b :: Connected(c, a, b) <==> b in members
    ensures i in members && StandTimes(rule, c, i, Others(ids, i), n).nodes[i].role == Leader
  {
    hide Explained, NoLater, StandTimes, Others, Distinct, Connected;
    var top;
    i, top := LatestOf(c, members);
    OthersDistinct(ids, i);
    SomeOthers(ids, i);
    assert members == Reachable(c, i) + {i};
    n := LatestIsElected(rule, c, i, Others(ids, i), top);
  }

  lemma SomeOthers(ids: seq<NodeId>, i: NodeId)
    requires Distinct(ids) && |ids| > 1
    ensures Others(ids, i) != []
  {
    var p := if ids[0] != i then ids[0] else ids[1];
    assert p in ids && p in Others(ids, i);
  }
}
