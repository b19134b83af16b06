/** Every step of the Raft cluster keeps the invariant. */
module RaftSteps {
  import opened RaftProtocol
  import opened RaftInvariant

  // ---------------------------------------------------------------- growth of the history

  /** Elections stay, and their logs only grow, by entries of their own term. */
  ghost predicate Grows(h: History, h': History) {
    forall t | t in h.elections ::
      && t in h'.elections
      && h'.elections[t].leader == h.elections[t].leader
      && h'.elections[t].quorum == h.elections[t].quorum
      && Agree(h.elections[t].log, h'.elections[t].log, |h.elections[t].log|)
      && (forall j | |h.elections[t].log| <= j < |h'.elections[t].log| :: h'.elections[t].log[j].term == t)
  }

  lemma SoundGrows(log: Log, h: History, h': History)
    requires Grows(h, h') && Sound(log, h)
    ensures Sound(log, h')
  {
    forall i: nat ensures AnchoredAt(log, h', i) {
      assert AnchoredAt(log, h, i);
    }
  }

  /** An old prefix that ends in its own term's entry is in a log after the growth only if it was before. */
  lemma HasOnlyIfBefore(h: History, h': History, t: nat, k: nat, u: nat)
    requires Grows(h, h') && Own(h, t, k) && t != u && u in h.elections
    requires Has(h', t, k, h'.elections[u].log)
    ensures Has(h, t, k, h.elections[u].log)
  {
    var now := h'.elections[u].log;
    assert Agree(h.elections[t].log, h'.elections[t].log, |h.elections[t].log|);
    assert now[k - 1] == h.elections[t].log[k - 1];
    assert k <= |h.elections[u].log|;
  }

  lemma HasGrows(h: History, h': History, t: nat, k: nat, log: Log)
    requires Grows(h, h') && t in h.elections && k <= |h.elections[t].log|
    ensures Has(h, t, k, log) <==> Has(h', t, k, log)
  {
    assert Agree(h.elections[t].log, h'.elections[t].log, |h.elections[t].log|);
  }

  /** From `c` to `c'` no term falls, no bid or ballot is lost, and elections only grow. */
  ghost predicate Onward(c: Cluster, h: History, c': Cluster, h': History) {
    && c'.nodes.Keys == c.nodes.Keys
    && (forall i | i in c.nodes :: c.nodes[i].term <= c'.nodes[i].term)
    && (forall i, t | (i, t) in h.bids :: (i, t) in h'.bids && h'.bids[(i, t)] == h.bids[(i, t)])
    && (forall v, t | (v, t) in h.ballots :: (v, t) in h'.ballots && h'.ballots[(v, t)] == h.ballots[(v, t)])
    && Grows(h, h')
  }

  lemma ElectionOnward(c: Cluster, h: History, c': Cluster, h': History, t: nat)
    requires Onward(c, h, c', h') && t in h.elections && ElectionOk(c, h, t) && h'.elections[t] == h.elections[t]
    ensures ElectionOk(c', h', t)
  {
    SoundGrows(h.elections[t].log, h, h');
  }

  lemma BallotsOnward(c: Cluster, h: History, c': Cluster, h': History)
    requires Onward(c, h, c', h') && BallotsOk(h) && h'.ballots == h.ballots
    ensures BallotsOk(h')
  {
    forall v, t | (v, t) in h'.ballots ensures BallotOk(h', v, t) {
      assert BallotOk(h, v, t);
      SoundGrows(h.ballots[(v, t)].log, h, h');
    }
  }

  lemma BidsOnward(c: Cluster, h: History, c': Cluster, h': History)
    requires Onward(c, h, c', h') && BidsOk(c, h) && h'.bids == h.bids && c'.issued == c.issued
    ensures BidsOk(c', h')
  {
    forall i, t | (i, t) in h'.bids ensures BidOk(c', h', i, t) {
      assert BidOk(c, h, i, t);
      SoundGrows(h.bids[(i, t)], h, h');
    }
  }

  /** A node that does not change keeps its part of the invariant, unless its own election does. */
  lemma NodeOnward(c: Cluster, h: History, c': Cluster, h': History, i: NodeId)
    requires Onward(c, h, c', h') && i in c.nodes && NodeOk(c, h, i) && c'.nodes[i] == c.nodes[i]
    requires c.nodes[i].term in h'.elections ==>
               if c.nodes[i].term in h.elections
               then h'.elections[c.nodes[i].term] == h.elections[c.nodes[i].term] || h.elections[c.nodes[i].term].leader != i
               else h'.elections[c.nodes[i].term].leader != i
    requires forall t | (i, t) in h.stored :: (i, t) in h'.stored && (t == c.nodes[i].term ==> h'.stored[(i, t)] == h.stored[(i, t)])
    ensures NodeOk(c', h', i)
  {
    SoundGrows(c.nodes[i].log, h, h');
  }

  /** Only node `i` changes, and no node's election does. */
  lemma OthersOnward(c: Cluster, h: History, c': Cluster, h': History, i: NodeId)
    requires Onward(c, h, c', h') && RolesOk(c, h) && i in c.nodes
    requires forall j | j in c.nodes && j != i :: c'.nodes[j] == c.nodes[j]
    requires forall t | t in h'.elections && !(t in h.elections && h'.elections[t] == h.elections[t]) :: h'.elections[t].leader == i
    requires forall v, t | (v, t) in h.stored && v != i :: (v, t) in h'.stored && h'.stored[(v, t)] == h.stored[(v, t)]
    requires NodeOk(c', h', i)
    ensures RolesOk(c', h')
  {
    forall j | j in c'.nodes ensures NodeOk(c', h', j) {
      if j != i { NodeOnward(c, h, c', h', j); }
    }
  }

  lemma ElectionsOnward(c: Cluster, h: History, c': Cluster, h': History)
    requires Onward(c, h, c', h') && ElectionsOk(c, h) && h'.elections == h.elections
    ensures ElectionsOk(c', h')
  {
    forall t | t in h'.elections ensures ElectionOk(c', h', t) { ElectionOnward(c, h, c', h', t); }
  }

  // ---------------------------------------------------------------- steps that leave elections and logs alone

  ghost predicate SameLogs(c: Cluster, c': Cluster) {
    c'.nodes.Keys == c.nodes.Keys && forall i | i in c.nodes :: c'.nodes[i].log == c.nodes[i].log
  }

  lemma SourcesSame(h: History, h': History, v: NodeId, t: nat, k: nat)
    requires h'.elections == h.elections && h'.stored == h.stored
    ensures LaterSourcesHave(h', v, t, k) == LaterSourcesHave(h, v, t, k)
  {
    assert forall log :: Has(h', t, k, log) == Has(h, t, k, log);
  }

  lemma BetweenSame(h: History, h': History, t: nat, end: nat, k: nat)
    requires h'.elections == h.elections
    ensures LeadersBetweenHave(h', t, end, k) == LeadersBetweenHave(h, t, end, k)
  {
    assert forall log :: Has(h', t, k, log) == Has(h, t, k, log);
  }

  lemma KeepsSame(c: Cluster, h: History, c': Cluster, h': History)
    requires SameLogs(c, c') && KeepsOk(c, h) && h'.elections == h.elections && h'.stored == h.stored
    ensures KeepsOk(c', h')
  {
    forall v: NodeId, t: nat, k: nat ensures Keeps(c', h', v, t, k) {
      assert Keeps(c, h, v, t, k);
      SourcesSame(h, h', v, t, k);
    }
  }

  /** A ballot cast now, with the voter's present log, keeps what the voter has stored. */
  lemma FreshBallotKeeps(c: Cluster, h: History, h': History, v: NodeId, t: nat, end: nat, k: nat)
    requires ElectionsOk(c, h) && StoredOk(c, h) && KeepsOk(c, h)
    requires v in c.nodes && end >= c.nodes[v].term && (v, end) !in h.ballots
    requires h'.elections == h.elections && h'.stored == h.stored
    requires (v, end) in h'.ballots && h'.ballots[(v, end)].log == c.nodes[v].log
    ensures BallotKeeps(h', v, t, end, k)
  {
    assert Keeps(c, h, v, t, k);
    assert end in h.elections ==> ElectionOk(c, h, end);
    BetweenSame(h, h', t, end, k);
    if end !in h.elections && LeadersBetweenHave(h, t, end, k) {
      assert LaterSourcesHave(h, v, t, k);
    }
  }

  lemma FreshBallotKeepsOk(c: Cluster, h: History, h': History, p: NodeId, end: nat)
    requires ElectionsOk(c, h) && StoredOk(c, h) && KeepsOk(c, h) && BallotKeepsOk(h)
    requires p in c.nodes && end >= c.nodes[p].term && (p, end) !in h.ballots
    requires h'.elections == h.elections && h'.stored == h.stored
    requires exists i :: h'.ballots == h.ballots[(p, end) := Ballot(i, c.nodes[p].log)]
    ensures BallotKeepsOk(h')
  {
    forall v: NodeId, t: nat, e: nat, k: nat ensures BallotKeeps(h', v, t, e, k) {
      if (v, e) == (p, end) {
        FreshBallotKeeps(c, h, h', v, t, e, k);
      } else {
        assert BallotKeeps(h, v, t, e, k);
        BetweenSame(h, h', t, e, k);
      }
    }
  }

  // ---------------------------------------------------------------- quiet steps

  /** The node keeps its log; it may raise its term with no vote, or fall back to follower. */
  ghost predicate Quiet(n: Node, n': Node) {
    && n'.log == n.log
    && n'.disk == Disk(n'.term, n'.votedFor, n'.log)
    && ((n'.term == n.term && n'.votedFor == n.votedFor) || (n'.term > n.term && n'.votedFor == None))
    && (n'.role == Follower || (n'.role == n.role && n'.votes == n.votes && n'.term == n.term))
  }

  ghost predicate QuietStep(c: Cluster, c': Cluster)
  {
    c'.nodes.Keys == c.nodes.Keys && c'.issued == c.issued
    && forall i | i in c.nodes :: Quiet(c.nodes[i], c'.nodes[i])
  }

  lemma QuietVotes(c: Cluster, c': Cluster, h: History)
    requires VotesOk(c, h) && StoredOk(c, h) && QuietStep(c, c')
    ensures DiskOk(c') && VotesOk(c', h) && StoredOk(c', h)
  {
  }

  lemma QuietNode(c: Cluster, c': Cluster, h: History, i: NodeId)
    requires i in c.nodes && NodeOk(c, h, i) && QuietStep(c, c')
    ensures NodeOk(c', h, i)
  {
  }

  lemma QuietKeepsInv(c: Cluster, c': Cluster, h: History)
    requires Inv(c, h) && QuietStep(c, c')
    ensures Inv(c', h)
  {
    assert Onward(c, h, c', h);
    QuietVotes(c, c', h);
    BallotsOnward(c, h, c', h);
    BidsOnward(c, h, c', h);
    KeepsSame(c, h, c', h);
    forall i | i in c.nodes ensures NodeOk(c', h, i) { QuietNode(c, c', h, i); }
    forall t | t in h.elections ensures ElectionOk(c', h, t) { ElectionOnward(c, h, c', h, t); }
  }

  // ---------------------------------------------------------------- standing for election

  lemma TimeoutFresh(c: Cluster, h: History, i: NodeId)
    requires VotesOk(c, h) && BidsOk(c, h) && i in c.nodes
    ensures (i, c.nodes[i].term + 1) !in h.bids && (i, c.nodes[i].term + 1) !in h.ballots
  {
    forall j, u | (j, u) in h.bids && j == i ensures u <= c.nodes[i].term {
      assert BidOk(c, h, j, u);
    }
  }

  function StoodHistory(h: History, i: NodeId, n: Node): History {
    h.(bids := h.bids[(i, n.term) := n.log], ballots := h.ballots[(i, n.term) := Ballot(i, n.log)])
  }

  /** `i` stands in the next term. */
  ghost predicate Stands(c: Cluster, h: History, c': Cluster, h': History, i: NodeId) {
    && i in c.nodes
    && c' == SetNode(c, i, BeginElection(i, c.nodes[i])).(issued := c.issued + {VoteRequestOf(i, BeginElection(i, c.nodes[i]))})
    && h' == StoodHistory(h, i, c'.nodes[i])
    && (i, c.nodes[i].term + 1) !in h.bids && (i, c.nodes[i].term + 1) !in h.ballots
  }

  lemma StandsOnward(c: Cluster, h: History, c': Cluster, h': History, i: NodeId)
    requires Stands(c, h, c', h', i)
    ensures Onward(c, h, c', h') && SameLogs(c, c')
  {
  }

  lemma TimeoutVotes(c: Cluster, h: History, c': Cluster, h': History, i: NodeId)
    requires Stands(c, h, c', h', i) && DiskOk(c) && VotesOk(c, h) && NodeOk(c, h, i)
    ensures DiskOk(c') && VotesOk(c', h')
  {
    hide NodeOk;
  }

  lemma TimeoutBallots(c: Cluster, h: History, c': Cluster, h': History, i: NodeId)
    requires Stands(c, h, c', h', i) && DiskOk(c) && VotesOk(c, h) && BallotsOk(h) && NodeOk(c, h, i)
    ensures BallotsOk(h')
  {
    StandsOnward(c, h, c', h', i);
    hide Onward, Sound, TermsUpTo;
    SoundGrows(c.nodes[i].log, h, h');
    forall v, u | (v, u) in h'.ballots ensures BallotOk(h', v, u) {
      assert (v, u) != (i, c'.nodes[i].term) ==> BallotOk(h, v, u);
      SoundGrows(h'.ballots[(v, u)].log, h, h');
    }
  }

  lemma TimeoutBids(c: Cluster, h: History, c': Cluster, h': History, i: NodeId)
    requires Stands(c, h, c', h', i) && BidsOk(c, h) && NodeOk(c, h, i)
    ensures BidsOk(c', h')
  {
    StandsOnward(c, h, c', h', i);
    forall j, u | (j, u) in h'.bids ensures BidOk(c', h', j, u) {
      assert (j, u) != (i, c'.nodes[i].term) ==> BidOk(c, h, j, u);
      SoundGrows(h'.bids[(j, u)], h, h');
    }
  }

  lemma TimeoutRoles(c: Cluster, h: History, c': Cluster, h': History, i: NodeId)
    requires Stands(c, h, c', h', i) && RolesOk(c, h) && ElectionsOk(c, h)
    ensures RolesOk(c', h') && ElectionsOk(c', h')
  {
    StandsOnward(c, h, c', h', i);
    assert NodeOk(c, h, i);
    SoundGrows(c.nodes[i].log, h, h');
    hide Sound;
    var t := c'.nodes[i].term;
    if t in h.elections { assert ElectionOk(c, h, t); }
    OthersOnward(c, h, c', h', i);
    ElectionsOnward(c, h, c', h');
  }

  lemma TimeoutStored(c: Cluster, h: History, c': Cluster, h': History, i: NodeId)
    requires Stands(c, h, c', h', i) && ElectionsOk(c, h) && StoredOk(c, h) && KeepsOk(c, h) && BallotKeepsOk(h)
    ensures StoredOk(c', h') && KeepsOk(c', h') && BallotKeepsOk(h')
  {
    StandsOnward(c, h, c', h', i);
    KeepsSame(c, h, c', h');
    FreshBallotKeepsOk(c, h, h', i, c'.nodes[i].term);
  }

  lemma TimeoutKeepsInv(rule: AckRule, c: Cluster, h: History, i: NodeId)
    requires Inv(c, h) && i in c.nodes
    ensures Inv(Next(rule, c, Timeout(i)), Record(c, Next(rule, c, Timeout(i)), h, Timeout(i)))
  {
    var c' := Next(rule, c, Timeout(i));
    var h' := StoodHistory(h, i, c'.nodes[i]);
    TimeoutFresh(c, h, i);
    assert NodeOk(c, h, i);
    TimeoutVotes(c, h, c', h', i);
    TimeoutBallots(c, h, c', h', i);
    TimeoutBids(c, h, c', h', i);
    TimeoutRoles(c, h, c', h', i);
    TimeoutStored(c, h, c', h', i);
  }

  // ---------------------------------------------------------------- voting

  /** `p`, already in the request's term, gives its vote. */
  function Granted(c: Cluster, r: VoteRequest, p: NodeId): Cluster
    requires p in c.nodes
  {
    SetNode(c, p, Persist(c.nodes[p].(votedFor := Some(r.candidate))))
  }

  function WithBallot(c: Cluster, h: History, r: VoteRequest, p: NodeId): History
    requires p in c.nodes
  {
    if (p, r.term) in h.ballots then h
    else h.(ballots := h.ballots[(p, r.term) := Ballot(r.candidate, c.nodes[p].log)])
  }

  predicate MayGrant(c: Cluster, r: VoteRequest, p: NodeId) {
    && r in c.issued && p in c.nodes && c.nodes[p].term == r.term
    && (c.nodes[p].votedFor == None || c.nodes[p].votedFor == Some(r.candidate))
    && UpToDate(r.lastIndex, r.lastTerm, c.nodes[p].log)
  }

  lemma GrantVotes(c: Cluster, h: History, r: VoteRequest, p: NodeId)
    requires MayGrant(c, r, p) && VotesOk(c, h)
    ensures var c' := Granted(c, r, p);
            var h' := WithBallot(c, h, r, p);
            VotesOk(c', h') && (p, r.term) in h'.ballots && h'.ballots[(p, r.term)].candidate == r.candidate
  {
  }

  lemma GrantDisk(c: Cluster, h: History, r: VoteRequest, p: NodeId)
    requires MayGrant(c, r, p) && DiskOk(c) && StoredOk(c, h)
    ensures DiskOk(Granted(c, r, p)) && StoredOk(Granted(c, r, p), WithBallot(c, h, r, p))
  {
  }

  lemma GrantBallots(c: Cluster, h: History, r: VoteRequest, p: NodeId)
    requires MayGrant(c, r, p) && BallotsOk(h) && BidsOk(c, h) && NodeOk(c, h, p)
    ensures BallotsOk(WithBallot(c, h, r, p))
  {
    var h' := WithBallot(c, h, r, p);
    forall v, u | (v, u) in h'.ballots ensures BallotOk(h', v, u) {
      if (v, u) in h.ballots {
        assert BallotOk(h, v, u);
      }
      SoundGrows(h'.ballots[(v, u)].log, h, h');
    }
  }

  lemma GrantOnward(c: Cluster, h: History, r: VoteRequest, p: NodeId)
    requires MayGrant(c, r, p)
    ensures Onward(c, h, Granted(c, r, p), WithBallot(c, h, r, p)) && SameLogs(c, Granted(c, r, p))
  {
  }

  lemma GrantNode(c: Cluster, h: History, r: VoteRequest, p: NodeId)
    requires MayGrant(c, r, p) && NodeOk(c, h, p)
    ensures NodeOk(Granted(c, r, p), WithBallot(c, h, r, p), p)
  {
    hide Sound;
    GrantOnward(c, h, r, p);
    SoundGrows(c.nodes[p].log, h, WithBallot(c, h, r, p));
  }

  lemma GrantRoles(c: Cluster, h: History, r: VoteRequest, p: NodeId)
    requires MayGrant(c, r, p) && BidsOk(c, h) && RolesOk(c, h) && ElectionsOk(c, h)
    ensures BidsOk(Granted(c, r, p), WithBallot(c, h, r, p))
    ensures RolesOk(Granted(c, r, p), WithBallot(c, h, r, p)) && ElectionsOk(Granted(c, r, p), WithBallot(c, h, r, p))
  {
    hide ElectionOk, BidsOk, NodeOk;
    GrantOnward(c, h, r, p);
    GrantNode(c, h, r, p);
    BidsOnward(c, h, Granted(c, r, p), WithBallot(c, h, r, p));
    OthersOnward(c, h, Granted(c, r, p), WithBallot(c, h, r, p), p);
    ElectionsOnward(c, h, Granted(c, r, p), WithBallot(c, h, r, p));
  }

  lemma GrantStored(c: Cluster, h: History, r: VoteRequest, p: NodeId)
    requires MayGrant(c, r, p) && ElectionsOk(c, h) && StoredOk(c, h) && KeepsOk(c, h) && BallotKeepsOk(h)
    ensures KeepsOk(Granted(c, r, p), WithBallot(c, h, r, p)) && BallotKeepsOk(WithBallot(c, h, r, p))
  {
    var h' := WithBallot(c, h, r, p);
    GrantOnward(c, h, r, p);
    KeepsSame(c, h, Granted(c, r, p), h');
    if (p, r.term) !in h.ballots {
      FreshBallotKeepsOk(c, h, h', p, r.term);
    }
  }

  lemma GrantKeepsInv(c: Cluster, h: History, r: VoteRequest, p: NodeId)
    requires Inv(c, h) && MayGrant(c, r, p)
    ensures Inv(Granted(c, r, p), WithBallot(c, h, r, p))
    ensures (p, r.term) in WithBallot(c, h, r, p).ballots && WithBallot(c, h, r, p).ballots[(p, r.term)].candidate == r.candidate
  {
    assert NodeOk(c, h, p);
    GrantVotes(c, h, r, p);
    GrantDisk(c, h, r, p);
    GrantBallots(c, h, r, p);
    GrantRoles(c, h, r, p);
    GrantStored(c, h, r, p);
  }

  /** `i`, a candidate, counts the vote `p` gave it. */
  ghost predicate Counts(c: Cluster, c': Cluster, h: History, i: NodeId, p: NodeId) {
    && i in c.nodes && p in c.nodes && c.nodes[i].role == Candidate
    && (p, c.nodes[i].term) in h.ballots && h.ballots[(p, c.nodes[i].term)].candidate == i
    && c' == SetNode(c, i, c.nodes[i].(votes := c.nodes[i].votes + {p}))
  }

  lemma CountVoteVotes(c: Cluster, c': Cluster, h: History, i: NodeId, p: NodeId)
    requires Counts(c, c', h, i, p) && DiskOk(c) && VotesOk(c, h) && StoredOk(c, h)
    ensures DiskOk(c') && VotesOk(c', h) && StoredOk(c', h)
  {
  }

  lemma CountVoteOnward(c: Cluster, c': Cluster, h: History, i: NodeId, p: NodeId)
    requires Counts(c, c', h, i, p)
    ensures Onward(c, h, c', h) && SameLogs(c, c')
  {
  }

  lemma CountVoteKeeps(c: Cluster, c': Cluster, h: History, i: NodeId, p: NodeId)
    requires Counts(c, c', h, i, p) && BidsOk(c, h) && KeepsOk(c, h)
    ensures BidsOk(c', h) && KeepsOk(c', h)
  {
    hide Onward, SameLogs, BidsOk, KeepsOk;
    CountVoteOnward(c, c', h, i, p);
    BidsOnward(c, h, c', h);
    KeepsSame(c, h, c', h);
  }

  lemma CountVoteRoles(c: Cluster, c': Cluster, h: History, i: NodeId, p: NodeId)
    requires Counts(c, c', h, i, p) && RolesOk(c, h) && ElectionsOk(c, h)
    ensures RolesOk(c', h) && ElectionsOk(c', h)
  {
    hide Onward, SameLogs, ElectionOk;
    CountVoteOnward(c, c', h, i, p);
    assert NodeOk(c, h, i);
    OthersOnward(c, h, c', h, i);
    ElectionsOnward(c, h, c', h);
  }

  lemma CountVoteKeepsInv(c: Cluster, c': Cluster, h: History, i: NodeId, p: NodeId)
    requires Inv(c, h) && Counts(c, c', h, i, p)
    ensures Inv(c', h)
  {
    CountVoteVotes(c, c', h, i, p);
    CountVoteKeeps(c, c', h, i, p);
    CountVoteRoles(c, c', h, i, p);
  }

  // ---------------------------------------------------------------- winning

  lemma {:induction false} SubsetSize(a: set<NodeId>, b: set<NodeId>)
    requires a <= b
    ensures |a| <= |b|
  {
    if a != {} {
      var x :| x in a;
      SubsetSize(a - {x}, b - {x});
    }
  }

  /** Two majorities of one cluster share a member. */
  lemma MajoritiesMeet(ids: set<NodeId>, a: set<NodeId>, b: set<NodeId>) returns (v: NodeId)
    requires a <= ids && b <= ids && |a| >= Majority(|ids|) && |b| >= Majority(|ids|)
    ensures v in a && v in b
  {
    if a * b == {} {
      assert |a + b| == |a| + |b|;
      SubsetSize(a + b, ids);
      assert false;
    }
    v :| v in a * b;
  }

  /** A candidate with a majority of votes wins a term that nobody has won. */
  lemma TermIsFree(c: Cluster, h: History, i: NodeId)
    requires ElectionsOk(c, h) && i in c.nodes && NodeOk(c, h, i)
    requires c.nodes[i].role == Candidate && |c.nodes[i].votes| >= Majority(|c.nodes.Keys|)
    ensures c.nodes[i].term !in h.elections
  {
    var t := c.nodes[i].term;
    if t in h.elections {
      assert ElectionOk(c, h, t);
      var v := MajoritiesMeet(c.nodes.Keys, c.nodes[i].votes, h.elections[t].quorum);
      assert false;
    }
  }

  function WonHistory(h: History, i: NodeId, n: Node): History {
    h.(elections := h.elections[n.term := Election(i, n.votes, n.log)], stored := h.stored[(i, n.term) := |n.log|])
  }

  ghost predicate Wins(c: Cluster, h: History, c': Cluster, h': History, i: NodeId) {
    && i in c.nodes && c.nodes[i].role == Candidate && |c.nodes[i].votes| >= Majority(|c.nodes.Keys|)
    && c.nodes[i].term !in h.elections
    && c' == SetNode(c, i, BecomeLeader(i, c.nodes.Keys - {i}, c.nodes[i]))
    && h' == WonHistory(h, i, c.nodes[i])
  }

  lemma WinsOnward(c: Cluster, h: History, c': Cluster, h': History, i: NodeId)
    requires Wins(c, h, c', h', i)
    ensures Onward(c, h, c', h') && SameLogs(c, c')
  {
    WinSameLogs(c, h, c', h', i);
    WinGrows(h, i, c.nodes[i]);
    hide SameLogs, Grows;
  }

  lemma WinSameLogs(c: Cluster, h: History, c': Cluster, h': History, i: NodeId)
    requires Wins(c, h, c', h', i)
    ensures SameLogs(c, c')
  {
  }

  lemma WinVotes(c: Cluster, h: History, c': Cluster, h': History, i: NodeId)
    requires Wins(c, h, c', h', i) && DiskOk(c) && VotesOk(c, h)
    ensures DiskOk(c') && VotesOk(c', h')
  {
  }

  lemma WinStored(c: Cluster, h: History, c': Cluster, h': History, i: NodeId)
    requires Wins(c, h, c', h', i) && StoredOk(c, h)
    ensures StoredOk(c', h')
  {
  }

  lemma WinBallots(c: Cluster, h: History, c': Cluster, h': History, i: NodeId)
    requires Wins(c, h, c', h', i) && BallotsOk(h) && BidsOk(c, h)
    ensures BallotsOk(h') && BidsOk(c', h')
  {
    hide BallotsOk, BidsOk;
    WinsOnward(c, h, c', h', i);
    BallotsOnward(c, h, c', h');
    BidsOnward(c, h, c', h');
  }

  lemma WinElection(c: Cluster, h: History, c': Cluster, h': History, i: NodeId)
    requires Wins(c, h, c', h', i) && NodeOk(c, h, i) && BidsOk(c, h)
    ensures ElectionOk(c', h', c.nodes[i].term) && NodeOk(c', h', i)
  {
    WinsOnward(c, h, c', h', i);
    SoundGrows(c.nodes[i].log, h, h');
    assert BidOk(c, h, i, c.nodes[i].term);
  }

  lemma WinRoles(c: Cluster, h: History, c': Cluster, h': History, i: NodeId)
    requires Wins(c, h, c', h', i) && BidsOk(c, h) && RolesOk(c, h) && ElectionsOk(c, h)
    ensures RolesOk(c', h')
  {
    hide NodeOk, ElectionOk, BidsOk, Onward, SameLogs;
    WinsOnward(c, h, c', h', i);
    WinElection(c, h, c', h', i);
    OthersOnward(c, h, c', h', i);
  }

  lemma WinElections(c: Cluster, h: History, c': Cluster, h': History, i: NodeId)
    requires Wins(c, h, c', h', i) && BidsOk(c, h) && RolesOk(c, h) && ElectionsOk(c, h)
    ensures ElectionsOk(c', h')
  {
    hide NodeOk, ElectionOk, BidsOk, Onward, SameLogs;
    WinsOnward(c, h, c', h', i);
    WinElection(c, h, c', h', i);
    forall u | u in h'.elections ensures ElectionOk(c', h', u) {
      if u != c.nodes[i].term { ElectionOnward(c, h, c', h', u); }
    }
  }

  lemma WinKeeps(c: Cluster, h: History, c': Cluster, h': History, i: NodeId)
    requires Wins(c, h, c', h', i) && KeepsOk(c, h) && StoredOk(c, h)
    ensures KeepsOk(c', h')
  {
    WinsOnward(c, h, c', h', i);
    forall v: NodeId, u: nat, k: nat ensures Keeps(c', h', v, u, k) {
      assert Keeps(c, h, v, u, k);
      if v in c.nodes && (v, u) in h'.stored && k <= h'.stored[(v, u)] && Own(h', u, k) && LaterSourcesHave(h', v, u, k)
         && u != c.nodes[i].term
      {
        HasGrows(h, h', u, k, c.nodes[v].log);
        forall w | u < w && (v, w) in h.stored && w in h.elections ensures Has(h, u, k, h.elections[w].log) {
          assert Has(h', u, k, h'.elections[w].log);
        }
        assert LaterSourcesHave(h, v, u, k);
      }
    }
  }

  lemma WinGrows(h: History, i: NodeId, n: Node)
    requires n.term !in h.elections
    ensures Grows(h, WonHistory(h, i, n))
  {
  }

  lemma WinBallotKeeps(c: Cluster, h: History, c': Cluster, h': History, i: NodeId)
    requires Wins(c, h, c', h', i) && BallotKeepsOk(h) && StoredOk(c, h) && VotesOk(c, h)
    ensures BallotKeepsOk(h')
  {
    WinGrows(h, i, c.nodes[i]);
    hide Grows, Has;
    forall v: NodeId, u: nat, end: nat, k: nat ensures BallotKeeps(h', v, u, end, k) {
      assert BallotKeeps(h, v, u, end, k);
      if Counted(h', v, end) && (v, u) in h'.stored && u < end && k <= h'.stored[(v, u)] && Own(h', u, k)
         && LeadersBetweenHave(h', u, end, k)
      {
        assert u != c.nodes[i].term;  // only `i` has stored anything of its own term, and it has no later ballot
        HasGrows(h, h', u, k, h.ballots[(v, end)].log);
        forall w | u < w < end && w in h.elections ensures Has(h, u, k, h.elections[w].log) {
          assert Has(h', u, k, h'.elections[w].log);
          HasGrows(h, h', u, k, h.elections[w].log);
        }
        assert LeadersBetweenHave(h, u, end, k);
      }
    }
  }

  lemma WinKeepsInv(c: Cluster, c': Cluster, h: History, i: NodeId)
    requires Inv(c, h) && i in c.nodes && c.nodes[i].role == Candidate && |c.nodes[i].votes| >= Majority(|c.nodes.Keys|)
    requires c' == SetNode(c, i, BecomeLeader(i, c.nodes.Keys - {i}, c.nodes[i]))
    ensures c.nodes[i].term !in h.elections
    ensures Inv(c', WonHistory(h, i, c.nodes[i]))
  {
    var h' := WonHistory(h, i, c.nodes[i]);
    assert NodeOk(c, h, i);
    TermIsFree(c, h, i);
    WinVotes(c, h, c', h', i);
    WinStored(c, h, c', h', i);
    WinBallots(c, h, c', h', i);
    WinRoles(c, h, c', h', i);
    WinElections(c, h, c', h', i);
    WinKeeps(c, h, c', h', i);
    WinBallotKeeps(c, h, c', h', i);
  }
}
