/** Appending, proposing and the remaining steps keep the invariant; so every run does. */
module RaftAppendSteps {
  import opened RaftProtocol
  import opened RaftInvariant
  import opened RaftSteps

  // ---------------------------------------------------------------- log matching

  /** Two sound logs with the same term at one position are the same up to it. */
  lemma SameTermSamePrefix(a: Log, b: Log, h: History, j: nat)
    requires Sound(a, h) && Sound(b, h) && j < |a| && j < |b| && a[j].term == b[j].term
    ensures Agree(a, b, j + 1)
  {
    assert AnchoredAt(a, h, j) && AnchoredAt(b, h, j);
  }

  lemma {:induction false} MergeFrom(log: Log, leader: Log, i: nat)
    requires i <= |leader| && Agree(log, leader, i)
    requires forall j | i <= j < |log| && j < |leader| && log[j].term == leader[j].term :: log[j] == leader[j]
    ensures Merge(log, i, leader[i..]) == if Agree(leader, log, |leader|) then log else leader
    decreases |leader| - i
  {
    if i == |leader| {
      assert leader[i..] == [];
    } else {
      assert leader[i..][1..] == leader[i + 1..] && leader[i..][0] == leader[i];
      if i < |log| && log[i].term == leader[i].term {
        MergeFrom(log, leader, i + 1);
      } else {
        var grown := leader[..i + 1];
        assert log[..i] + [leader[i]] == grown;
        if i == |log| { assert log[..i] == log; }
        MergeFrom(grown, leader, i + 1);
        assert !Agree(leader, log, |leader|);
        if Agree(leader, grown, |leader|) { assert grown == leader; }
      }
    }
  }

  /** A follower that accepts an append keeps its log if the leader's is a prefix of it, and
      otherwise ends with exactly the leader's log, whatever conflicting tail it had. */
  lemma MergeResult(log: Log, leader: Log, next: nat, h: History)
    requires Sound(log, h) && Sound(leader, h) && next <= |leader|
    requires Matches(log, next - 1, if next > 0 then leader[next - 1].term else 0)
    ensures next <= |log|
    ensures Merge(log, next, leader[next..]) == if Agree(leader, log, |leader|) then log else leader
  {
    if next > 0 {
      SameTermSamePrefix(log, leader, h, next - 1);
    }
    forall j | next <= j < |log| && j < |leader| && log[j].term == leader[j].term ensures log[j] == leader[j] {
      SameTermSamePrefix(log, leader, h, j);
    }
    MergeFrom(log, leader, next);
  }

  // ---------------------------------------------------------------- an accepted append

  function Merged(log: Log, leader: Log): Log {
    if leader <= log then log else leader
  }

  function StoredHistory(h: History, p: NodeId, n: Node): History {
    h.(stored := h.stored[(p, n.term) := |n.log|])
  }

  /** Follower `p`, in the term of leader `l`, takes over `l`'s log. */
  ghost predicate Accepts(c: Cluster, h: History, c': Cluster, h': History, l: NodeId, p: NodeId) {
    && l in c.nodes && p in c.nodes && l != p && c.nodes[l].role == Leader
    && c.nodes[p].term == c.nodes[l].term && c'.issued == c.issued
    && p in c'.nodes && c'.nodes == c.nodes[p := c'.nodes[p]]
    && c'.nodes[p].role == Follower && c'.nodes[p].term == c.nodes[p].term && c'.nodes[p].votedFor == c.nodes[p].votedFor
    && c'.nodes[p].log == Merged(c.nodes[p].log, c.nodes[l].log)
    && c'.nodes[p].disk == Disk(c'.nodes[p].term, c'.nodes[p].votedFor, c'.nodes[p].log)
    && h' == StoredHistory(h, p, c.nodes[l])
  }

  lemma AcceptsOnward(c: Cluster, h: History, c': Cluster, h': History, l: NodeId, p: NodeId)
    requires Accepts(c, h, c', h', l, p)
    ensures Onward(c, h, c', h')
  {
  }

  lemma AcceptVotes(c: Cluster, h: History, c': Cluster, h': History, l: NodeId, p: NodeId)
    requires Accepts(c, h, c', h', l, p)
    requires DiskOk(c) && VotesOk(c, h) && BallotsOk(h) && BidsOk(c, h) && StoredOk(c, h) && NodeOk(c, h, l)
    ensures DiskOk(c') && VotesOk(c', h') && BallotsOk(h') && BidsOk(c', h') && StoredOk(c', h')
  {
    AcceptsOnward(c, h, c', h', l, p);
    BallotsOnward(c, h, c', h');
    BidsOnward(c, h, c', h');
  }

  lemma AcceptNode(c: Cluster, h: History, c': Cluster, h': History, l: NodeId, p: NodeId)
    requires Accepts(c, h, c', h', l, p) && NodeOk(c, h, l) && NodeOk(c, h, p)
    ensures NodeOk(c', h', p)
  {
    AcceptsOnward(c, h, c', h', l, p);
    SoundGrows(c'.nodes[p].log, h, h');
  }

  lemma AcceptRoles(c: Cluster, h: History, c': Cluster, h': History, l: NodeId, p: NodeId)
    requires Accepts(c, h, c', h', l, p)
    requires RolesOk(c, h) && ElectionsOk(c, h)
    ensures RolesOk(c', h') && ElectionsOk(c', h')
  {
    hide NodeOk, ElectionOk;
    AcceptsOnward(c, h, c', h', l, p);
    AcceptNode(c, h, c', h', l, p);
    OthersOnward(c, h, c', h', p);
    ElectionsOnward(c, h, c', h');
  }

  lemma AcceptKeeps(c: Cluster, h: History, c': Cluster, h': History, l: NodeId, p: NodeId)
    requires Accepts(c, h, c', h', l, p)
    requires StoredOk(c, h) && KeepsOk(c, h) && NodeOk(c, h, l)
    ensures KeepsOk(c', h')
  {
    var t := c.nodes[l].term;
    forall v: NodeId, u: nat, k: nat ensures Keeps(c', h', v, u, k) {
      assert Keeps(c, h, v, u, k);
      if v == p {
        if (v, u) in h'.stored && k <= h'.stored[(v, u)] && Own(h', u, k) && LaterSourcesHave(h', v, u, k) && u < t {
          assert Has(h', u, k, h'.elections[t].log);
        }
      } else if LaterSourcesHave(h', v, u, k) {
        forall w | u < w && (v, w) in h.stored && w in h.elections ensures Has(h, u, k, h.elections[w].log) {
          assert Has(h', u, k, h'.elections[w].log);
        }
        assert LaterSourcesHave(h, v, u, k);
      }
    }
  }

  lemma AcceptBallotKeeps(c: Cluster, h: History, c': Cluster, h': History, l: NodeId, p: NodeId)
    requires Accepts(c, h, c', h', l, p)
    requires VotesOk(c, h) && BallotKeepsOk(h)
    ensures BallotKeepsOk(h')
  {
    forall v: NodeId, u: nat, end: nat, k: nat ensures BallotKeeps(h', v, u, end, k) {
      assert BallotKeeps(h, v, u, end, k);
      BetweenSame(h, h', u, end, k);
    }
  }

  lemma AcceptKeepsInv(c: Cluster, h: History, c': Cluster, h': History, l: NodeId, p: NodeId)
    requires Accepts(c, h, c', h', l, p) && Inv(c, h)
    ensures Inv(c', h')
  {
    assert NodeOk(c, h, l);
    AcceptVotes(c, h, c', h', l, p);
    AcceptRoles(c, h, c', h', l, p);
    AcceptKeeps(c, h, c', h', l, p);
    AcceptBallotKeeps(c, h, c', h', l, p);
  }

  // ---------------------------------------------------------------- proposing

  function GrownHistory(h: History, l: NodeId, n: Node): History
    requires n.term in h.elections
  {
    h.(elections := h.elections[n.term := h.elections[n.term].(log := n.log)], stored := h.stored[(l, n.term) := |n.log|])
  }

  ghost predicate Proposes(c: Cluster, h: History, c': Cluster, h': History, l: NodeId, command: Command) {
    && l in c.nodes && c.nodes[l].role == Leader && c.nodes[l].term in h.elections
    && c' == SetNode(c, l, AppendOwn(l, c.nodes[l], command))
    && h' == GrownHistory(h, l, c'.nodes[l])
  }

  lemma ProposesOnward(c: Cluster, h: History, c': Cluster, h': History, l: NodeId, command: Command)
    requires Proposes(c, h, c', h', l, command) && NodeOk(c, h, l)
    ensures Onward(c, h, c', h')
  {
  }

  lemma ProposeVotes(c: Cluster, h: History, c': Cluster, h': History, l: NodeId, command: Command)
    requires Proposes(c, h, c', h', l, command) && NodeOk(c, h, l)
    requires DiskOk(c) && VotesOk(c, h) && StoredOk(c, h)
    ensures DiskOk(c') && VotesOk(c', h') && StoredOk(c', h')
  {
  }

  lemma ProposeBallots(c: Cluster, h: History, c': Cluster, h': History, l: NodeId, command: Command)
    requires Proposes(c, h, c', h', l, command) && NodeOk(c, h, l) && BallotsOk(h) && BidsOk(c, h)
    ensures BallotsOk(h') && BidsOk(c', h')
  {
    hide Onward, BallotsOk, BidsOk, NodeOk;
    ProposesOnward(c, h, c', h', l, command);
    BallotsOnward(c, h, c', h');
    BidsOnward(c, h, c', h');
  }

  lemma ProposeLog(c: Cluster, h: History, c': Cluster, h': History, l: NodeId, command: Command)
    requires Proposes(c, h, c', h', l, command) && NodeOk(c, h, l)
    ensures Sound(c'.nodes[l].log, h') && TermsUpTo(c'.nodes[l].log, c.nodes[l].term)
  {
    ProposesOnward(c, h, c', h', l, command);
    SoundGrows(c.nodes[l].log, h, h');
    forall i: nat ensures AnchoredAt(c'.nodes[l].log, h', i) {
      assert AnchoredAt(c.nodes[l].log, h', i);
    }
  }

  lemma ProposeNode(c: Cluster, h: History, c': Cluster, h': History, l: NodeId, command: Command)
    requires Proposes(c, h, c', h', l, command) && NodeOk(c, h, l)
    ensures NodeOk(c', h', l)
  {
    ProposeLog(c, h, c', h', l, command);
    hide Sound, TermsUpTo, Onward;
  }

  lemma ProposeRoles(c: Cluster, h: History, c': Cluster, h': History, l: NodeId, command: Command)
    requires Proposes(c, h, c', h', l, command) && RolesOk(c, h) && ElectionOk(c, h, c.nodes[l].term)
    ensures RolesOk(c', h')
  {
    hide NodeOk, Onward, Sound, TermsUpTo;
    assert NodeOk(c, h, l);
    ProposesOnward(c, h, c', h', l, command);
    ProposeNode(c, h, c', h', l, command);
    ProposeLeader(c, h, l);
    OthersOnward(c, h, c', h', l);
  }

  lemma ProposeLeader(c: Cluster, h: History, l: NodeId)
    requires l in c.nodes && NodeOk(c, h, l) && c.nodes[l].role == Leader
    ensures c.nodes[l].term in h.elections && h.elections[c.nodes[l].term].leader == l
  {
    hide Sound, TermsUpTo;
  }

  lemma ProposeElection(c: Cluster, h: History, c': Cluster, h': History, l: NodeId, command: Command)
    requires Proposes(c, h, c', h', l, command) && NodeOk(c, h, l) && ElectionOk(c, h, c.nodes[l].term)
    ensures ElectionOk(c', h', c.nodes[l].term)
  {
    ProposeLog(c, h, c', h', l, command);
    hide Sound, TermsUpTo, Onward;
  }

  lemma ProposeElections(c: Cluster, h: History, c': Cluster, h': History, l: NodeId, command: Command)
    requires Proposes(c, h, c', h', l, command) && NodeOk(c, h, l) && ElectionsOk(c, h)
    ensures ElectionsOk(c', h')
  {
    hide NodeOk, ElectionOk, Onward;
    ProposesOnward(c, h, c', h', l, command);
    assert ElectionOk(c, h, c.nodes[l].term);
    ProposeElection(c, h, c', h', l, command);
    forall u | u in h'.elections && u != c.nodes[l].term ensures ElectionOk(c', h', u) {
      assert ElectionOk(c, h, u);
      ElectionOnward(c, h, c', h', u);
    }
  }

  lemma ProposeKeeps(c: Cluster, h: History, c': Cluster, h': History, l: NodeId, command: Command)
    requires Proposes(c, h, c', h', l, command) && NodeOk(c, h, l) && StoredOk(c, h) && KeepsOk(c, h)
    ensures KeepsOk(c', h')
  {
    ProposesOnward(c, h, c', h', l, command);
    var t := c.nodes[l].term;
    forall v: NodeId, u: nat, k: nat ensures Keeps(c', h', v, u, k) {
      assert Keeps(c, h, v, u, k);
      if v in c.nodes && (v, u) in h'.stored && k <= h'.stored[(v, u)] && Own(h', u, k) && LaterSourcesHave(h', v, u, k)
         && !(v == l && u == t)
      {
        assert Own(h, u, k);
        forall w | u < w && (v, w) in h.stored && w in h.elections ensures Has(h, u, k, h.elections[w].log) {
          assert Has(h', u, k, h'.elections[w].log);
          HasOnlyIfBefore(h, h', u, k, w);
        }
        assert LaterSourcesHave(h, v, u, k);
        HasGrows(h, h', u, k, c.nodes[v].log);
      }
    }
  }

  lemma ProposeBallotKeeps(c: Cluster, h: History, c': Cluster, h': History, l: NodeId, command: Command)
    requires Proposes(c, h, c', h', l, command) && NodeOk(c, h, l) && VotesOk(c, h) && StoredOk(c, h) && BallotKeepsOk(h)
    ensures BallotKeepsOk(h')
  {
    ProposesOnward(c, h, c', h', l, command);
    forall v: NodeId, u: nat, end: nat, k: nat ensures BallotKeeps(h', v, u, end, k) {
      assert BallotKeeps(h, v, u, end, k);
      if Counted(h', v, end) && (v, u) in h'.stored && u < end && k <= h'.stored[(v, u)] && Own(h', u, k)
         && LeadersBetweenHave(h', u, end, k)
      {
        assert !(v == l && u == c.nodes[l].term);
        assert Own(h, u, k);
        forall w | u < w < end && w in h.elections ensures Has(h, u, k, h.elections[w].log) {
          assert Has(h', u, k, h'.elections[w].log);
          HasOnlyIfBefore(h, h', u, k, w);
        }
        assert LeadersBetweenHave(h, u, end, k);
        HasGrows(h, h', u, k, h.ballots[(v, end)].log);
      }
    }
  }

  lemma ProposeKeepsInv(c: Cluster, h: History, c': Cluster, h': History, l: NodeId, command: Command)
    requires Proposes(c, h, c', h', l, command) && Inv(c, h)
    ensures Inv(c', h')
  {
    assert NodeOk(c, h, l);
    ProposeVotes(c, h, c', h', l, command);
    ProposeBallots(c, h, c', h', l, command);
    ProposeRoles(c, h, c', h', l, command);
    ProposeElections(c, h, c', h', l, command);
    ProposeKeeps(c, h, c', h', l, command);
    ProposeBallotKeeps(c, h, c', h', l, command);
  }
}
