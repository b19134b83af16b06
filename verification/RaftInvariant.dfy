/** What every step of the Raft cluster keeps, stated over the history of elections,
    ballots and stored prefixes. Nothing here depends on the acknowledgement rule. */
module RaftInvariant {
  import opened RaftProtocol

  // ---------------------------------------------------------------- history

  /** A won election: the winner, the voters it counted, and the winner's log as far as it has grown. */
  datatype Election = Election(leader: NodeId, quorum: set<NodeId>, log: Log)

  /** A vote, with the voter's log at the time. */
  datatype Ballot = Ballot(candidate: NodeId, log: Log)

  /** elections by term; bids: a candidate's log when it stood in a term; ballots by voter and
      term; stored: how much of a term's leader log a node has taken over. */
  datatype History = History(
    elections: map<nat, Election>,
    bids: map<(NodeId, nat), Log>,
    ballots: map<(NodeId, nat), Ballot>,
    stored: map<(NodeId, nat), nat>)

  function EmptyHistory(): History {
    History(map[], map[], map[], map[])
  }

  /** The history after action `a` takes `c` to `c'`. */
  function Record(c: Cluster, c': Cluster, h: History, a: Action): History
    requires c'.nodes.Keys == c.nodes.Keys && Enabled(c, a)
  {
    match a
    case Timeout(i) =>
      var n := c'.nodes[i];
      h.(bids := h.bids[(i, n.term) := n.log], ballots := h.ballots[(i, n.term) := Ballot(i, n.log)])
    case VoteRpc(r, p) => RecordWin(c', RecordBallot(c, h, r, p), r.candidate)
    case AppendRpc(l, p) =>
      if AppendAccepted(c, l, p)
      then h.(stored := h.stored[(p, c.nodes[l].term) := |c.nodes[l].log|])
      else h
    case Propose(l, _) =>
      var n := c'.nodes[l];
      if n.term in h.elections
      then h.(elections := h.elections[n.term := h.elections[n.term].(log := n.log)],
              stored := h.stored[(l, n.term) := |n.log|])
      else h
    case _ => h
  }

  function RecordBallot(c: Cluster, h: History, r: VoteRequest, p: NodeId): History
    requires p in c.nodes
  {
    if HandleVote(c.nodes[p], r).1.granted && (p, r.term) !in h.ballots
    then h.(ballots := h.ballots[(p, r.term) := Ballot(r.candidate, c.nodes[p].log)])
    else h
  }

  function RecordWin(c': Cluster, h: History, i: NodeId): History
    requires i in c'.nodes
  {
    var n := c'.nodes[i];
    if n.role == Leader && n.term !in h.elections
    then h.(elections := h.elections[n.term := Election(i, n.votes, n.log)],
            stored := h.stored[(i, n.term) := |n.log|])
    else h
  }

  predicate AppendAccepted(c: Cluster, l: NodeId, p: NodeId)
    requires l in c.nodes && p in c.nodes && NextFor(c.nodes[l], p) <= |c.nodes[l].log|
  {
    HandleAppend(c.nodes[p], AppendRequestFor(l, c.nodes[l], p)).1.success
  }

  // ---------------------------------------------------------------- facts about logs

  /** `a` and `b` both have `k` entries, and the same ones. */
  ghost predicate Agree(a: Log, b: Log, k: nat) {
    k <= |a| && k <= |b| && forall j | 0 <= j < k :: a[j] == b[j]
  }

  ghost predicate Monotone(log: Log) {
    forall i, j | 0 <= i < j < |log| :: log[i].term <= log[j].term
  }

  ghost predicate TermsUpTo(log: Log, t: nat) {
    forall i | 0 <= i < |log| :: log[i].term <= t
  }

  ghost predicate AnchoredAt(log: Log, h: History, i: nat) {
    i < |log| ==> log[i].term in h.elections && Agree(log, h.elections[log[i].term].log, i + 1)
  }

  /** Each entry, and everything before it, stands in the log of the leader that created it. */
  ghost predicate Anchored(log: Log, h: History) {
    forall i: nat :: AnchoredAt(log, h, i)
  }

  ghost predicate Sound(log: Log, h: History) {
    Monotone(log) && Anchored(log, h)
  }

  // ---------------------------------------------------------------- the invariant

  ghost predicate DiskOk(c: Cluster)
  {
    forall i | i in c.nodes :: c.nodes[i].disk == Disk(c.nodes[i].term, c.nodes[i].votedFor, c.nodes[i].log)
  }

  ghost predicate VotesOk(c: Cluster, h: History)
  {
    && (forall v, t | (v, t) in h.ballots ::
          v in c.nodes && t <= c.nodes[v].term
          && (t == c.nodes[v].term ==> c.nodes[v].votedFor == Some(h.ballots[(v, t)].candidate)))
    && (forall v | v in c.nodes && c.nodes[v].votedFor.Some? ::
          (v, c.nodes[v].term) in h.ballots
          && h.ballots[(v, c.nodes[v].term)].candidate == c.nodes[v].votedFor.value)
  }

  /** The vote went to a bid at least as up to date as the voter's log. */
  ghost predicate BallotOk(h: History, v: NodeId, t: nat)
    requires (v, t) in h.ballots
  {
    var b := h.ballots[(v, t)];
    Sound(b.log, h) && (b.candidate, t) in h.bids
    && UpToDate(|h.bids[(b.candidate, t)]| - 1, LastTerm(h.bids[(b.candidate, t)]), b.log)
  }

  ghost predicate BallotsOk(h: History) {
    forall v, t | (v, t) in h.ballots :: BallotOk(h, v, t)
  }

  ghost predicate BidOk(c: Cluster, h: History, i: NodeId, t: nat)
    requires (i, t) in h.bids
  {
    0 < t && i in c.nodes && t <= c.nodes[i].term && Sound(h.bids[(i, t)], h) && TermsUpTo(h.bids[(i, t)], t - 1)
  }

  ghost predicate BidsOk(c: Cluster, h: History)
  {
    && (forall i, t | (i, t) in h.bids :: BidOk(c, h, i, t))
    && (forall r | r in c.issued ::
          (r.candidate, r.term) in h.bids
          && r.lastIndex == |h.bids[(r.candidate, r.term)]| - 1
          && r.lastTerm == LastTerm(h.bids[(r.candidate, r.term)]))
  }

  ghost predicate CandidateOk(c: Cluster, h: History, i: NodeId)
    requires i in c.nodes
  {
    var n := c.nodes[i];
    n.role == Candidate ==>
      && (i, n.term) in h.bids && n.log == h.bids[(i, n.term)]
      && (n.term in h.elections ==> h.elections[n.term].leader != i)
      && n.votes <= c.nodes.Keys
      && (forall v | v in n.votes :: (v, n.term) in h.ballots && h.ballots[(v, n.term)].candidate == i)
  }

  ghost predicate LeaderOk(c: Cluster, h: History, i: NodeId)
    requires i in c.nodes
  {
    var n := c.nodes[i];
    n.role == Leader ==>
      && n.term in h.elections && h.elections[n.term].leader == i && h.elections[n.term].log == n.log
      && (i, n.term) in h.stored && h.stored[(i, n.term)] == |n.log|
  }

  ghost predicate ElectionOk(c: Cluster, h: History, t: nat)
    requires t in h.elections
  {
    var e := h.elections[t];
    && e.leader in c.nodes && t <= c.nodes[e.leader].term
    && e.quorum <= c.nodes.Keys && |e.quorum| >= Majority(|c.nodes.Keys|)
    && (forall v | v in e.quorum :: (v, t) in h.ballots && h.ballots[(v, t)].candidate == e.leader)
    && (e.leader, t) in h.bids
    && Agree(h.bids[(e.leader, t)], e.log, |h.bids[(e.leader, t)]|)
    && (forall j | |h.bids[(e.leader, t)]| <= j < |e.log| :: e.log[j].term == t)
    && Sound(e.log, h) && TermsUpTo(e.log, t)
  }

  ghost predicate NodeOk(c: Cluster, h: History, i: NodeId)
    requires i in c.nodes
  {
    CandidateOk(c, h, i) && LeaderOk(c, h, i) && Sound(c.nodes[i].log, h) && TermsUpTo(c.nodes[i].log, c.nodes[i].term)
  }

  ghost predicate RolesOk(c: Cluster, h: History)
  {
    forall i | i in c.nodes :: NodeOk(c, h, i)
  }

  ghost predicate ElectionsOk(c: Cluster, h: History)
  {
    forall t | t in h.elections :: ElectionOk(c, h, t)
  }

  ghost predicate StoredOk(c: Cluster, h: History)
  {
    forall v, t | (v, t) in h.stored ::
      v in c.nodes && t in h.elections && t <= c.nodes[v].term && h.stored[(v, t)] <= |h.elections[t].log|
  }

  /** The first `k` entries of term `t`'s leader log end with an entry of term `t` itself. */
  ghost predicate Own(h: History, t: nat, k: nat) {
    t in h.elections && 0 < k <= |h.elections[t].log| && h.elections[t].log[k - 1].term == t
  }

  /** `log` starts with the first `k` entries of term `t`'s leader log. */
  ghost predicate Has(h: History, t: nat, k: nat, log: Log) {
    t in h.elections && Agree(h.elections[t].log, log, k)
  }

  /** Every later leader from which `v` took its log over had those entries too. */
  ghost predicate LaterSourcesHave(h: History, v: NodeId, t: nat, k: nat) {
    forall u | t < u && (v, u) in h.stored && u in h.elections :: Has(h, t, k, h.elections[u].log)
  }

  /** Every leader of a term strictly between `t` and `end` had those entries. */
  ghost predicate LeadersBetweenHave(h: History, t: nat, end: nat, k: nat) {
    forall u | t < u < end && u in h.elections :: Has(h, t, k, h.elections[u].log)
  }

  ghost predicate Keeps(c: Cluster, h: History, v: NodeId, t: nat, k: nat)
  {
    v in c.nodes && (v, t) in h.stored && k <= h.stored[(v, t)] && Own(h, t, k) && LaterSourcesHave(h, v, t, k)
    ==> Has(h, t, k, c.nodes[v].log)
  }

  ghost predicate KeepsOk(c: Cluster, h: History)
  {
    forall v: NodeId, t: nat, k: nat :: Keeps(c, h, v, t, k)
  }

  ghost predicate Counted(h: History, v: NodeId, end: nat) {
    (v, end) in h.ballots && (end in h.elections ==> v in h.elections[end].quorum)
  }

  /** A vote for a later term was cast with the stored entries still in place. */
  ghost predicate BallotKeeps(h: History, v: NodeId, t: nat, end: nat, k: nat) {
    Counted(h, v, end) && (v, t) in h.stored && t < end && k <= h.stored[(v, t)] && Own(h, t, k)
    && LeadersBetweenHave(h, t, end, k)
    ==> Has(h, t, k, h.ballots[(v, end)].log)
  }

  ghost predicate BallotKeepsOk(h: History) {
    forall v: NodeId, t: nat, end: nat, k: nat :: BallotKeeps(h, v, t, end, k)
  }

  ghost predicate Inv(c: Cluster, h: History) {
    && DiskOk(c)
    && VotesOk(c, h)
    && BallotsOk(h)
    && BidsOk(c, h)
    && RolesOk(c, h)
    && ElectionsOk(c, h)
    && StoredOk(c, h)
    && KeepsOk(c, h)
    && BallotKeepsOk(h)
  }

  lemma InvInitially(ids: set<NodeId>)
    ensures Inv(Initial(ids), EmptyHistory())
  {
  }
}
