/** The rules each Raft node follows (novadb/raft.py), as functions on node values,
    and the cluster they run in, as a state machine whose steps are RPCs. */
module RaftProtocol {

  type NodeId = nat

  /** Opaque payload: only ever compared for equality. */
  type Command = int

  /** A log position; -1 means "before the first entry". */
  type Index = i: int | -1 <= i

  datatype Option<+T> = None | Some(value: T)

  datatype LogEntry = LogEntry(term: nat, command: Command)

  type Log = seq<LogEntry>

  datatype Role = Follower | Candidate | Leader

  /** The file raft-state.json of one node. */
  datatype Disk = Disk(term: nat, votedFor: Option<NodeId>, log: Log)

  /** What a leader stores when a follower acknowledges an append: the follower's
      whole last index, as the code does, or that index clamped to the leader's own log. */
  datatype AckRule = AsWritten | Clamped

  datatype Node = Node(
    term: nat,
    votedFor: Option<NodeId>,
    log: Log,
    role: Role,
    leaderId: Option<NodeId>,
    commit: Index,
    lastApplied: Index,
    applied: seq<Command>,
    nextIndex: map<NodeId, nat>,
    matchIndex: map<NodeId, Index>,
    votes: set<NodeId>,
    disk: Disk)

  datatype VoteRequest = VoteRequest(term: nat, candidate: NodeId, lastIndex: Index, lastTerm: nat)

  datatype VoteReply = VoteReply(term: nat, granted: bool)

  datatype AppendRequest = AppendRequest(term: nat, leader: NodeId, prevIndex: Index, prevTerm: nat,
                                         entries: Log, leaderCommit: Index)

  datatype AppendReply = AppendReply(term: nat, success: bool, matchIndex: Index)

  // ---------------------------------------------------------------- node rules

  function LastTerm(log: Log): nat {
    if log == [] then 0 else log[|log| - 1].term
  }

  /** How many nodes of a cluster of `size` make a majority. */
  function Majority(size: nat): nat {
    size / 2 + 1
  }

  function Persist(n: Node): Node {
    n.(disk := Disk(n.term, n.votedFor, n.log))
  }

  function StepDown(n: Node, term: nat, leader: Option<NodeId>): Node {
    var m := if term > n.term then n.(term := term, votedFor := None) else n;
    Persist(m.(role := Follower, leaderId := leader, votes := {}))
  }

  function BeginElection(self: NodeId, n: Node): Node {
    Persist(n.(role := Candidate, term := n.term + 1, votedFor := Some(self), votes := {self}, leaderId := None))
  }

  function VoteRequestOf(self: NodeId, n: Node): VoteRequest {
    VoteRequest(n.term, self, |n.log| - 1, LastTerm(n.log))
  }

  /** The log (lastIndex, lastTerm) describes is at least as recent as `log`. */
  predicate UpToDate(lastIndex: Index, lastTerm: nat, log: Log) {
    lastTerm > LastTerm(log) || (lastTerm == LastTerm(log) && lastIndex >= |log| - 1)
  }

  function HandleVote(n: Node, r: VoteRequest): (Node, VoteReply) {
    if r.term < n.term then (n, VoteReply(n.term, false))
    else
      var m := if r.term > n.term then StepDown(n, r.term, None) else n;
      var grant := (m.votedFor == None || m.votedFor == Some(r.candidate)) && UpToDate(r.lastIndex, r.lastTerm, m.log);
      (if grant then Persist(m.(votedFor := Some(r.candidate))) else m, VoteReply(m.term, grant))
  }

  function BecomeLeader(self: NodeId, peers: set<NodeId>, n: Node): Node {
    n.(role := Leader, leaderId := Some(self),
       nextIndex := map p | p in peers :: |n.log|,
       matchIndex := (map p | p in peers :: -1)[self := |n.log| - 1])
  }

  function ReceiveVote(self: NodeId, peers: set<NodeId>, n: Node, peer: NodeId, r: VoteReply): Node {
    if r.term > n.term then StepDown(n, r.term, None)
    else if n.role != Candidate || r.term != n.term || !r.granted then n
    else
      var m := n.(votes := n.votes + {peer});
      if |m.votes| >= Majority(|peers| + 1) then BecomeLeader(self, peers, m) else m
  }

  predicate Matches(log: Log, prevIndex: Index, prevTerm: nat) {
    prevIndex == -1 || (prevIndex < |log| && log[prevIndex].term == prevTerm)
  }

  /** Walk `entries` from position `index`: cut the log at the first entry of another
      term, append what is missing, leave the rest alone. */
  function Merge(log: Log, index: nat, entries: Log): Log
    requires index <= |log|
    decreases |entries|
  {
    if entries == [] then log
    else
      var cut := if index < |log| && log[index].term != entries[0].term then log[..index] else log;
      var grown := if index >= |cut| then cut + [entries[0]] else cut;
      Merge(grown, index + 1, entries[1..])
  }

  function Min(a: int, b: int): int { if a < b then a else b }

  function CommandsOf(log: Log): (cs: seq<Command>)
    ensures |cs| == |log|
  {
    seq(|log|, i requires 0 <= i < |log| => log[i].command)
  }

  /** Apply every entry up to the commit index, in order. (An index beyond the log
      would be an IndexError; it is never reached.) */
  function ApplyCommitted(n: Node): Node {
    if n.lastApplied < n.commit < |n.log| then
      n.(applied := n.applied + CommandsOf(n.log[n.lastApplied + 1..n.commit + 1]), lastApplied := n.commit)
    else n
  }

  function HandleAppend(n: Node, r: AppendRequest): (Node, AppendReply) {
    if r.term < n.term then (n, AppendReply(n.term, false, |n.log| - 1))
    else
      var m := if r.term > n.term || n.role != Follower then StepDown(n, r.term, Some(r.leader)) else n;
      var heard := m.(leaderId := Some(r.leader));
      if !Matches(heard.log, r.prevIndex, r.prevTerm) then (heard, AppendReply(heard.term, false, |heard.log| - 1))
      else
        var merged := heard.(log := Merge(heard.log, r.prevIndex + 1, r.entries));
        var applied :=
          if r.leaderCommit > merged.commit
          then ApplyCommitted(merged.(commit := Min(r.leaderCommit, |merged.log| - 1)))
          else merged;
        (Persist(applied), AppendReply(applied.term, true, |applied.log| - 1))
  }

  function NextFor(n: Node, peer: NodeId): nat {
    if peer in n.nextIndex then n.nextIndex[peer] else |n.log|
  }

  /** The request a leader builds for `peer`. A next index beyond the log raises
      IndexError when the previous term is looked up, so it is excluded. */
  function AppendRequestFor(self: NodeId, n: Node, peer: NodeId): AppendRequest
    requires NextFor(n, peer) <= |n.log|
  {
    var next := NextFor(n, peer);
    AppendRequest(n.term, self, next - 1, if next > 0 then n.log[next - 1].term else 0, n.log[next..], n.commit)
  }

  /** What the leader records for a follower that reports `reported` as its last index. */
  function AckIndex(rule: AckRule, reported: Index, log: Log): Index {
    match rule
    case AsWritten => reported
    case Clamped => Min(reported, |log| - 1)
  }

  function ReceiveAppend(rule: AckRule, n: Node, peer: NodeId, next: nat, r: AppendReply): Node {
    if r.term > n.term then StepDown(n, r.term, None)
    else if n.role != Leader then n
    else if r.success then
      var ack := AckIndex(rule, r.matchIndex, n.log);
      n.(matchIndex := n.matchIndex[peer := ack], nextIndex := n.nextIndex[peer := ack + 1])
    else n.(nextIndex := n.nextIndex[peer := if next > 0 then next - 1 else 0])
  }

  /** The peers a leader counts as holding the entry at `index`. */
  function Holders(n: Node, peers: set<NodeId>, index: nat): set<NodeId> {
    set p | p in peers && p in n.matchIndex && n.matchIndex[p] >= index
  }

  predicate Committable(n: Node, peers: set<NodeId>, index: nat)
    requires index < |n.log|
  {
    n.log[index].term == n.term && 1 + |Holders(n, peers, index)| >= Majority(|peers| + 1)
  }

  /** The highest committable position below `end`, or the present commit index. */
  function CommitBelow(n: Node, peers: set<NodeId>, end: nat): Index
    requires end <= |n.log|
    decreases end
  {
    if end <= n.commit + 1 then n.commit
    else if Committable(n, peers, end - 1) then end - 1
    else CommitBelow(n, peers, end - 1)
  }

  function AdvanceCommit(n: Node, peers: set<NodeId>): Node {
    if n.role != Leader then n else n.(commit := CommitBelow(n, peers, |n.log|))
  }

  function AppendOwn(self: NodeId, n: Node, command: Command): Node {
    var m := n.(log := n.log + [LogEntry(n.term, command)]);
    Persist(m.(matchIndex := m.matchIndex[self := |m.log| - 1]))
  }

  /** A new process over the stored term, vote and log. */
  function Restarted(disk: Disk): Node {
    Node(disk.term, disk.votedFor, disk.log, Follower, None, -1, -1, [], map[], map[], {}, disk)
  }

  // ---------------------------------------------------------------- the cluster

  /** `issued` holds the vote requests candidates have built: the loop that sends
      them may still deliver one after the candidate has moved on. */
  datatype Cluster = Cluster(nodes: map<NodeId, Node>, blocked: set<set<NodeId>>, issued: set<VoteRequest>)

  predicate Connected(c: Cluster, a: NodeId, b: NodeId) {
    {a, b} !in c.blocked
  }

  datatype Action =
    | Timeout(id: NodeId)
    | VoteRpc(request: VoteRequest, peer: NodeId)
    | AppendRpc(leader: NodeId, peer: NodeId)
    | Advance(leader: NodeId)
    | Apply(id: NodeId)
    | Propose(leader: NodeId, command: Command)
    | Restart(id: NodeId)
    | Block(a: NodeId, b: NodeId)
    | Heal

  predicate Enabled(c: Cluster, a: Action)
  {
    match a
    case Timeout(i) => i in c.nodes
    case VoteRpc(r, p) => r in c.issued && r.candidate in c.nodes && p in c.nodes && p != r.candidate && Connected(c, r.candidate, p)
    case AppendRpc(l, p) =>
      l in c.nodes && p in c.nodes && l != p && c.nodes[l].role == Leader && Connected(c, l, p)
      && NextFor(c.nodes[l], p) <= |c.nodes[l].log|
    case Advance(l) => l in c.nodes
    case Apply(i) => i in c.nodes
    case Propose(l, _) => l in c.nodes && c.nodes[l].role == Leader
    case Restart(i) => i in c.nodes
    case Block(_, _) => true
    case Heal => true
  }

  function SetNode(c: Cluster, i: NodeId, n: Node): Cluster {
    c.(nodes := c.nodes[i := n])
  }

  function DoVote(c: Cluster, r: VoteRequest, p: NodeId): Cluster
    requires r.candidate in c.nodes && p in c.nodes
  {
    var (voter, reply) := HandleVote(c.nodes[p], r);
    var c1 := SetNode(c, p, voter);
    SetNode(c1, r.candidate, ReceiveVote(r.candidate, c.nodes.Keys - {r.candidate}, c1.nodes[r.candidate], p, reply))
  }

  function DoAppend(rule: AckRule, c: Cluster, l: NodeId, p: NodeId): Cluster
    requires l in c.nodes && p in c.nodes && NextFor(c.nodes[l], p) <= |c.nodes[l].log|
  {
    var (follower, reply) := HandleAppend(c.nodes[p], AppendRequestFor(l, c.nodes[l], p));
    var next := NextFor(c.nodes[l], p);
    var c1 := SetNode(c, p, follower);
    SetNode(c1, l, ReceiveAppend(rule, c1.nodes[l], p, next, reply))
  }

  function Next(rule: AckRule, c: Cluster, a: Action): (c': Cluster)
    requires Enabled(c, a)
    ensures c'.nodes.Keys == c.nodes.Keys
  {
    match a
    case Timeout(i) =>
      var n := BeginElection(i, c.nodes[i]);
      SetNode(c, i, n).(issued := c.issued + {VoteRequestOf(i, n)})
    case VoteRpc(r, p) => DoVote(c, r, p)
    case AppendRpc(l, p) => DoAppend(rule, c, l, p)
    case Advance(l) => SetNode(c, l, AdvanceCommit(c.nodes[l], c.nodes.Keys - {l}))
    case Apply(i) => SetNode(c, i, ApplyCommitted(c.nodes[i]))
    case Propose(l, command) => SetNode(c, l, AppendOwn(l, c.nodes[l], command))
    case Restart(i) => SetNode(c, i, Restarted(c.nodes[i].disk))
    case Block(a, b) => c.(blocked := c.blocked + {{a, b}})
    case Heal => c.(blocked := {})
  }

  function Initial(ids: set<NodeId>): Cluster {
    Cluster(map i | i in ids :: Restarted(Disk(0, None, [])), {}, {})
  }

  // ---------------------------------------------------------------- runs

  /** `actions` can be taken one after the other from `c`. */
  predicate Runs(rule: AckRule, c: Cluster, actions: seq<Action>)
    decreases |actions|
  {
    actions == [] || (Enabled(c, actions[0]) && Runs(rule, Next(rule, c, actions[0]), actions[1..]))
  }

  function After(rule: AckRule, c: Cluster, actions: seq<Action>): (c': Cluster)
    requires Runs(rule, c, actions)
    ensures c'.nodes.Keys == c.nodes.Keys
    decreases |actions|
  {
    if actions == [] then c else After(rule, Next(rule, c, actions[0]), actions[1..])
  }

  /** `c'` is what the cluster can become from `c`. */
  ghost predicate Reaches(rule: AckRule, c: Cluster, c': Cluster)
  {
    exists actions :: Runs(rule, c, actions) && After(rule, c, actions) == c'
  }

  lemma {:induction false} RunsConcat(rule: AckRule, c: Cluster, first: seq<Action>, second: seq<Action>)
    requires Runs(rule, c, first)
    requires Runs(rule, After(rule, c, first), second)
    ensures Runs(rule, c, first + second)
    ensures After(rule, c, first + second) == After(rule, After(rule, c, first), second)
    decreases |first|
  {
    if first == [] {
      assert first + second == second;
    } else {
      RunsConcat(rule, Next(rule, c, first[0]), first[1..], second);
      assert (first + second)[0] == first[0] && (first + second)[1..] == first[1..] + second;
    }
  }

  lemma ReachesTransitive(rule: AckRule, a: Cluster, b: Cluster, c: Cluster)
    requires Reaches(rule, a, b) && Reaches(rule, b, c)
    ensures Reaches(rule, a, c)
  {
    var first :| Runs(rule, a, first) && After(rule, a, first) == b;
    var second :| Runs(rule, b, second) && After(rule, b, second) == c;
    RunsConcat(rule, a, first, second);
  }

  lemma ReachesSelf(rule: AckRule, c: Cluster)
    ensures Reaches(rule, c, c)
  {
    assert Runs(rule, c, []) && After(rule, c, []) == c;
  }

  lemma ReachesByStep(rule: AckRule, c: Cluster, a: Action)
    requires Enabled(c, a)
    ensures Reaches(rule, c, Next(rule, c, a))
  {
    var actions := [a];
    var c' := Next(rule, c, a);
    assert actions[0] == a && actions[1..] == [];
    assert Runs(rule, c', []) && After(rule, c', []) == c';
    assert After(rule, c, actions) == After(rule, c', actions[1..]);
  }
}
