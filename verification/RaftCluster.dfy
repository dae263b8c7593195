/**
 A cluster of Raft peers over a network that may lose, duplicate and reorder messages, as a transition system,
 and the runs of that system.
 */
module RaftCluster {
  import opened RaftNode

  /**
   A message that was sent. `holding` in an append reply is the log the follower had when it replied; it is a
   record for the specification and no step reads it.
   */
  datatype Message =
    | VoteRequest(dst: nat, vote: VoteArgs)
    | VoteResponse(src: nat, dst: nat, vote: VoteArgs, voteReply: VoteReply)
    | AppendRequest(dst: nat, append: AppendArgs)
    | AppendResponse(src: nat, dst: nat, append: AppendArgs, appendReply: AppendReply, holding: seq<Entry>)

  /** `net` keeps every message ever sent: a message may be delivered late, more than once, or never. */
  datatype Cluster = Cluster(nodes: seq<Node>, net: set<Message>)

  /** One critical section of one peer. */
  datatype Step =
    | Timeout(i: nat)                            // the ticker calls convertToCandidate
    | DeliverVoteRequest(m: Message)             // the RequestVote handler
    | DeliverVoteResponse(m: Message, ticking: bool)
    | Promote(i: nat)                            // the ticker calls convertToLeader
    | Submit(i: nat, command: Command)           // Start
    | Heartbeat(i: nat)                          // the ticker calls broadcastHeartbeat
    | DeliverAppendRequest(m: Message)           // the AppendEntries handler
    | DeliverAppendResponse(m: Message)
    | Restart(i: nat)                            // a crash followed by Make on the same persister

  function Actor(s: Step): nat {
    match s
    case Timeout(i) => i
    case DeliverVoteRequest(m) => m.dst
    case DeliverVoteResponse(m, _) => m.dst
    case Promote(i) => i
    case Submit(i, _) => i
    case Heartbeat(i) => i
    case DeliverAppendRequest(m) => m.dst
    case DeliverAppendResponse(m) => m.dst
    case Restart(i) => i
  }

  /**
   When a step can happen. The ticker goroutine is sequential, so once it has received the win signal its next
   action is convertToLeader. A sendRequestVote goroutine handles one reply and ends.
   */
  predicate Enabled(c: Cluster, s: Step) {
    && Actor(s) < |c.nodes|
    && match s
       case Timeout(i) => !c.nodes[i].won
       case Promote(i) => c.nodes[i].won
       case DeliverVoteRequest(m) => m in c.net && m.VoteRequest?
       case DeliverVoteResponse(m, _) =>
         && m in c.net && m.VoteResponse?
         && (c.nodes[m.dst].role == Candidate && m.vote.term == c.nodes[m.dst].term ==>
             m.src !in c.nodes[m.dst].answered)
       case DeliverAppendRequest(m) => m in c.net && m.AppendRequest?
       case DeliverAppendResponse(m) => m in c.net && m.AppendResponse?
       case _ => true
  }

  /** Everything broadcastRequestVote sends. */
  function VoteRequests(n: Node): set<Message>
    requires WellFormed(n)
  {
    if n.role != Candidate then {} else set i: nat | i < n.peers && i != n.me :: VoteRequest(i, VoteRequestOf(n))
  }

  /** Everything broadcastHeartbeat sends; a peer it cannot send to gets nothing (see RaftSafety.RequestsInRange). */
  function AppendRequests(n: Node): set<Message> {
    if n.role != Leader then {}
    else set i: nat | i < n.peers && i != n.me && CanSendTo(n, i) :: AppendRequest(i, AppendRequestFor(n, i))
  }

  /** The acting peer's new state and the messages the step sends. */
  function Act(n: Node, s: Step): (r: (Node, set<Message>))
    requires WellFormed(n)
    ensures WellFormed(r.0) && r.0.me == n.me && r.0.peers == n.peers
  {
    match s
    case Timeout(_) =>
      var n' := Campaign(n);
      (n', if n.role == Leader then {} else VoteRequests(n'))
    case DeliverVoteRequest(m) =>
      if !m.VoteRequest? then (n, {}) else
      var (n', r) := RequestVote(n, m.vote);
      (n', {VoteResponse(n.me, m.vote.candidate, m.vote, r)})
    case DeliverVoteResponse(m, ticking) =>
      if !m.VoteResponse? then (n, {}) else
      (VoteReplied(n, m.src, m.vote, m.voteReply, ticking), {})
    case Promote(_) =>
      var n' := TakeOffice(n);
      (n', if n.role == Candidate then AppendRequests(n') else {})
    case Submit(_, command) => (Start(n, command).0, {})
    case Heartbeat(_) => (n, AppendRequests(n))
    case DeliverAppendRequest(m) =>
      if !m.AppendRequest? then (n, {}) else
      AppendKeepsShape(n, m.append);
      var (n', r) := AppendEntries(n, m.append);
      (n', {AppendResponse(n.me, m.append.leader, m.append, r, n'.log)})
    case DeliverAppendResponse(m) =>
      if !m.AppendResponse? then (n, {})
      else if TakesReply(n, m.append, m.appendReply) && !CanReadReply(n, m.src, m.append) then (n, {})
      else (AppendReplied(n, m.src, m.append, m.appendReply), {})
    case Restart(_) => (Boot(n.me, n.peers, n.disk), {})
  }

  predicate Shaped(c: Cluster) {
    forall i: nat :: i < |c.nodes| ==> WellFormed(c.nodes[i]) && c.nodes[i].me == i && c.nodes[i].peers == |c.nodes|
  }

  function Apply(c: Cluster, s: Step): (c': Cluster)
    requires Shaped(c) && Actor(s) < |c.nodes|
    ensures Shaped(c') && |c'.nodes| == |c.nodes|
  {
    var (n', sent) := Act(c.nodes[Actor(s)], s);
    Cluster(c.nodes[Actor(s) := n'], c.net + sent)
  }

  function Init(size: nat): (c: Cluster)
    ensures Shaped(c) && |c.nodes| == size
  {
    Cluster(seq(size, i requires 0 <= i < size => Boot(i, size, Blank)), {})
  }

  // ---------------------------------------------------------------- runs

  /** The cluster after a sequence of steps; a step that cannot happen changes nothing, so every sequence is a run. */
  function Exec(size: nat, run: seq<Step>): (c: Cluster)
    ensures Shaped(c) && |c.nodes| == size
  {
    if run == [] then Init(size)
    else
      var c := Exec(size, run[..|run| - 1]);
      if Enabled(c, run[|run| - 1]) then Apply(c, run[|run| - 1]) else c
  }

  /** Step `k` of the run is an AppendEntries that its receiver accepts. */
  predicate Accepts(size: nat, run: seq<Step>, k: nat)
    requires k < |run|
  {
    && run[k].DeliverAppendRequest?
    && Enabled(Exec(size, run[..k]), run[k])
    && AppendEntries(Exec(size, run[..k]).nodes[run[k].m.dst], run[k].m.append).1.success
  }

  /** The last index an AppendEntries speaks about. */
  function Reach(a: AppendArgs): int {
    a.prevIndex + |a.entries|
  }

  /**
   Within one term, no peer accepts an AppendEntries that reaches less far than one it already accepted.
   The handler cuts its log after the entries it was sent, so this is what keeps an acknowledged entry in place.
   */
  predicate InOrder(size: nat, run: seq<Step>) {
    forall p: nat, q: nat {:trigger Accepts(size, run, p), Accepts(size, run, q)} :: p < q < |run|
        && Accepts(size, run, p) && Accepts(size, run, q)
      && run[p].m.dst == run[q].m.dst && run[p].m.append.term == run[q].m.append.term
      ==> Reach(run[p].m.append) <= Reach(run[q].m.append)
  }
}
