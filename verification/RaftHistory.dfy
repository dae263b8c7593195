/**
 What a run leaves behind for the proofs: who voted for whom and with which log, who led each term and with which
 log, how far each peer accepted each leader's log, and what leaders committed. No step reads the history.
 */
module RaftHistory {
  import opened RaftNode
  import opened RaftCluster

  /** A vote: the candidate it went to and the voter's log at that moment. */
  datatype Ballot = Ballot(candidate: nat, log: seq<Entry>)

  /** The leader of a term, the peers whose votes it had counted on, its log on taking office, and its log now. */
  datatype Reign = Reign(leader: nat, voters: set<nat>, start: seq<Entry>, log: seq<Entry>)

  /**
   `ballots` maps (term, voter), `reigns` maps a term, `accepted` maps (term, peer) to the last index that peer
   has accepted from that term's leader, and `commits` maps (term, index), for every commit by the majority rule, to
   the peers counted.
   */
  datatype History = History(
    ballots: map<(int, nat), Ballot>,
    reigns: map<int, Reign>,
    accepted: map<(int, nat), int>,
    commits: map<(int, int), set<nat>>)

  const EMPTY := History(map[], map[], map[], map[])

  function Max(x: int, y: int): int {
    if x < y then y else x
  }

  /** The peers among `answered` that voted for `candidate`. */
  function Supporters(h: History, term: int, candidate: nat, answered: set<nat>): set<nat> {
    set v | v in answered && (term, v) in h.ballots && h.ballots[(term, v)].candidate == candidate
  }

  /** A leader and the peers whose match index has reached `index`. */
  function CountedFor(n: Node, index: int): set<nat> {
    {n.me} + set j: nat | j < |n.matchIndex| && n.matchIndex[j] >= index
  }

  /** The record of step `s` taken by a peer that goes from `n` to `n'`. */
  function Record(h: History, n: Node, s: Step, n': Node): History
    requires WellFormed(n)
  {
    match s
    case Timeout(_) =>
      if n.role == Leader then h else h.(ballots := h.ballots[(n'.term, n.me) := Ballot(n.me, n.log)])
    case DeliverVoteRequest(m) =>
      if m.VoteRequest? && RequestVote(n, m.vote).1.granted && (n'.term, n.me) !in h.ballots
      then h.(ballots := h.ballots[(n'.term, n.me) := Ballot(m.vote.candidate, n.log)])
      else h
    case Promote(_) =>
      if n.role != Candidate then h
      else h.(reigns := h.reigns[n.term := Reign(n.me, Supporters(h, n.term, n.me, n.answered), n.log, n.log)],
              accepted := h.accepted[(n.term, n.me) := LastIndex(n)])
    case Submit(_, _) =>
      if n.role != Leader || n.term !in h.reigns then h
      else h.(reigns := h.reigns[n.term := h.reigns[n.term].(log := n'.log)],
              accepted := h.accepted[(n.term, n.me) := LastIndex(n')])
    case DeliverAppendRequest(m) =>
      if !m.AppendRequest? || !AppendEntries(n, m.append).1.success then h
      else
        var key := (n'.term, n.me);
        var before := if key in h.accepted then h.accepted[key] else 0;
        h.(accepted := h.accepted[key := Max(before, Reach(m.append))])
    case DeliverAppendResponse(_) =>
      if n'.commitIndex == n.commitIndex || (n.term, n'.commitIndex) in h.commits then h
      else h.(commits := h.commits[(n.term, n'.commitIndex) := CountedFor(n', n'.commitIndex)])
    case _ => h
  }

  /** The history of a run. */
  function HistoryOf(size: nat, run: seq<Step>): History {
    if run == [] then EMPTY
    else
      var c := Exec(size, run[..|run| - 1]);
      var h := HistoryOf(size, run[..|run| - 1]);
      var s := run[|run| - 1];
      if Enabled(c, s) then Record(h, c.nodes[Actor(s)], s, Apply(c, s).nodes[Actor(s)]) else h
  }
}
