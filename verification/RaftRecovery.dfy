/**
 Whatever has happened to a cluster, it can still make progress: from every reachable state some continuation elects a
 leader, commits a new command and brings every log into line with the leader's.
 */
module RaftRecovery {
  import opened RaftNode
  import opened RaftCluster
  import opened RaftHistory
  import opened RaftInvariant
  import opened RaftSafety
  import opened RaftBacktracking
  import opened RaftAnswers

  lemma {:induction false} Plain(size: nat, run: seq<Step>, j: nat)
    requires j < size
    ensures var n := Exec(size, run).nodes[j];
            && n.me == j && n.peers == size && n.snap == 0 && n.term >= 0
            && Recovered(n.disk) == (n.term, n.votedFor, n.log, n.snap)
  {
    hide Exec, HistoryOf;
    PeerReady(size, run, j);
  }

  /** At most peer `i` has changed. */
  predicate Only(c: Cluster, c': Cluster, i: nat) {
    i < |c.nodes| == |c'.nodes| && c'.nodes == c.nodes[i := c'.nodes[i]] && c.net <= c'.net
  }

  // ---------------------------------------------------------------- the peer to elect

  predicate AtLeastAsGood(n: Node, m: Node)
    requires |n.log| >= 1 && |m.log| >= 1
  {
    AtLeastAsUpToDate(LastIndex(n), LastTerm(n.log), LastIndex(m), LastTerm(m.log))
  }

  lemma {:induction false} MostUpToDate(nodes: seq<Node>) returns (i: nat)
    requires nodes != [] && forall j :: 0 <= j < |nodes| ==> |nodes[j].log| >= 1
    ensures i < |nodes| && forall j :: 0 <= j < |nodes| ==> AtLeastAsGood(nodes[i], nodes[j])
  {
    var last := |nodes| - 1;
    if last == 0 {
      i := 0;
    } else {
      var front := nodes[..last];
      i := MostUpToDate(front);
      assert forall j :: 0 <= j < last ==> AtLeastAsGood(front[i], front[j]);
      if !AtLeastAsGood(nodes[i], nodes[last]) { i := last; }
    }
  }

  function HighestTerm(nodes: seq<Node>): (r: int)
    ensures forall j :: 0 <= j < |nodes| ==> nodes[j].term <= r
  {
    if nodes == [] then 0
    else
      var r, last := HighestTerm(nodes[..|nodes| - 1]), nodes[|nodes| - 1].term;
      if r < last then last else r
  }

  // ---------------------------------------------------------------- the campaign

  /** A peer that times out often enough campaigns in a term above any given one. */
  lemma {:induction false} Campaigns(size: nat, run: seq<Step>, i: nat, t: int) returns (later: seq<Step>)
    requires i < size && Exec(size, run).nodes[i].role != Leader && !Exec(size, run).nodes[i].won
    ensures run <= later && Only(Exec(size, run), Exec(size, later), i)
    ensures var n, n' := Exec(size, run).nodes[i], Exec(size, later).nodes[i];
            && n'.role == Candidate && n'.term > t && n'.term > n.term && n'.voteCount == 1 && n'.answered == {i}
            && !n'.won && n'.log == n.log && n'.commitIndex == n.commitIndex
            && AskedAll(Exec(size, later), i, VoteRequestOf(n'))
    decreases if t < Exec(size, run).nodes[i].term then 0 else t - Exec(size, run).nodes[i].term + 1
  {
    hide Exec;
    StepTaken(size, run, Timeout(i));
    Plain(size, run, i);
    later := run + [Timeout(i)];
    var n', c' := Exec(size, later).nodes[i], Exec(size, later);
    forall j: nat | j < size && j != i ensures VoteRequest(j, VoteRequestOf(n')) in c'.net {
      assert VoteRequest(j, VoteRequestOf(n')) in VoteRequests(n');
    }
    if n'.term <= t {
      later := Campaigns(size, later, i, t);
    }
  }

  /** One peer is asked, grants its vote, and the vote is counted. */
  lemma {:induction false} OneVote(size: nat, run: seq<Step>, i: nat, j: nat, a: VoteArgs) returns (later: seq<Step>)
    requires i < size && j < size && i != j && VoteRequest(j, a) in Exec(size, run).net
    requires var n, f := Exec(size, run).nodes[i], Exec(size, run).nodes[j];
             && n.role == Candidate && n.term == a.term && a.candidate == i && j !in n.answered
             && f.term < a.term && AtLeastAsUpToDate(a.lastIndex, a.lastTerm, LastIndex(f), LastTerm(f.log))
    ensures run <= later
    ensures var c, c' := Exec(size, run), Exec(size, later);
            var n, f' := c.nodes[i], c'.nodes[j];
            && c.net <= c'.net && f'.log == c.nodes[j].log && f'.term == a.term
            && c'.nodes == c.nodes[j := f'][i := n.(answered := n.answered + {j}, voteCount := n.voteCount + 1,
                                                    won := n.won || n.voteCount + 1 > size / 2)]
  {
    hide Exec;
    Plain(size, run, i);
    Plain(size, run, j);
    var asked := DeliverVoteRequest(VoteRequest(j, a));
    StepTaken(size, run, asked);
    GrantIff(Exec(size, run).nodes[j], a);
    var reply := VoteResponse(j, i, a, VoteReply(a.term, true));
    assert reply in Exec(size, run + [asked]).net;
    var answered := DeliverVoteResponse(reply, true);
    StepTaken(size, run + [asked], answered);
    later := run + [asked] + [answered];
  }

  /** The peers below `k` have voted for peer `i`. */
  predicate Polled(c: Cluster, c': Cluster, i: nat, a: VoteArgs, k: nat)
    requires i < |c.nodes| == |c'.nodes|
  {
    var n := c'.nodes[i];
    && n.role == Candidate && n.term == a.term && n.log == c.nodes[i].log && n.commitIndex == c.nodes[i].commitIndex
    && n.voteCount == (if i < k then k else k + 1)
    && (n.voteCount > 1 && n.voteCount > |c.nodes| / 2 ==> n.won)
    && AskedAll(c', i, a)
    && (forall j: nat :: j < |c.nodes| && j != i ==>
          if j < k then c'.nodes[j].log == c.nodes[j].log && c'.nodes[j].term == a.term
          else c'.nodes[j] == c.nodes[j] && j !in n.answered)
  }

  lemma {:induction false} Polls(size: nat, c: Cluster, run: seq<Step>, i: nat, a: VoteArgs, k: nat)
    returns (later: seq<Step>)
    requires i < size == |c.nodes| && k <= size && a.candidate == i && Polled(c, Exec(size, run), i, a, k)
    requires forall j: nat :: j < size && j != i ==>
               |c.nodes[j].log| >= 1 && c.nodes[j].term < a.term
               && AtLeastAsUpToDate(a.lastIndex, a.lastTerm, LastIndex(c.nodes[j]), LastTerm(c.nodes[j].log))
    ensures run <= later && Polled(c, Exec(size, later), i, a, size)
    decreases size - k
  {
    hide Exec, AtLeastAsUpToDate;
    if k == size {
      later := run;
    } else if k == i {
      later := Polls(size, c, run, i, a, k + 1);
    } else {
      var next := OneVote(size, run, i, k, a);
      later := Polls(size, c, next, i, a, k + 1);
    }
  }

  // ---------------------------------------------------------------- the leader's command

  lemma {:induction false} Leads(size: nat, run: seq<Step>, i: nat, command: Command) returns (later: seq<Step>)
    requires i < size && Exec(size, run).nodes[i].role == Candidate && Exec(size, run).nodes[i].won
    ensures run <= later && Only(Exec(size, run), Exec(size, later), i)
    ensures var n, n' := Exec(size, run).nodes[i], Exec(size, later).nodes[i];
            && n'.role == Leader && n'.term == n.term && n'.log == n.log + [Entry(n.term, command)]
            && n'.commitIndex == n.commitIndex
  {
    hide Exec;
    StepTaken(size, run, Promote(i));
    StepTaken(size, run + [Promote(i)], Submit(i, command));
    later := run + [Promote(i)] + [Submit(i, command)];
  }

  // ---------------------------------------------------------------- replication

  /** One append of the leader to one follower, and its answer. */
  lemma {:induction false} OneExchange(size: nat, run: seq<Step>, i: nat, j: nat) returns (later: seq<Step>)
    requires i < size && j < size && i != j
    requires Exec(size, run).nodes[i].role == Leader && Exec(size, run).nodes[j].term == Exec(size, run).nodes[i].term
    ensures run <= later
    ensures var c, c' := Exec(size, run), Exec(size, later);
            var n, f := c.nodes[i], c.nodes[j];
            && Exchanging(n, f, j) && LogsMatch(f.log, n.log)
            && c'.nodes == c.nodes[j := Answered(n, f, j).0][i := Informed(n, f, j)]
            && AllCommitted(c'.nodes[i]) && n.commitIndex <= c'.nodes[i].commitIndex
            && (n.commitIndex < |n.log| ==> c'.nodes[i].commitIndex < |n.log|)
  {
    hide Exec, AppendEntries, AppendReplied, AllCommitted, LogsMatch, HistoryOf;
    var n, f := Exec(size, run).nodes[i], Exec(size, run).nodes[j];
    Plain(size, run, i);
    Plain(size, run, j);
    Exchangeable(size, run, i, j);
    var a := AppendRequestFor(n, j);
    StepTaken(size, run, Heartbeat(i));
    var sent := run + [Heartbeat(i)];
    assert AppendRequest(j, a) in AppendRequests(n);
    var handled := DeliverAppendRequest(AppendRequest(j, a));
    StepTaken(size, sent, handled);
    var (f', r) := AppendEntries(f, a);
    var reply := AppendResponse(j, i, a, r, f'.log);
    assert reply in Exec(size, sent + [handled]).net;
    StepTaken(size, sent + [handled], DeliverAppendResponse(reply));
    ReplyTerm(f, a);
    RepliesInRange(size, sent + [handled], reply);
    CommitsAllItCan(size, sent + [handled], reply);
    later := sent + [handled] + [DeliverAppendResponse(reply)];
  }

  lemma ReplyTerm(n: Node, a: AppendArgs)
    requires WellFormed(n) && n.term == a.term
    ensures AppendEntries(n, a).1.term == a.term
  {
  }

  lemma {:induction false} Exchangeable(size: nat, run: seq<Step>, i: nat, j: nat)
    requires i < size && j < size && i != j
    requires Exec(size, run).nodes[i].role == Leader && Exec(size, run).nodes[j].term == Exec(size, run).nodes[i].term
    ensures Exchanging(Exec(size, run).nodes[i], Exec(size, run).nodes[j], j)
    ensures LogsMatch(Exec(size, run).nodes[j].log, Exec(size, run).nodes[i].log)
    ensures CanSendTo(Exec(size, run).nodes[i], j)
  {
    hide Exec, Exchanging, LogsMatch;
    PeerReady(size, run, i);
    PeerReady(size, run, j);
    ReadyToExchange(HistoryOf(size, run), size, Exec(size, run).nodes[i], Exec(size, run).nodes[j]);
    RequestsInRange(size, run, i, j);
  }

  /** Peer `i` still leads with the same log; only its slots for peer `j` and that peer have changed. */
  predicate Brought(c: Cluster, c': Cluster, i: nat, j: nat)
    requires i < |c.nodes| && j < |c.nodes| && i != j
  {
    && |c'.nodes| == |c.nodes|
    && c'.nodes == c.nodes[j := c'.nodes[j]][i := c'.nodes[i]]
    && var n, n' := c.nodes[i], c'.nodes[i];
       && n'.role == Leader && n'.term == n.term && n'.log == n.log && c'.nodes[j].term == n.term
       && |n'.matchIndex| == |n.matchIndex| == |c.nodes|
       && (forall k :: 0 <= k < |c.nodes| && k != j ==> n'.matchIndex[k] == n.matchIndex[k])
       && n.commitIndex <= n'.commitIndex && (n.commitIndex < |n.log| ==> n'.commitIndex < |n.log|)
  }

  lemma {:induction false} Replicates(size: nat, run: seq<Step>, i: nat, j: nat) returns (later: seq<Step>)
    requires i < size && j < size && i != j
    requires Exec(size, run).nodes[i].role == Leader && Exec(size, run).nodes[j].term == Exec(size, run).nodes[i].term
    ensures run <= later && Brought(Exec(size, run), Exec(size, later), i, j)
    ensures var n', f' := Exec(size, later).nodes[i], Exec(size, later).nodes[j];
            && AllCommitted(n') && f'.log == n'.log && n'.matchIndex[j] == |n'.log| - 1
            && (n'.commitIndex < |n'.log| ==> Exec(size, run).nodes[i].commitIndex <= f'.commitIndex)
    decreases Exec(size, run).nodes[i].nextIndex[j]
  {
    hide Exec, AllCommitted, LogsMatch, Exchanging;
    Plain(size, run, i);
    later := OneExchange(size, run, i, j);
    var n, f := Exec(size, run).nodes[i], Exec(size, run).nodes[j];
    Exchanged1(n, f, j);
    if !Answered(n, f, j).1.success {
      later := Replicates(size, later, i, j);
    }
  }

  /** What one exchange does to the leader and the follower. */
  lemma Exchanged1(leader: Node, follower: Node, peer: nat)
    requires Exchanging(leader, follower, peer) && LogsMatch(follower.log, leader.log)
    ensures var f', r := Answered(leader, follower, peer).0, Answered(leader, follower, peer).1;
            var n' := Informed(leader, follower, peer);
            && n'.role == Leader && n'.term == leader.term == f'.term && n'.log == leader.log
            && |n'.matchIndex| == |n'.nextIndex| == leader.peers
            && (forall k :: 0 <= k < leader.peers && k != peer ==> n'.matchIndex[k] == leader.matchIndex[k])
            && (r.success ==> f'.log == leader.log && n'.matchIndex[peer] == |leader.log| - 1)
            && (r.success && leader.commitIndex < |leader.log| ==> leader.commitIndex <= f'.commitIndex)
            && (!r.success ==> f' == follower && 0 < n'.nextIndex[peer] < leader.nextIndex[peer])
  {
    hide CommitScan, LogsMatch, Spliced, ScanBack;
    HandlersExchange(leader, follower, peer);
    if Answered(leader, follower, peer).1.success {
      AcceptanceSettles(leader, follower, peer);
      CommitReaches(leader, follower, peer);
    }
  }

  /** The peers below `k` have the leader's log, and the leader knows; they have commit indexes of at least `m`. */
  predicate Spread(c: Cluster, i: nat, k: nat, m: int)
    requires i < |c.nodes|
  {
    var n := c.nodes[i];
    && n.role == Leader && |n.matchIndex| == |c.nodes| && m <= n.commitIndex < |n.log|
    && (forall j: nat :: j < |c.nodes| && j != i ==> c.nodes[j].term == n.term)
    && (forall j: nat :: j < k && j < |c.nodes| && j != i ==>
          c.nodes[j].log == n.log && n.matchIndex[j] == |n.log| - 1 && m <= c.nodes[j].commitIndex)
  }

  lemma {:induction false} Spreads(size: nat, run: seq<Step>, i: nat, k: nat, m: int) returns (later: seq<Step>)
    requires i < size && k <= size && Spread(Exec(size, run), i, k, m)
    requires k >= 2 || (k == 1 && i != 0) ==> AllCommitted(Exec(size, run).nodes[i])
    ensures run <= later && Spread(Exec(size, later), i, size, m)
    ensures size >= 2 ==> AllCommitted(Exec(size, later).nodes[i])
    ensures Exec(size, later).nodes[i].log == Exec(size, run).nodes[i].log
    ensures Exec(size, later).nodes[i].term == Exec(size, run).nodes[i].term
    decreases size - k
  {
    hide Exec, AllCommitted;
    if k == size {
      later := run;
    } else if k == i {
      later := Spreads(size, run, i, k + 1, m);
    } else {
      var next := Replicates(size, run, i, k);
      later := Spreads(size, next, i, k + 1, m);
    }
  }

  // ---------------------------------------------------------------- the whole way

  /**
   From every reachable state of two or more peers, whatever was lost, delayed or crashed, some continuation leaves a
   leader with the new command at the end of its log, and every peer with the leader's log and all of it committed.
   */
  lemma {:induction false} CanAlwaysCommit(size: nat, run: seq<Step>, command: Command)
    returns (later: seq<Step>, i: nat)
    requires size >= 2
    ensures run <= later && i < size
    ensures var c := Exec(size, later);
            var n := c.nodes[i];
            && n.role == Leader && n.log[|n.log| - 1] == Entry(n.term, command) && n.commitIndex == |n.log| - 1
            && forall j: nat :: j < size ==> c.nodes[j].log == n.log && c.nodes[j].commitIndex >= n.commitIndex
  {
    hide Exec, AllCommitted, AtLeastAsUpToDate, HighestTerm;
    i := MostUpToDate(Exec(size, run).nodes);
    var polled := Chosen(size, run, i);
    var led := Leads(size, polled, i, command);
    var spread := Spreads(size, led, i, 0, 0);
    Plain(size, spread, i);
    AllHave(Exec(size, spread).nodes[i]);
    later := Spreads(size, spread, i, 0, Exec(size, spread).nodes[i].commitIndex);
  }

  lemma {:induction false} Chosen(size: nat, run: seq<Step>, i: nat) returns (later: seq<Step>)
    requires i < size && size >= 2
    requires forall j :: 0 <= j < size ==> AtLeastAsGood(Exec(size, run).nodes[i], Exec(size, run).nodes[j])
    ensures run <= later
    ensures var c := Exec(size, later);
            && c.nodes[i].role == Candidate && c.nodes[i].won && c.nodes[i].commitIndex == 0
            && forall j: nat :: j < size ==> c.nodes[j].term == c.nodes[i].term
  {
    hide Exec, AtLeastAsUpToDate;
    Plain(size, run, i);
    StepTaken(size, run, Restart(i));
    var up := run + [Restart(i)];
    var campaign := Campaigns(size, up, i, HighestTerm(Exec(size, run).nodes));
    var c := Exec(size, campaign);
    Plain(size, campaign, i);
    var a := VoteRequestOf(c.nodes[i]);
    forall j: nat | j < size && j != i
      ensures |c.nodes[j].log| >= 1 && c.nodes[j].term < a.term
      ensures AtLeastAsUpToDate(a.lastIndex, a.lastTerm, LastIndex(c.nodes[j]), LastTerm(c.nodes[j].log))
    {
      assert c.nodes[j] == Exec(size, run).nodes[j];
      assert AtLeastAsGood(Exec(size, run).nodes[i], Exec(size, run).nodes[j]);
    }
    later := Polls(size, c, campaign, i, a, 0);
  }

  /** An entry of the leader's term that all peers match is committed. */
  lemma AllHave(n: Node)
    requires WellFormed(n) && AllCommitted(n) && 0 <= n.commitIndex < |n.log| && n.log[|n.log| - 1].term == n.term
    requires forall j: nat :: j < n.peers && j != n.me ==> n.matchIndex[j] == |n.log| - 1
    ensures n.commitIndex == |n.log| - 1
  {
    var last := |n.log| - 1;
    assert n.commitIndex < last ==> 2 * |CountedFor(n, last)| <= n.peers;
    AllCounted(n, last);
  }

  lemma AllCounted(n: Node, index: int)
    requires WellFormed(n) && forall j: nat :: j < n.peers && j != n.me ==> n.matchIndex[j] >= index
    ensures |CountedFor(n, index)| >= n.peers
  {
    forall j: nat | j < n.peers ensures j in CountedFor(n, index) {
    }
    Within(Numbers(n.peers), CountedFor(n, index));
  }

  function Numbers(k: nat): (r: set<nat>)
    ensures |r| == k && forall j: nat :: j in r <==> j < k
  {
    if k == 0 then {} else Numbers(k - 1) + {k - 1}
  }

  lemma Within(a: set<nat>, b: set<nat>)
    requires a <= b
    ensures |a| <= |b|
  {
    assert b == a + (b - a);
  }

  /** One peer alone asks no one, so it is never told that it has won, and never leads. */
  lemma {:induction false} LonePeerNeverLeads(run: seq<Step>)
    ensures var c := Exec(1, run); c.net == {} && !c.nodes[0].won && c.nodes[0].role != Leader
  {
    if run != [] {
      var before, s := run[..|run| - 1], run[|run| - 1];
      LonePeerNeverLeads(before);
      var n := Exec(1, before).nodes[0];
      assert run == before + [s];
      StepTaken(1, before, s);
      if s.Timeout? { assert VoteRequests(Campaign(n)) == {}; }
    }
  }
}
