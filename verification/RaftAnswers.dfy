/**
 What the handlers' answers mean, on the numbers and the logs: when a vote is granted, where a started command goes,
 what a rejection teaches the leader, which entries a reply commits, and when a leader gives up its office.
 */
module RaftAnswers {
  import opened RaftNode
  import opened RaftCluster
  import opened RaftHistory
  import opened RaftInvariant
  import opened RaftSafety

  // ---------------------------------------------------------------- votes

  /**
   A newer last term wins over any length; of two logs one is always at least as up to date, and both only if they tie.
   */
  lemma UpToDateOrder(index: int, term: int, otherIndex: int, otherTerm: int)
    ensures term > otherTerm ==> AtLeastAsUpToDate(index, term, otherIndex, otherTerm)
    ensures term == otherTerm && index >= otherIndex ==> AtLeastAsUpToDate(index, term, otherIndex, otherTerm)
    ensures var this_ := AtLeastAsUpToDate(index, term, otherIndex, otherTerm);
            var other := AtLeastAsUpToDate(otherIndex, otherTerm, index, term);
            (this_ || other) && (this_ && other <==> index == otherIndex && term == otherTerm)
  {
  }

  /**
   A vote is granted if and only if the request is not older, the peer has not voted in that term for another, and the
   candidate's last term is newer, or the same with a last index no smaller.
   */
  lemma GrantIff(n: Node, a: VoteArgs)
    requires WellFormed(n)
    ensures var (n', r) := RequestVote(n, a);
            var lastTerm, lastIndex := n.log[|n.log| - 1].term, n.snap + |n.log| - 1;
            && (r.granted <==>
                  && n.term <= a.term
                  && (n.term < a.term || n.votedFor == -1 || n.votedFor == a.candidate)
                  && (lastTerm < a.lastTerm || (lastTerm == a.lastTerm && lastIndex <= a.lastIndex)))
            && n'.log == n.log && n'.term == r.term == (if n.term < a.term then a.term else n.term)
            && (r.granted ==> n'.votedFor == a.candidate && n'.disk == Saved(n'.term, a.candidate, n.log, n.snap))
            && (!r.granted ==> n'.votedFor == if n.term < a.term then -1 else n.votedFor)
            && (n.term < a.term ==> n'.role == Follower && n'.disk == Saved(n'.term, n'.votedFor, n.log, n.snap))
            && (a.term <= n.term ==> n'.role == n.role)
  {
  }

  /**
   A vote counts once for the campaign it was asked in; the win is signalled when more than half of all have voted.
   */
  lemma VoteCounts(n: Node, peer: nat, a: VoteArgs, r: VoteReply, ticking: bool)
    ensures var n' := VoteReplied(n, peer, a, r, ticking);
            && (n.role != Candidate || a.term != n.term ==> n' == n)
            && (n.role == Candidate && a.term == n.term && r.term > n.term ==>
                  n'.role == Follower && n'.term == r.term && n'.votedFor == -1 && n'.log == n.log
                  && n'.disk == Saved(r.term, -1, n.log, n.snap))
            && (n.role == Candidate && a.term == n.term && r.term <= n.term ==>
                  && n'.voteCount - n.voteCount == (if r.granted then 1 else 0)
                  && (n'.won <==> n.won || (r.granted && ticking && 2 * n'.voteCount > n.peers))
                  && n' == n.(answered := n.answered + {peer}, voteCount := n'.voteCount, won := n'.won))
  {
  }

  lemma StepTaken(size: nat, run: seq<Step>, s: Step)
    ensures var c := Exec(size, run);
            run <= run + [s] && Exec(size, run + [s]) == if Enabled(c, s) then Apply(c, s) else c
  {
    assert (run + [s])[..|run|] == run;
  }

  /** Peer `i` has asked every other peer for its vote. */
  predicate AskedAll(c: Cluster, i: nat, a: VoteArgs) {
    forall j: nat :: j < |c.nodes| && j != i ==> VoteRequest(j, a) in c.net
  }

  /**
   A peer that times out, unless it leads, campaigns in the next term with its own vote, and asks every other peer.
   */
  lemma TimeoutCampaigns(size: nat, run: seq<Step>, i: nat)
    requires i < size && Exec(size, run).nodes[i].role != Leader && !Exec(size, run).nodes[i].won
    ensures var n, c' := Exec(size, run).nodes[i], Exec(size, run + [Timeout(i)]);
            var n' := c'.nodes[i];
            && n'.role == Candidate && n'.term == n.term + 1 && n'.votedFor == i && n'.voteCount == 1 && n'.log == n.log
            && AskedAll(c', i, VoteArgs(n.term + 1, i, |n.log| - 1, n.log[|n.log| - 1].term))
  {
    hide Exec, HistoryOf;
    PeerReady(size, run, i);
    StepTaken(size, run, Timeout(i));
    var n', c' := Campaign(Exec(size, run).nodes[i]), Exec(size, run + [Timeout(i)]);
    var a := VoteArgs(n'.term, i, |n'.log| - 1, n'.log[|n'.log| - 1].term);
    forall j: nat | j < size && j != i ensures VoteRequest(j, a) in c'.net {
      assert VoteRequest(j, VoteRequestOf(n')) in VoteRequests(n');
    }
  }

  /** A leader gives up its office only at a restart or to follow in a newer term. */
  lemma {:induction false} LeaderStays(size: nat, run: seq<Step>, i: nat, s: Step)
    requires i < size && Exec(size, run).nodes[i].role == Leader
    ensures var n, n' := Exec(size, run).nodes[i], Exec(size, run + [s]).nodes[i];
            || (n'.role == Leader && n'.term == n.term)
            || s == Restart(i)
            || (n'.role == Follower && n'.term > n.term)
  {
    hide AppendEntries, CommitScan, Progress;
    PeerReady(size, run, i);
    assert (run + [s])[..|run|] == run;
    var n := Exec(size, run).nodes[i];
    if s.DeliverAppendRequest? && s.m.AppendRequest? { AppendRoleAndTerm(n, s.m.append); }
  }

  lemma AppendRoleAndTerm(n: Node, a: AppendArgs)
    requires WellFormed(n)
    ensures var n' := AppendEntries(n, a).0;
            if a.term > n.term then n'.role == Follower && n'.term == a.term else n'.role == n.role && n'.term == n.term
  {
    hide Spliced, ScanBack;
  }

  // ---------------------------------------------------------------- Start

  /**
   A leader appends the command, in its term, at the index returned, which is its new last index; others do nothing.
   */
  lemma StartAppends(n: Node, command: Command)
    requires WellFormed(n)
    ensures var (n', (index, term, isLeader)) := Start(n, command);
            && (isLeader <==> n.role == Leader)
            && (isLeader ==>
                  && term == n.term && n'.log == n.log + [Entry(term, command)]
                  && index == n.snap + |n'.log| - 1 && n'.log[index - n.snap] == Entry(term, command)
                  && n' == n.(log := n'.log, disk := Saved(n.term, n.votedFor, n'.log, n.snap)))
            && (!isLeader ==> n' == n && index == -1 && term == -1)
  {
  }

  /** The command stays at that index as long as the peer leads that term. */
  lemma StartedStays(size: nat, run: seq<Step>, p: nat, q: nat, i: nat, command: Command)
    requires p < q <= |run| && i < size && run[p] == Submit(i, command) && At(size, run, p, i).role == Leader
    requires At(size, run, q, i).role == Leader && At(size, run, q, i).term == At(size, run, p, i).term
    ensures var (_, (index, term, _)) := Start(At(size, run, p, i), command);
            0 <= index < |At(size, run, q, i).log| && At(size, run, q, i).log[index] == Entry(term, command)
  {
    assert run[..p + 1][..p] == run[..p];
    PeerReady(size, run[..p], i);
    StartAppends(At(size, run, p, i), command);
    var n := At(size, run, p + 1, i);
    LeaderAppendOnly(size, run, p + 1, q, i);
    assert n.log[|n.log| - 1] == At(size, run, q, i).log[..|n.log|][|n.log| - 1];
  }

  // ---------------------------------------------------------------- office and commit indexes

  predicate HasTerm(n: Node, index: int, term: int) {
    n.snap <= index <= LastIndex(n) && n.log[index - n.snap].term == term
  }

  /** A candidate that has won leads its term, will send every peer what follows its log, and knows no match yet. */
  lemma TakesOffice(n: Node, i: nat)
    requires n.role == Candidate && i < n.peers
    ensures var n' := TakeOffice(n);
            && n'.role == Leader && !n'.won && n'.term == n.term && n'.votedFor == n.votedFor && n'.log == n.log
            && |n'.nextIndex| == |n'.matchIndex| == n.peers
            && n'.nextIndex[i] == n.snap + |n.log| && n'.matchIndex[i] == 0
  {
  }

  /** An accepted append ends the log where its entries end, and takes the leader's commit index within it. */
  lemma AcceptedCommit(n: Node, a: AppendArgs)
    requires WellFormed(n) && n.term <= a.term && HasTerm(n, a.prevIndex, a.prevTerm)
    ensures var (n', r) := AppendEntries(n, a);
            && r.success && n'.term == r.term == a.term && r.xIndex == LastIndex(n') + 1
            && LastIndex(n') == a.prevIndex + |a.entries|
            && n'.commitIndex == if a.commit <= n.commitIndex then n.commitIndex
                                 else if a.commit <= LastIndex(n') then a.commit else LastIndex(n')
  {
  }

  /**
   What a leader sends a peer that has its entry before nextIndex is accepted; the follower then has everything the
   leader has committed within the entries it now holds, and its commit index does not go back unless the append stops
   short of it.
   */
  lemma CommitReaches(leader: Node, follower: Node, peer: nat)
    requires WellFormed(leader) && WellFormed(follower) && CanSendTo(leader, peer) && follower.term <= leader.term
    requires HasTerm(follower, leader.nextIndex[peer] - 1, leader.log[leader.nextIndex[peer] - 1 - leader.snap].term)
    ensures var (n', r) := AppendEntries(follower, AppendRequestFor(leader, peer));
            && r.success && n'.term == r.term == leader.term
            && r.xIndex == LastIndex(n') + 1 && LastIndex(n') == LastIndex(leader)
            && (leader.commitIndex <= follower.commitIndex ==> n'.commitIndex == follower.commitIndex)
            && (follower.commitIndex < leader.commitIndex <= LastIndex(leader) ==> n'.commitIndex == leader.commitIndex)
            && (follower.commitIndex < leader.commitIndex && LastIndex(leader) < leader.commitIndex ==>
                  n'.commitIndex == LastIndex(leader))
  {
    hide AppendEntries;
    AcceptedCommit(follower, AppendRequestFor(leader, peer));
  }

  // ---------------------------------------------------------------- replies to appends

  /** A leader ignores stale replies, steps down for a newer term, and notes what a peer has accepted. */
  lemma RepliesByTerm(n: Node, peer: nat, a: AppendArgs, r: AppendReply)
    requires WellFormed(n) && peer < n.peers && (TakesReply(n, a, r) ==> CanProgress(n, peer, a, r))
    ensures var n' := AppendReplied(n, peer, a, r);
            if n.role != Leader || a.term < n.term || r.term < n.term then n' == n
            else if r.term > n.term then
              && n'.role == Follower && n'.term == r.term && n'.votedFor == -1 && n'.log == n.log
              && n'.disk == Saved(r.term, -1, n.log, n.snap)
            else
              && n' == n.(nextIndex := n'.nextIndex, matchIndex := n'.matchIndex, commitIndex := n'.commitIndex)
              && (forall j :: 0 <= j < n.peers && j != peer ==>
                  n'.nextIndex[j] == n.nextIndex[j] && n'.matchIndex[j] == n.matchIndex[j])
              && (r.success ==> n'.nextIndex[peer] == r.xIndex && n'.matchIndex[peer] == r.xIndex - 1)
  {
    hide CommitScan;
  }

  /**
   What a rejection that names a term teaches: if the leader has that term between the index reported and the index
   probed, the last such entry becomes the match index and the next index follows it; otherwise the index reported is
   tried next and the match index stays.
   */
  lemma RejectionTeaches(n: Node, peer: nat, a: AppendArgs, r: AppendReply)
    requires WellFormed(n) && CanProgress(n, peer, a, r) && !r.success && r.xTerm != -1 && 0 <= r.xIndex
    ensures var (next, mtch) := Progress(n, peer, a, r);
            if exists k :: n.snap < k <= a.prevIndex && r.xIndex <= k && HasTerm(n, k, r.xTerm) then
              && next == mtch + 1 && n.snap < mtch <= a.prevIndex && r.xIndex <= mtch && HasTerm(n, mtch, r.xTerm)
              && forall k :: mtch < k <= a.prevIndex ==> !HasTerm(n, k, r.xTerm)
            else
              next == r.xIndex && mtch == n.matchIndex[peer]
  {
    if a.prevIndex >= n.snap {
      var idx := FindTerm(n.log, a.prevIndex - n.snap, r.xTerm);
      if k :| n.snap < k <= a.prevIndex && r.xIndex <= k && HasTerm(n, k, r.xTerm) {
        assert k - n.snap <= idx;
      }
      assert idx > 0 ==> HasTerm(n, idx + n.snap, r.xTerm);
    }
  }

  lemma OtherAnswers(n: Node, peer: nat, a: AppendArgs, r: AppendReply)
    requires WellFormed(n) && CanProgress(n, peer, a, r)
    ensures r.success ==> Progress(n, peer, a, r) == (r.xIndex, r.xIndex - 1)
    ensures !r.success && r.xTerm == -1 ==> Progress(n, peer, a, r) == (r.xIndex, n.matchIndex[peer])
  {
  }

  /** An append that starts below the follower's snapshot, or conflicts at it, makes the leader turn to its snapshot. */
  lemma SnapshotAsked(leader: Node, follower: Node, peer: nat, a: AppendArgs)
    requires WellFormed(leader) && WellFormed(follower) && peer < leader.peers
    requires a.term >= follower.term && a.prevIndex <= LastIndex(follower)
    requires a.prevIndex < follower.snap || (a.prevIndex == follower.snap && follower.log[0].term != a.prevTerm)
    requires leader.role == Leader && leader.term == a.term
    ensures var r := AppendEntries(follower, a).1;
            && !r.success && TakesReply(leader, a, r) && CanProgress(leader, peer, a, r)
            && AppendReplied(leader, peer, a, r).nextIndex[peer] <= leader.snap
            && !CanSendTo(AppendReplied(leader, peer, a, r), peer)
  {
    hide CommitScan, Overwrite, Spliced;
  }

  // ---------------------------------------------------------------- the commit scan

  /** An entry of the leader's term above the index found, up to where the scan began, lacks a majority. */
  lemma {:induction false} CommitScanComplete(n: Node, k: int, c: int)
    requires WellFormed(n) && n.snap == 0 && 0 <= n.commitIndex && k < |n.log|
    requires forall i, j :: 0 <= i <= j < |n.log| ==> n.log[i].term <= n.log[j].term
    requires 0 <= c && CommitScan(n, k) < c <= k && n.log[c].term == n.term
    ensures 2 * |CountedFor(n, c)| <= n.peers
    decreases k
  {
    hide CommitScan, CountedFor;
    ScanStep(n, k);
    if c < k { CommitScanComplete(n, k - 1, c); }
  }

  /** The scan goes on below an entry only if that lacks a majority. */
  lemma ScanStep(n: Node, k: int)
    requires WellFormed(n) && n.snap == 0 && 0 <= n.commitIndex && 0 <= k < |n.log|
    ensures k <= n.commitIndex ==> CommitScan(n, k) == n.commitIndex
    ensures n.log[k].term >= n.term && CommitScan(n, k) < k ==> CommitScan(n, k) == CommitScan(n, k - 1)
    ensures n.log[k].term == n.term && CommitScan(n, k) < k ==> 2 * |CountedFor(n, k)| <= n.peers
  {
    hide CountMatches;
    CountIsSize(n, k, n.peers);
    assert CountedFor(n, k) == {n.me} + set j: nat | j < n.peers && j != n.me && n.matchIndex[j] >= k;
  }

  /** Every entry of the leader's own term after its commit index lacks a majority of matching peers. */
  ghost predicate AllCommitted(n: Node) {
    forall c: nat :: n.commitIndex < c < |n.log| && n.log[c].term == n.term ==> 2 * |CountedFor(n, c)| <= n.peers
  }

  /** The commit index is that of an entry of the leader's own term that a majority matches. */
  predicate CommitsOwn(n: Node) {
    0 <= n.commitIndex < |n.log| && n.log[n.commitIndex].term == n.term && 2 * |CountedFor(n, n.commitIndex)| > n.peers
  }

  /**
   A leader that takes a reply into account commits all it can: afterwards no later entry of its own term is matched by
   a majority; and what it newly commits is an entry of its term that a majority matches.
   */
  lemma {:induction false} CommitsAllItCan(size: nat, run: seq<Step>, m: Message)
    requires m in Exec(size, run).net && m.AppendResponse? && m.dst < size
    requires var n := Exec(size, run).nodes[m.dst];
             n.role == Leader && m.append.term == m.appendReply.term == n.term
    ensures var n, n' := Exec(size, run).nodes[m.dst], Exec(size, run + [DeliverAppendResponse(m)]).nodes[m.dst];
            && n'.log == n.log && n'.term == n.term && n.commitIndex <= n'.commitIndex
            && AllCommitted(n') && (n'.commitIndex != n.commitIndex ==> CommitsOwn(n'))
  {
    hide AppendReplied, HistoryOf, AllCommitted, CommitsOwn;
    PeerReady(size, run, m.dst);
    MessageSound(size, run, m);
    assert (run + [DeliverAppendResponse(m)])[..|run|] == run;
    RepliesInRange(size, run, m);
    ReplyCommits(HistoryOf(size, run), size, Exec(size, run).nodes[m.dst], m);
  }

  lemma ReplyCommits(h: History, size: nat, n: Node, m: Message)
    requires Ready(h, size, n) && m.AppendResponse? && MessageOk(h, size, m) && m.dst == n.me
    requires TakesReply(n, m.append, m.appendReply) && CanReadReply(n, m.src, m.append)
    ensures var n' := AppendReplied(n, m.src, m.append, m.appendReply);
            && n'.log == n.log && n'.term == n.term && n.commitIndex <= n'.commitIndex
            && AllCommitted(n') && (n'.commitIndex != n.commitIndex ==> CommitsOwn(n'))
  {
    hide HistoryOk, CommitScan, Progress, Backed, MessageOk;
    var (next, mtch) := Progress(n, m.src, m.append, m.appendReply);
    var n1 := n.(nextIndex := n.nextIndex[m.src := next], matchIndex := n.matchIndex[m.src := mtch]);
    var n' := n1.(commitIndex := CommitScan(n1, |n1.log| - 1));
    forall i, j | 0 <= i <= j < |n1.log| ensures n1.log[i].term <= n1.log[j].term { BackedTerms(h, size, n.log, i, j); }
    CommitScanOk(n1, |n1.log| - 1);
    TermsBound(h, size, n);
    forall c: nat | n'.commitIndex < c < |n'.log| && n'.log[c].term == n'.term
      ensures 2 * |CountedFor(n', c)| <= n'.peers
    {
      CommitScanComplete(n1, |n1.log| - 1, c);
    }
  }

  lemma TermsBound(h: History, size: nat, n: Node)
    requires Ready(h, size, n)
    ensures forall i :: 0 <= i < |n.log| ==> n.log[i].term <= n.term
  {
  }

  // ---------------------------------------------------------------- snapshots

  /** Snapshot trims exactly the entries before an index within the log, and does nothing for any other. */
  lemma SnapshotTakes(n: Node, index: int)
    requires WellFormed(n)
    ensures var n' := Snapshot(n, index);
            if n.snap < index <= n.snap + |n.log| - 1 then
              && n'.snap == index && LastIndex(n') == LastIndex(n) && WellFormed(n')
              && n'.log[0] == Entry(n.log[index - n.snap].term, Nil)
              && n'.log[1..] == n.log[index - n.snap + 1..]
              && n' == n.(snap := index, log := n'.log, disk := Saved(n.term, n.votedFor, n'.log, index))
            else
              n' == n
  {
  }

  /** A peer that starts on its disk begins after its snapshot, with a commit index within its log. */
  lemma BootsAtSnapshot(me: nat, peers: nat, d: Disk)
    requires me < peers && (d.Saved? ==> |d.log| >= 1)
    ensures var n := Boot(me, peers, d);
            && n.role == Follower && n.snap == n.commitIndex <= LastIndex(n)
            && (d == Blank ==> n.term == 0 && n.votedFor == -1 && n.log == [SENTINEL] && n.snap == 0)
            && (d.Saved? ==> Saved(n.term, n.votedFor, n.log, n.snap) == d)
  {
  }
}
