/**
 What becomes of commits out of order, in one run of three peers. Peer 0 leads term 1 and commits two entries that peer
 1 acknowledged; peer 2 learns of the first. Then the empty append of peer 0's first moment arrives late at both, which
 cuts their logs but not their commit indexes. Peer 1 wins the next election with peer 2's vote, without the entries,
 and its first append moves peer 2's commit index back.
 */
module RaftStaleCommits {
  import opened RaftNode
  import opened RaftCluster
  import opened RaftSafety
  import opened RaftOutOfOrder
  import opened RaftCommitIndex

  const F := Entry(1, Op("y"))

  /** Leader 0 tells peer 2 of its first commit, sends peer 1 a second entry, and tells it of the second commit. */
  const FIRST := AppendArgs(1, 0, 0, 0, [E], 1)
  const MORE := AppendArgs(1, 0, 1, 1, [F], 1)
  const TOLD := AppendArgs(1, 0, 2, 1, [], 2)
  const TAKEN := AppendReply(1, 3, -1, true)

  /** Leader 1 of term 2 has lost the entries but not the commit index. */
  const ASK2 := VoteArgs(2, 1, 0, 0)
  const BACK := AppendArgs(2, 1, 0, 0, [], 2)

  // ---------------------------------------------------------------- the moves of the run

  predicate Is(n: Node, me: nat, role: Role, term: int, log: seq<Entry>, commit: int) {
    && WellFormed(n) && n.me == me && n.peers == 3 && n.snap == 0 && !n.won
    && n.role == role && n.term == term && n.log == log && n.commitIndex == commit
  }

  /** Only peer `i` changes, and nothing sent is lost. */
  ghost predicate Only(run: seq<Step>, run': seq<Step>, i: nat) {
    && (forall j: nat :: j < 3 && j != i ==> Exec(3, run').nodes[j] == Exec(3, run).nodes[j])
    && Exec(3, run).net <= Exec(3, run').net
  }

  /** A follower accepts an append. */
  lemma Take(run: seq<Step>, v: nat, t: int, log: seq<Entry>, c: int, a: AppendArgs, log': seq<Entry>)
    returns (more: seq<Step>)
    requires v < 3 && Is(Exec(3, run).nodes[v], v, Follower, t, log, c) && AppendRequest(v, a) in Exec(3, run).net
    requires t <= a.term && 0 <= a.prevIndex < |log| && log[a.prevIndex].term == a.prevTerm
    requires log' == Spliced(log, a.prevIndex, a.entries) && |log'| >= 1
    ensures more == run + [DeliverAppendRequest(AppendRequest(v, a))] && Only(run, more, v)
    ensures Is(Exec(3, more).nodes[v], v, Follower, a.term, log', if a.commit > c then Min(a.commit, |log'| - 1) else c)
    ensures AppendResponse(v, a.leader, a, AppendReply(a.term, |log'|, -1, true), log') in Exec(3, more).net
  {
    hide Exec, AppendEntries;
    var s := DeliverAppendRequest(AppendRequest(v, a));
    more := run + [s];
    Next(run, s);
    Taken(Exec(3, run).nodes[v], v, t, log, c, a, log');
  }

  lemma Taken(n: Node, v: nat, t: int, log: seq<Entry>, c: int, a: AppendArgs, log': seq<Entry>)
    requires Is(n, v, Follower, t, log, c)
    requires t <= a.term && 0 <= a.prevIndex < |log| && log[a.prevIndex].term == a.prevTerm
    requires log' == Spliced(log, a.prevIndex, a.entries) && |log'| >= 1
    ensures var (n', r) := AppendEntries(n, a);
            && Is(n', v, Follower, a.term, log', if a.commit > c then Min(a.commit, |log'| - 1) else c)
            && r == AppendReply(a.term, |log'|, -1, true)
  {
    hide Spliced;
  }

  /** The leader sends its appends. */
  lemma Beat(run: seq<Step>, i: nat, j: nat, a: AppendArgs) returns (more: seq<Step>)
    requires i < 3 && j < 3 && i != j && Exec(3, run).nodes[i].role == Leader
    requires var n := Exec(3, run).nodes[i]; n.me == i && n.peers == 3 && CanSendTo(n, j) && AppendRequestFor(n, j) == a
    ensures more == run + [Heartbeat(i)] && Exec(3, more).nodes == Exec(3, run).nodes
    ensures Exec(3, run).net <= Exec(3, more).net && AppendRequest(j, a) in Exec(3, more).net
  {
    hide Exec;
    more := run + [Heartbeat(i)];
    Next(run, Heartbeat(i));
    assert AppendRequest(j, AppendRequestFor(Exec(3, run).nodes[i], j)) in AppendRequests(Exec(3, run).nodes[i]);
  }

  // ---------------------------------------------------------------- the run

  lemma Learned0()
    ensures Is(COMMITTED0, 0, Leader, 1, [SENTINEL, E], 1) && COMMITTED0.nextIndex == [1, 2, 1]
            && COMMITTED0.matchIndex == [0, 1, 0]
    ensures Is(COPIED1, 1, Follower, 1, [SENTINEL, E], 0) && Is(Blank0(2), 2, Follower, 0, [SENTINEL], 0)
  {
    CommitFacts();
    assert APPENDED0.nextIndex == [1, 1, 1] && APPENDED0.matchIndex == [0, 0, 0];
    assert Progress(APPENDED0, 1, FULL, ACK) == (2, 1);
    assert COPIED1.log == [SENTINEL, E];
  }

  /** Peer 2 learns of the first commit. */
  lemma Learn2() returns (run: seq<Step>)
    ensures |run| == 10 && COMMIT <= run && Exec(3, run).nodes[0] == COMMITTED0 && Exec(3, run).nodes[1] == COPIED1
    ensures Is(Exec(3, run).nodes[2], 2, Follower, 1, [SENTINEL, E], 1)
    ensures AppendRequest(1, EARLY) in Exec(3, run).net && AppendRequest(2, EARLY) in Exec(3, run).net
  {
    hide Exec;
    run := RaftOutOfOrder.Commit();
    Learned0();
    assert AppendRequestFor(COMMITTED0, 2) == FIRST;
    run := Beat(run, 0, 2, FIRST);
    assert Spliced([SENTINEL], 0, [E]) == [SENTINEL, E];
    run := Take(run, 2, 0, [SENTINEL], 0, FIRST, [SENTINEL, E]);
  }

  const HAS2 := Start(COMMITTED0, Op("y")).0
  const DONE2 := AppendReplied(HAS2, 1, MORE, TAKEN)

  lemma Learned1()
    ensures Is(HAS2, 0, Leader, 1, [SENTINEL, E, F], 1) && HAS2.nextIndex == [1, 2, 1]
    ensures Is(DONE2, 0, Leader, 1, [SENTINEL, E, F], 2) && DONE2.nextIndex == [1, 3, 1]
  {
    hide COMMITTED0;
    Learned0();
    assert Progress(HAS2, 1, MORE, TAKEN) == (3, 2);
    var n := HAS2.(nextIndex := HAS2.nextIndex[1 := 3], matchIndex := HAS2.matchIndex[1 := 2]);
    SecondCommit(n);
    assert DONE2 == n.(commitIndex := CommitScan(n, |n.log| - 1));
  }

  lemma SecondCommit(n: Node)
    requires Is(n, 0, Leader, 1, [SENTINEL, E, F], 1) && n.matchIndex == [0, 2, 0]
    ensures CommitScan(n, 2) == 2
  {
    assert CountMatches(n.matchIndex, 0, 2, 2) == 1;
    assert CountMatches(n.matchIndex, 0, 2, 3) >= 1;
  }

  /** Peer 1 gets the second entry, and the leader commits it. */
  lemma Commit2() returns (run: seq<Step>)
    ensures |run| == 14 && COMMIT <= run && Exec(3, run).nodes[0] == DONE2
    ensures Is(Exec(3, run).nodes[1], 1, Follower, 1, [SENTINEL, E, F], 1)
    ensures Is(Exec(3, run).nodes[2], 2, Follower, 1, [SENTINEL, E], 1)
    ensures AppendRequest(1, EARLY) in Exec(3, run).net && AppendRequest(2, EARLY) in Exec(3, run).net
  {
    hide Exec, AppendReplied;
    run := Learn2();
    Learned0();
    Learned1();
    Next(run, Submit(0, Op("y")));
    run := run + [Submit(0, Op("y"))];
    assert AppendRequestFor(HAS2, 1) == MORE;
    run := Beat(run, 0, 1, MORE);
    assert Spliced([SENTINEL, E], 1, [F]) == [SENTINEL, E, F];
    run := Take(run, 1, 1, [SENTINEL, E], 0, MORE, [SENTINEL, E, F]);
    var s := DeliverAppendResponse(AppendResponse(1, 0, MORE, TAKEN, [SENTINEL, E, F]));
    Next(run, s);
    run := run + [s];
  }

  /** Peer 1 learns of the second commit and then loses both entries. */
  lemma Lose1() returns (run: seq<Step>)
    ensures |run| == 17 && COMMIT <= run && Is(Exec(3, run).nodes[1], 1, Follower, 1, [SENTINEL], 2)
    ensures Is(Exec(3, run).nodes[2], 2, Follower, 1, [SENTINEL, E], 1) && AppendRequest(2, EARLY) in Exec(3, run).net
  {
    hide Exec;
    run := Commit2();
    Learned1();
    assert AppendRequestFor(DONE2, 1) == TOLD;
    run := Beat(run, 0, 1, TOLD);
    assert Spliced([SENTINEL, E, F], 2, []) == [SENTINEL, E, F];
    run := Take(run, 1, 1, [SENTINEL, E, F], 1, TOLD, [SENTINEL, E, F]);
    assert Spliced([SENTINEL, E, F], 0, []) == [SENTINEL];
    run := Take(run, 1, 1, [SENTINEL, E, F], 2, EARLY, [SENTINEL]);
  }

  /** Peer 2 loses its entry too; peer 1 campaigns, and peer 2 votes for it. */
  lemma Vote2(before: seq<Step>) returns (run: seq<Step>)
    requires Is(Exec(3, before).nodes[1], 1, Follower, 1, [SENTINEL], 2)
    requires Is(Exec(3, before).nodes[2], 2, Follower, 1, [SENTINEL, E], 1)
             && AppendRequest(2, EARLY) in Exec(3, before).net
    ensures |run| == |before| + 3 && before <= run
    ensures Is(Exec(3, run).nodes[1], 1, Candidate, 2, [SENTINEL], 2)
    ensures var n := Exec(3, run).nodes[1]; n.voteCount == 1 && n.answered == {1}
    ensures Is(Exec(3, run).nodes[2], 2, Follower, 2, [SENTINEL], 1)
    ensures VoteResponse(2, 1, ASK2, VoteReply(2, true)) in Exec(3, run).net
  {
    hide Exec;
    assert Spliced([SENTINEL, E], 0, []) == [SENTINEL];
    run := Take(before, 2, 1, [SENTINEL, E], 1, EARLY, [SENTINEL]);
    var n1 := Campaign(Exec(3, run).nodes[1]);
    Next(run, Timeout(1));
    run := run + [Timeout(1)];
    assert VoteRequestOf(n1) == ASK2;
    assert VoteRequest(2, VoteRequestOf(n1)) in VoteRequests(n1);
    Next(run, DeliverVoteRequest(VoteRequest(2, ASK2)));
    run := run + [DeliverVoteRequest(VoteRequest(2, ASK2))];
  }

  /** Peer 1 leads term 2. */
  lemma Lead1(before: seq<Step>) returns (run: seq<Step>)
    requires Is(Exec(3, before).nodes[1], 1, Candidate, 2, [SENTINEL], 2)
    requires var n := Exec(3, before).nodes[1]; n.voteCount == 1 && n.answered == {1}
    requires VoteResponse(2, 1, ASK2, VoteReply(2, true)) in Exec(3, before).net
    ensures |run| == |before| + 2 && before <= run && Exec(3, run).nodes[2] == Exec(3, before).nodes[2]
    ensures var n := Exec(3, run).nodes[1]; n.role == Leader && n.term == 2 && n.log == [SENTINEL]
    ensures AppendRequest(2, BACK) in Exec(3, run).net
  {
    hide Exec;
    var s := DeliverVoteResponse(VoteResponse(2, 1, ASK2, VoteReply(2, true)), true);
    Next(before, s);
    run := before + [s];
    Next(run, Promote(1));
    var n := TakeOffice(Exec(3, run).nodes[1]);
    run := run + [Promote(1)];
    assert AppendRequestFor(n, 2) == BACK;
    assert AppendRequest(2, AppendRequestFor(n, 2)) in AppendRequests(n);
  }

  lemma Story() returns (run: seq<Step>)
    ensures |run| == 23 && COMMIT <= run && run[22] == DeliverAppendRequest(AppendRequest(2, BACK))
    ensures At(3, run, 17, 1).commitIndex == 2 && LastIndex(At(3, run, 17, 1)) == 0
    ensures var n := At(3, run, 22, 1); n.role == Leader && n.term == 2 && n.log == [SENTINEL]
    ensures At(3, run, 22, 2).commitIndex == 1 && At(3, run, 23, 2).commitIndex == 0
  {
    hide Exec;
    var lost := Lose1();
    var voted := Vote2(lost);
    var led := Lead1(voted);
    assert Spliced([SENTINEL], 0, []) == [SENTINEL];
    run := Take(led, 2, 2, [SENTINEL], 1, BACK, [SENTINEL]);
    assert led <= run && voted <= run && lost <= run;
    assert run[..17] == lost && run[..22] == led && run[..23] == run;
  }

  /**
   Without the order of appends, Leader Completeness fails: peer 0 commits an entry by the majority rule in term 1, and
   peer 1, which had acknowledged the entry, leads term 2 without it.
   */
  lemma CommittedEntryLost() returns (run: seq<Step>)
    ensures |run| == 23 && CommitsAt(3, run, 7, 0)
    ensures At(3, run, 8, 0).commitIndex == 1 && At(3, run, 8, 0).log == [SENTINEL, E] && At(3, run, 7, 0).term == 1
    ensures At(3, run, 7, 1).log == [SENTINEL, E]
    ensures At(3, run, 22, 1).role == Leader && At(3, run, 22, 1).term == 2 && At(3, run, 22, 1).log == [SENTINEL]
  {
    hide Exec;
    var committed := RaftOutOfOrder.Commit();
    run := Story();
    assert run[..8] == committed && run[..7] == committed[..7];
    CommitFacts();
  }

  /**
   Commit agreement fails as well: after 17 steps of the run peer 1 has a commit index beyond its last index. And no
   restart is needed for a commit index to go back: peer 2's falls from 1 to 0 at the last step.
   */
  lemma CommitIndexGoesBack() returns (run: seq<Step>)
    ensures |run| == 23 && !InOrder(3, run)
    ensures At(3, run, 17, 1).commitIndex == 2 && LastIndex(At(3, run, 17, 1)) == 0
    ensures run[22] == DeliverAppendRequest(AppendRequest(2, BACK))
    ensures At(3, run, 22, 2).commitIndex == 1 && At(3, run, 23, 2).commitIndex == 0
  {
    hide Exec, InOrder;
    run := Story();
    if InOrder(3, run) { CommitAgreement(3, run, 17, 1, 17, 1); }
  }
}
