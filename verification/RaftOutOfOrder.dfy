/**
 What goes wrong out of order. The AppendEntries handler cuts the log after the entries it was sent even when nothing
 conflicts, so a late, shorter append from the same leader drops entries the peer has acknowledged.
 */
module RaftOutOfOrder {
  import opened RaftNode
  import opened RaftCluster
  import opened RaftHistory
  import opened RaftInvariant
  import opened RaftSafety

  // ---------------------------------------------------------------- exactly when a later append keeps the log

  lemma {:induction false} AcceptedIsRecorded(size: nat, run: seq<Step>, p: nat)
    requires p < |run| && Accepts(size, run, p)
    ensures (run[p].m.append.term, run[p].m.dst) in HistoryOf(size, run).accepted
  {
    var before, s := run[..|run| - 1], run[|run| - 1];
    var h, c := HistoryOf(size, before), Exec(size, before);
    Reachable(size, before);
    if p == |run| - 1 {
      assert NodeOk(h, size, s.m.dst, c.nodes[s.m.dst]);
      AppendTerm(c.nodes[s.m.dst], s.m.append);
    } else {
      assert before[..p] == run[..p];
      AcceptedIsRecorded(size, before, p);
      if Enabled(c, s) { StepKeepsInv(h, c, s); }
    }
  }

  /**
   A peer that accepted an append of a term (step `p`) and accepts another of that term (step `q`) keeps its whole log
   if and only if the second append reaches at least as far as that log.
   */
  lemma LaterAppendKeepsLogIff(size: nat, run: seq<Step>, p: nat, q: nat)
    requires p < q < |run| && Accepts(size, run, p) && Accepts(size, run, q)
    requires run[p].m.dst == run[q].m.dst && run[p].m.append.term == run[q].m.append.term
    ensures var v := run[q].m.dst;
            IsPrefix(At(size, run, q, v).log, At(size, run, q + 1, v).log) <==>
            LastIndex(At(size, run, q, v)) <= Reach(run[q].m.append)
  {
    hide HistoryOf, AppendEntries;
    var before, m := run[..q], run[q].m;
    var h, n := HistoryOf(size, before), Exec(size, before).nodes[m.dst];
    assert before[..p] == run[..p] && run[..q + 1][..q] == before;
    AcceptedIsRecorded(size, before, p);
    PeerReady(size, before, m.dst);
    MessageSound(size, before, m);
    KeepsLogIff(h, size, n, m.append);
  }

  lemma KeepsLogIff(h: History, size: nat, n: Node, a: AppendArgs)
    requires Ready(h, size, n) && AppendOk(h, size, n.me, a) && AppendEntries(n, a).1.success
             && (a.term, n.me) in h.accepted
    ensures IsPrefix(n.log, AppendEntries(n, a).0.log) <==> LastIndex(n) <= Reach(a)
  {
    AppendRaises(n, a);
    DeliveredLog(h, size, n, a);
    var L := h.reigns[a.term].log;
    if LastIndex(n) <= Reach(a) {
      assert L[..Reach(a) + 1][..|n.log|] == L[..|n.log|];
    }
  }

  lemma AppendRaises(n: Node, a: AppendArgs)
    requires WellFormed(n) && AppendEntries(n, a).1.success
    ensures n.term <= a.term
  {
  }

  // ---------------------------------------------------------------- order, in terms of what the logs lose

  lemma AcceptedReach(size: nat, run: seq<Step>, p: nat)
    requires p < |run| && Accepts(size, run, p)
    ensures run[p].m.dst < size
    ensures var n := At(size, run, p + 1, run[p].m.dst);
            n.term == run[p].m.append.term && LastIndex(n) == Reach(run[p].m.append)
    ensures At(size, run, p, run[p].m.dst).term <= run[p].m.append.term
  {
    var before, m := run[..p], run[p].m;
    var h, n := HistoryOf(size, before), Exec(size, before).nodes[m.dst];
    assert run[..p + 1][..p] == before;
    PeerReady(size, before, m.dst);
    MessageSound(size, before, m);
    DeliveredLog(h, size, n, m.append);
    AcceptedShape(h, size, n, m.append);
  }

  lemma AcceptedShape(h: History, size: nat, n: Node, a: AppendArgs)
    requires Ready(h, size, n) && AppendOk(h, size, n.me, a) && AppendEntries(n, a).1.success
    ensures var n' := AppendEntries(n, a).0; n'.term == a.term && n'.snap == 0 && n.term <= a.term
  {
    hide AppendEntries, HistoryOk;
    AppendRaises(n, a);
    if a.term == n.term {
      AcceptShape(n, a);
    } else {
      RaiseThenAppend(n, a);
      StepDownOk(h, size, n, a.term);
      AcceptShape(Persist(ToFollower(n, a.term)), a);
    }
  }

  /** A peer's term never falls, and its log changes only when it leads or accepts an append. */
  lemma OneStep(size: nat, run: seq<Step>, q: nat, i: nat)
    requires q < |run| && i < size
    ensures var n, n' := At(size, run, q, i), At(size, run, q + 1, i);
            && n.term <= n'.term
            && (n'.log == n.log || n.role == Leader || (Accepts(size, run, q) && run[q].m.dst == i))
            && n.snap == 0 == n'.snap
  {
    var before, s := run[..q], run[q];
    assert run[..q + 1][..q] == before;
    Reachable(size, run[..q + 1]);
    PeerReady(size, before, i);
    PeerReady(size, run[..q + 1], i);
    if Enabled(Exec(size, before), s) && Actor(s) == i {
      if s.DeliverAppendRequest? || s.DeliverAppendResponse? || s.DeliverVoteRequest? || s.DeliverVoteResponse? {
        MessageSound(size, before, s.m);
      }
      StepEffect(HistoryOf(size, before), size, Exec(size, before).nodes[i], s);
    }
  }

  lemma StepEffect(h: History, size: nat, n: Node, s: Step)
    requires Ready(h, size, n) && Fires(h, size, n, s)
    ensures var n' := Act(n, s).0;
            && n.term <= n'.term
            && (n'.log == n.log || n.role == Leader
                || (s.DeliverAppendRequest? && AppendEntries(n, s.m.append).1.success))
  {
    hide AppendEntries, HistoryOk, CommitScan, Progress, Backed, MessageOk;
    if s.DeliverAppendRequest? { AppendEffect(n, s.m.append); }
  }

  lemma AppendEffect(n: Node, a: AppendArgs)
    requires WellFormed(n)
    ensures var (n', r) := AppendEntries(n, a); n.term <= n'.term && (r.success || n'.log == n.log)
  {
    hide Merge;
    MergeEffect(n, a, false);
    MergeEffect(ToFollower(n, a.term), a, true);
  }

  lemma MergeEffect(n: Node, a: AppendArgs, changed: bool)
    requires WellFormed(n)
    ensures var (n', r) := Merge(n, a, changed); n'.term == n.term && (r.success || n'.log == n.log)
  {
    hide Spliced, Agreement, ScanBack;
  }

  lemma {:induction false} TermsRise(size: nat, run: seq<Step>, p: nat, q: nat, i: nat)
    requires p <= q <= |run| && i < size
    ensures At(size, run, p, i).term <= At(size, run, q, i).term
    decreases q - p
  {
    hide At;
    if p < q {
      TermsRise(size, run, p, q - 1, i);
      OneStep(size, run, q - 1, i);
    }
  }

  /** A peer that accepted an append of a term does not lead that term. */
  lemma AcceptorDoesNotLead(size: nat, run: seq<Step>, p: nat, q: nat)
    requires p < |run| && q <= |run| && Accepts(size, run, p) && run[p].m.dst < size
    ensures var n := At(size, run, q, run[p].m.dst); !(n.role == Leader && n.term == run[p].m.append.term)
  {
    var v, t := run[p].m.dst, run[p].m.append.term;
    MessageSound(size, run[..p], run[p].m);
    HistoryGrows(size, run, p);
    assert ReignOlder(HistoryOf(size, run[..p]).reigns[t], HistoryOf(size, run).reigns[t]);
    PeerAt(size, run, q, v);
  }

  /** While a peer that accepted an append stays in that term, its log reaches as far as the last append it accepted. */
  lemma {:induction false} HoldsSince(size: nat, run: seq<Step>, p: nat, q: nat) returns (last: nat)
    requires p < q <= |run| && Accepts(size, run, p) && run[p].m.dst < size
    requires At(size, run, q, run[p].m.dst).term == run[p].m.append.term
    ensures p <= last < q && Accepts(size, run, last)
    ensures run[last].m.dst == run[p].m.dst && run[last].m.append.term == run[p].m.append.term
    ensures LastIndex(At(size, run, q, run[p].m.dst)) == Reach(run[last].m.append)
    decreases q
  {
    hide At, Exec, AppendEntries, Reach;
    var v := run[p].m.dst;
    if q == p + 1 {
      last := p;
      AcceptedReach(size, run, p);
    } else if Accepts(size, run, q - 1) && run[q - 1].m.dst == v {
      last := q - 1;
      AcceptedReach(size, run, q - 1);
    } else {
      AcceptedReach(size, run, p);
      TermsRise(size, run, p + 1, q - 1, v);
      OneStep(size, run, q - 1, v);
      AcceptorDoesNotLead(size, run, p, q - 1);
      last := HoldsSince(size, run, p, q - 1);
    }
  }

  /** Step `q` is not the first accepted append of its term at its peer. */
  predicate AcceptsAgain(size: nat, run: seq<Step>, p: nat, q: nat) {
    && p < q < |run| && Accepts(size, run, p) && Accepts(size, run, q)
    && run[q].m.AppendRequest? && run[p].m.dst == run[q].m.dst < size && run[p].m.append.term == run[q].m.append.term
  }

  /** The receiver of the append at step `q` keeps all of its log. */
  predicate Keeps(size: nat, run: seq<Step>, q: nat)
    requires q < |run| && run[q].DeliverAppendRequest? && run[q].m.AppendRequest? && run[q].m.dst < size
  {
    IsPrefix(At(size, run, q, run[q].m.dst).log, At(size, run, q + 1, run[q].m.dst).log)
  }

  ghost predicate NothingDropped(size: nat, run: seq<Step>) {
    forall p: nat, q: nat {:trigger AcceptsAgain(size, run, p, q)} :: AcceptsAgain(size, run, p, q) ==>
          Keeps(size, run, q)
  }

  /** A later accepted append keeps the log exactly when it reaches as far as the one accepted last. */
  lemma KeepsIffReaches(size: nat, run: seq<Step>, p: nat, q: nat) returns (last: nat)
    requires AcceptsAgain(size, run, p, q)
    ensures p <= last && AcceptsAgain(size, run, last, q) && run[last].m.dst == run[p].m.dst
    ensures run[last].m.append.term == run[p].m.append.term
    ensures Keeps(size, run, q) <==> Reach(run[last].m.append) <= Reach(run[q].m.append)
  {
    AcceptedReach(size, run, p);
    AcceptedReach(size, run, q);
    TermsRise(size, run, p + 1, q, run[p].m.dst);
    last := HoldsSince(size, run, p, q);
    LaterAppendKeepsLogIff(size, run, last, q);
  }

  lemma AcceptsIsRequest(size: nat, run: seq<Step>, q: nat)
    requires q < |run| && Accepts(size, run, q)
    ensures run[q].m.AppendRequest? && run[q].m.dst < size
  {
  }

  lemma {:induction false} KeepingRises(size: nat, run: seq<Step>, p: nat, q: nat)
    requires AcceptsAgain(size, run, p, q) && NothingDropped(size, run)
    ensures Reach(run[p].m.append) <= Reach(run[q].m.append)
    decreases q
  {
    hide Keeps, Exec, AppendEntries, Reach;
    var last := KeepsIffReaches(size, run, p, q);
    if last != p { KeepingRises(size, run, p, last); }
  }

  /**
   What the hypothesis of order says about logs: a run is in order if and only if no peer loses an entry to an append
   that it accepts after the first of its term.
   */
  lemma InOrderIffNothingDropped(size: nat, run: seq<Step>)
    ensures InOrder(size, run) <==> NothingDropped(size, run)
  {
    hide Keeps, Exec, AppendEntries, Reach;
    if InOrder(size, run) {
      forall p: nat, q: nat | AcceptsAgain(size, run, p, q) ensures Keeps(size, run, q) {
        var last := KeepsIffReaches(size, run, p, q);
      }
    }
    if NothingDropped(size, run) {
      forall p: nat, q: nat | p < q < |run| && Accepts(size, run, p) && Accepts(size, run, q)
        && run[p].m.dst == run[q].m.dst && run[p].m.append.term == run[q].m.append.term
        ensures Reach(run[p].m.append) <= Reach(run[q].m.append)
      {
        AcceptsIsRequest(size, run, q);
        KeepingRises(size, run, p, q);
      }
    }
  }

  // ---------------------------------------------------------------- a commit

  const E := Entry(1, Op("x"))
  const ASK1 := VoteArgs(1, 0, 0, 0)
  const EARLY := AppendArgs(1, 0, 0, 0, [], 0)
  const FULL := AppendArgs(1, 0, 0, 0, [E], 0)
  const ACK := AppendReply(1, 2, -1, true)

  /** Peer 0 is elected by peer 1, appends an entry and replicates it; peer 1 acknowledges; peer 0 commits. */
  const COMMIT := [
    Timeout(0),
    DeliverVoteRequest(VoteRequest(1, ASK1)),
    DeliverVoteResponse(VoteResponse(1, 0, ASK1, VoteReply(1, true)), true),
    Promote(0),
    Submit(0, Op("x")),
    Heartbeat(0),
    DeliverAppendRequest(AppendRequest(1, FULL)),
    DeliverAppendResponse(AppendResponse(1, 0, FULL, ACK, [SENTINEL, E]))
  ]

  // The peers along the run.
  function Blank0(i: nat): Node { Boot(i, 3, Blank) }
  const RUNNING0 := Campaign(Blank0(0))
  const VOTED1 := RequestVote(Blank0(1), ASK1).0
  const ELECTED0 := VoteReplied(RUNNING0, 1, ASK1, VoteReply(1, true), true)
  const LEADING0 := TakeOffice(ELECTED0)
  const APPENDED0 := Start(LEADING0, Op("x")).0
  const COPIED1 := AppendEntries(VOTED1, FULL).0
  const COMMITTED0 := AppendReplied(APPENDED0, 1, FULL, ACK)

  /** One step of the run, given what it does to its actor. */
  lemma Next(run: seq<Step>, s: Step)
    requires Enabled(Exec(3, run), s)
    ensures var c, c' := Exec(3, run), Exec(3, run + [s]);
            var (n', sent) := Act(c.nodes[Actor(s)], s);
            c'.nodes == c.nodes[Actor(s) := n'] && c'.net == c.net + sent
  {
    assert (run + [s])[..|run|] == run;
  }

  lemma Vote() returns (run: seq<Step>)
    ensures run == COMMIT[..2] && Exec(3, run).nodes == [RUNNING0, VOTED1, Blank0(2)]
    ensures VoteResponse(1, 0, ASK1, VoteReply(1, true)) in Exec(3, run).net
  {
    run := [];
    assert Exec(3, run).nodes == [Blank0(0), Blank0(1), Blank0(2)];
    Next(run, COMMIT[0]);
    run := run + [COMMIT[0]];
    assert VoteRequestOf(RUNNING0) == ASK1;
    assert VoteRequest(1, VoteRequestOf(RUNNING0)) in VoteRequests(RUNNING0);
    Next(run, COMMIT[1]);
    run := run + [COMMIT[1]];
    assert RequestVote(Blank0(1), ASK1).1 == VoteReply(1, true);
  }

  lemma Elect() returns (run: seq<Step>)
    ensures run == COMMIT[..4] && Exec(3, run).nodes == [LEADING0, VOTED1, Blank0(2)]
    ensures AppendRequest(1, EARLY) in Exec(3, run).net && AppendRequest(2, EARLY) in Exec(3, run).net
  {
    hide Exec;
    run := Vote();
    Next(run, COMMIT[2]);
    run := run + [COMMIT[2]];
    assert Exec(3, run).nodes == [ELECTED0, VOTED1, Blank0(2)] && ELECTED0.won;
    Next(run, COMMIT[3]);
    run := run + [COMMIT[3]];
    assert AppendRequestFor(LEADING0, 1) == EARLY;
    assert AppendRequestFor(LEADING0, 2) == EARLY;
    assert AppendRequest(1, AppendRequestFor(LEADING0, 1)) in AppendRequests(LEADING0);
    assert AppendRequest(2, AppendRequestFor(LEADING0, 2)) in AppendRequests(LEADING0);
  }

  lemma Replicate() returns (run: seq<Step>)
    ensures run == COMMIT[..6] && Exec(3, run).nodes == [APPENDED0, VOTED1, Blank0(2)]
    ensures AppendRequest(1, EARLY) in Exec(3, run).net && AppendRequest(2, EARLY) in Exec(3, run).net
    ensures AppendRequest(1, FULL) in Exec(3, run).net
  {
    hide Exec;
    run := Elect();
    Next(run, COMMIT[4]);
    run := run + [COMMIT[4]];
    Next(run, COMMIT[5]);
    run := run + [COMMIT[5]];
    assert AppendRequestFor(APPENDED0, 1) == FULL;
    assert AppendRequest(1, AppendRequestFor(APPENDED0, 1)) in AppendRequests(APPENDED0);
  }

  lemma Commit() returns (run: seq<Step>)
    ensures run == COMMIT && Exec(3, run).nodes == [COMMITTED0, COPIED1, Blank0(2)]
    ensures AppendRequest(1, EARLY) in Exec(3, run).net && AppendRequest(2, EARLY) in Exec(3, run).net
    ensures Exec(3, run[..7]).nodes[0] == APPENDED0 && Exec(3, run[..7]).nodes[1].log == [SENTINEL, E]
  {
    hide Exec;
    run := Replicate();
    Next(run, COMMIT[6]);
    run := run + [COMMIT[6]];
    assert AppendEntries(VOTED1, FULL).1 == ACK && COPIED1.log == [SENTINEL, E];
    assert Exec(3, run).nodes == [APPENDED0, COPIED1, Blank0(2)];
    Next(run, COMMIT[7]);
    assert (run + [COMMIT[7]])[..7] == run;
    run := run + [COMMIT[7]];
  }

  lemma CommitFacts()
    ensures APPENDED0.commitIndex == 0 && APPENDED0.term == 1
    ensures COMMITTED0.commitIndex == 1 && COMMITTED0.log == [SENTINEL, E]
  {
    var n := APPENDED0.(nextIndex := APPENDED0.nextIndex[1 := 2], matchIndex := APPENDED0.matchIndex[1 := 1]);
    assert Progress(APPENDED0, 1, FULL, ACK) == (2, 1);
    assert n.log == [SENTINEL, E] && n.term == 1 && n.peers == 3;
    assert CountMatches(n.matchIndex, 0, 1, 2) == 1;
    assert CountMatches(n.matchIndex, 0, 1, 3) >= 1;
    assert CommitScan(n, 1) == 1;
  }
}
