/**
 Exactly when a commit index goes back, and exactly when it comes to lie beyond its peer's last index, in every run.
 Both happen only when a peer accepts an append that stops short of its commit index; which of the two depends on
 whether the leader's commit index is larger. While neither happens and no committed entry is lost, committed logs
 agree. Runs in order are such runs.
 */
module RaftCommitIndex {
  import opened RaftNode
  import opened RaftCluster
  import opened RaftHistory
  import opened RaftInvariant
  import opened RaftKeeps
  import opened RaftCommit
  import opened RaftSafety
  import opened RaftOutOfOrder

  /** At step `p` peer `i` accepts an append that stops short of its commit index. */
  predicate StopsShort(size: nat, run: seq<Step>, p: nat, i: nat)
    requires p < |run| && i < size
  {
    Accepts(size, run, p) && run[p].m.dst == i && Reach(run[p].m.append) < At(size, run, p, i).commitIndex
  }

  predicate Bounded(size: nat, run: seq<Step>, p: nat, i: nat)
    requires p <= |run| && i < size
  {
    At(size, run, p, i).commitIndex <= LastIndex(At(size, run, p, i))
  }

  // ---------------------------------------------------------------- one step

  /** What an accepted append does to the commit index. */
  lemma AcceptMoves(h: History, size: nat, n: Node, a: AppendArgs)
    requires Ready(h, size, n) && AppendOk(h, size, n.me, a) && AppendEntries(n, a).1.success
    ensures var n' := AppendEntries(n, a).0;
            && LastIndex(n') == Reach(a)
            && n'.commitIndex == if a.commit > n.commitIndex then Min(a.commit, Reach(a)) else n.commitIndex
  {
    hide AppendEntries, HistoryOk;
    DeliveredLog(h, size, n, a);
    RaftOutOfOrder.AppendRaises(n, a);
    if a.term == n.term {
      AcceptShape(n, a);
    } else {
      RaiseThenAppend(n, a);
      StepDownOk(h, size, n, a.term);
      AcceptShape(Persist(ToFollower(n, a.term)), a);
    }
  }

  /** A rejected or outdated append moves neither the log nor the commit index. */
  lemma RejectMoves(n: Node, a: AppendArgs)
    requires WellFormed(n) && !AppendEntries(n, a).1.success
    ensures AppendEntries(n, a).0.log == n.log && AppendEntries(n, a).0.commitIndex == n.commitIndex
  {
    hide Overwrite, ScanBack;
  }

  /** Every other step but a restart leaves the commit index or raises it to an index of the log. */
  lemma OtherMoves(h: History, size: nat, n: Node, s: Step)
    requires Ready(h, size, n) && Fires(h, size, n, s) && !s.Restart?
    requires s.DeliverAppendRequest? ==> !AppendEntries(n, s.m.append).1.success
    ensures var n' := Act(n, s).0;
            && |n.log| <= |n'.log|
            && (n'.commitIndex == n.commitIndex || n.commitIndex < n'.commitIndex < |n'.log|)
  {
    hide AppendEntries, HistoryOk, CommitScan, Progress, Backed, MessageOk;
    match s {
      case DeliverAppendRequest(m) => RejectMoves(n, m.append);
      case DeliverAppendResponse(m) => ReplyMoves(h, size, n, m);
      case _ =>
    }
  }

  lemma ReplyMoves(h: History, size: nat, n: Node, m: Message)
    requires Ready(h, size, n) && m.AppendResponse? && MessageOk(h, size, m) && m.dst == n.me
    ensures var n' := Act(n, DeliverAppendResponse(m)).0;
            n'.log == n.log && (n'.commitIndex == n.commitIndex || n.commitIndex < n'.commitIndex < |n.log|)
  {
    hide HistoryOk, CommitScan, Progress, Backed;
    var a, r := m.append, m.appendReply;
    if TakesReply(n, a, r) && CanReadReply(n, m.src, a) {
      var (next, mtch) := Progress(n, m.src, a, r);
      var n1 := n.(nextIndex := n.nextIndex[m.src := next], matchIndex := n.matchIndex[m.src := mtch]);
      CommitScanOk(n1, |n1.log| - 1);
    }
  }

  /** The four things a step can do to a peer's commit index. */
  lemma StepMoves(size: nat, run: seq<Step>, p: nat, i: nat)
    requires p < |run| && i < size
    ensures var n, n' := At(size, run, p, i), At(size, run, p + 1, i);
            && 0 <= LastIndex(n)
            && if Accepts(size, run, p) && run[p].m.dst == i then
                 var a := run[p].m.append;
                 && LastIndex(n') == Reach(a)
                 && n'.commitIndex == if a.commit > n.commitIndex then Min(a.commit, Reach(a)) else n.commitIndex
               else
                 || (run[p] == Restart(i) && n'.commitIndex == 0 <= LastIndex(n'))
                 || (&& LastIndex(n) <= LastIndex(n')
                     && (n'.commitIndex == n.commitIndex || n.commitIndex < n'.commitIndex <= LastIndex(n')))
  {
    var before, s := run[..p], run[p];
    var h, c := HistoryOf(size, before), Exec(size, before);
    assert run[..p + 1][..p] == before;
    PeerReady(size, before, i);
    PeerReady(size, run[..p + 1], i);
    if Enabled(c, s) && Actor(s) == i {
      if s.DeliverAppendRequest? || s.DeliverAppendResponse? || s.DeliverVoteRequest? || s.DeliverVoteResponse? {
        MessageSound(size, before, s.m);
      }
      if Accepts(size, run, p) {
        AcceptMoves(h, size, c.nodes[i], s.m.append);
      } else if !s.Restart? {
        OtherMoves(h, size, c.nodes[i], s);
      }
    }
  }

  // ---------------------------------------------------------------- the exact conditions

  /**
   A commit index goes back at a step other than a restart if and only if the peer accepts an append that stops short of
   the commit index while the leader's commit index is larger: then the smaller of the two, the append's reach, is
   taken.
   */
  lemma CommitIndexFallsIff(size: nat, run: seq<Step>, p: nat, i: nat)
    requires p < |run| && i < size && run[p] != Restart(i)
    ensures At(size, run, p + 1, i).commitIndex < At(size, run, p, i).commitIndex <==>
            StopsShort(size, run, p, i) && At(size, run, p, i).commitIndex < run[p].m.append.commit
  {
    hide At, Exec, AppendEntries, Reach;
    StepMoves(size, run, p, i);
  }

  /**
   A commit index comes to lie beyond the last index if and only if the peer accepts an append that stops short of the
   commit index while the leader's commit index is not larger: then it is left where it was.
   */
  lemma CommitIndexStrandedIff(size: nat, run: seq<Step>, p: nat, i: nat)
    requires p < |run| && i < size && Bounded(size, run, p, i)
    ensures !Bounded(size, run, p + 1, i) <==>
            StopsShort(size, run, p, i) && run[p].m.append.commit <= At(size, run, p, i).commitIndex
  {
    hide At, Exec, AppendEntries, Reach;
    StepMoves(size, run, p, i);
  }

  /** A peer's commit index stays within its log for the whole run if and only if no step strands it. */
  lemma {:induction false} AlwaysBoundedIff(size: nat, run: seq<Step>, i: nat, m: nat)
    requires i < size && m <= |run|
    ensures (forall p: nat :: p <= m ==> Bounded(size, run, p, i)) <==>
            (forall p: nat :: p < m ==>
               !(StopsShort(size, run, p, i) && run[p].m.append.commit <= At(size, run, p, i).commitIndex))
  {
    hide At, Exec, AppendEntries, Reach, StopsShort, Bounded;
    if m == 0 {
      StartsBounded(size, run, i);
    } else {
      AlwaysBoundedIff(size, run, i, m - 1);
      if Bounded(size, run, m - 1, i) { CommitIndexStrandedIff(size, run, m - 1, i); }
    }
  }

  lemma StartsBounded(size: nat, run: seq<Step>, i: nat)
    requires i < size
    ensures Bounded(size, run, 0, i)
  {
    assert run[..0] == [];
  }

  // ---------------------------------------------------------------- what has been committed

  /** No accepted append stops short of its peer's commit index. */
  predicate NeverShort(size: nat, run: seq<Step>) {
    forall p: nat, i: nat {:trigger StopsShort(size, run, p, i)} ::
      p < |run| && i < size ==> !StopsShort(size, run, p, i)
  }

  /** Every entry committed by the majority rule is kept by the peers that acknowledged it. */
  predicate CommitsKept(size: nat, run: seq<Step>) {
    forall p: nat, i: nat {:trigger CommitsAt(size, run, p, i)} ::
      p < |run| && i < size && CommitsAt(size, run, p, i) ==>
        EntryKept(size, run, At(size, run, p + 1, i).term, At(size, run, p + 1, i).commitIndex)
  }

  /** Every recorded commit was made at some step by the majority rule. */
  lemma {:induction false} CommittedWhen(size: nat, run: seq<Step>, t: int, k: int) returns (p: nat, i: nat)
    requires (t, k) in HistoryOf(size, run).commits
    ensures p < |run| && i < size && CommitsAt(size, run, p, i)
    ensures At(size, run, p + 1, i).term == t && At(size, run, p + 1, i).commitIndex == k
  {
    var before, s := run[..|run| - 1], run[|run| - 1];
    if (t, k) in HistoryOf(size, before).commits {
      p, i := CommittedWhen(size, before, t, k);
      assert before[..p] == run[..p] && before[..p + 1] == run[..p + 1];
    } else {
      p, i := |run| - 1, Actor(s);
      assert run[..p + 1] == run;
      NewCommit(HistoryOf(size, before), Exec(size, before).nodes[i], s, t, k);
    }
  }

  lemma NewCommit(h: History, n: Node, s: Step, t: int, k: int)
    requires WellFormed(n) && (t, k) in Record(h, n, s, Act(n, s).0).commits && (t, k) !in h.commits
    ensures s.DeliverAppendResponse? && Act(n, s).0.commitIndex == k != n.commitIndex && Act(n, s).0.term == t
  {
    hide CommitScan, Progress, AppendEntries;
    if s.DeliverAppendResponse? { MovedInTerm(n, s); }
  }

  lemma MovedInTerm(n: Node, s: Step)
    requires WellFormed(n) && s.DeliverAppendResponse? && Act(n, s).0.commitIndex != n.commitIndex
    ensures Act(n, s).0.term == n.term
  {
    hide CommitScan, Progress;
  }

  lemma KeptCommitsTracked(size: nat, run: seq<Step>, m: nat)
    requires CommitsKept(size, run) && m <= |run|
    ensures CommitsTracked(HistoryOf(size, run[..m]))
  {
    hide Exec, EntryKept, CommitsAt, BallotsKeep, HistoryOf;
    var h := HistoryOf(size, run[..m]);
    forall t, k | (t, k) in h.commits ensures BallotsKeep(h, t, k) {
      var p, i := CommittedWhen(size, run[..m], t, k);
      SameMoment(size, run, m, p, i);
      EntryKeptPrefix(size, run, m, t, k);
      ReachableTracked(size, run[..m], t, k);
      BallotsOf(h, Exec(size, run[..m]), t, k);
    }
  }

  lemma BallotsOf(h: History, c: Cluster, t: int, k: int)
    requires Tracked(h, c, t, k)
    ensures BallotsKeep(h, t, k)
  {
  }

  lemma SameMoment(size: nat, run: seq<Step>, m: nat, p: nat, i: nat)
    requires p < m <= |run| && i < size
    ensures CommitsAt(size, run[..m], p, i) <==> CommitsAt(size, run, p, i)
    ensures At(size, run[..m], p + 1, i) == At(size, run, p + 1, i)
    ensures StopsShort(size, run[..m], p, i) <==> StopsShort(size, run, p, i)
  {
    hide Exec, AppendEntries;
    assert run[..m][..p] == run[..p] && run[..m][..p + 1] == run[..p + 1];
  }

  lemma {:induction false} ReachableCovered(size: nat, run: seq<Step>, m: nat)
    requires CommitsKept(size, run) && NeverShort(size, run) && m <= |run|
    ensures Covered(HistoryOf(size, run[..m]), Exec(size, run[..m]))
  {
    if m == 0 {
      InitCovered(size);
    } else {
      hide CommitsKept, NeverShort, Covered, Inv, CommitsTracked, ReachesCommit;
      assert run[..m][..m - 1] == run[..m - 1];
      var before, s := run[..m - 1], run[m - 1];
      ReachableCovered(size, run, m - 1);
      Reachable(size, before);
      if Enabled(Exec(size, before), s) {
        KeptCommitsTracked(size, run, m - 1);
        NotShort(size, run, m - 1);
        StepKeepsCovered(HistoryOf(size, before), Exec(size, before), s);
      }
    }
  }

  lemma NotShort(size: nat, run: seq<Step>, p: nat)
    requires NeverShort(size, run) && p < |run| && Enabled(Exec(size, run[..p]), run[p])
    ensures ReachesCommit(Exec(size, run[..p]).nodes[Actor(run[p])], run[p])
  {
    hide Exec, AppendEntries;
    assert !StopsShort(size, run, p, Actor(run[p]));
  }

  /** A peer's commit index, at any moment, is within its log and covered by a commit. */
  lemma CommitCovered(size: nat, run: seq<Step>, p: nat, i: nat) returns (t: int, k: int)
    requires CommitsKept(size, run) && NeverShort(size, run) && p <= |run| && i < size
    ensures var n := At(size, run, p, i);
            && 0 <= n.commitIndex < |n.log|
            && (n.commitIndex == 0 || Covers(HistoryOf(size, run), t, k, n.log, n.commitIndex))
  {
    var h, n := HistoryOf(size, run[..p]), At(size, run, p, i);
    hide CommitsKept, NeverShort, Exec;
    ReachableCovered(size, run, p);
    PeerAt(size, run, p, i);
    assert NodeCommitted(h, i, n);
    t, k := 0, 0;
    if n.commitIndex != 0 {
      t, k :| CommittedBy(h, i, n, t, k);
      HistoryGrows(size, run, p);
      OlderPrefix(h, HistoryOf(size, run), t, k);
      OlderPrefix(h, HistoryOf(size, run), t, n.commitIndex);
    }
  }

  /**
   Commit agreement: while no accepted append stops short of a commit index and no committed entry is lost, what one
   peer has committed at one moment and what another has committed at another are equal as far as both go.
   */
  lemma CommitsAgree(size: nat, run: seq<Step>, p: nat, i: nat, q: nat, j: nat)
    requires CommitsKept(size, run) && NeverShort(size, run) && p <= |run| && q <= |run| && i < size && j < size
    requires At(size, run, p, i).commitIndex <= At(size, run, q, j).commitIndex
    ensures At(size, run, q, j).commitIndex <= LastIndex(At(size, run, q, j))
    ensures Agree(At(size, run, p, i).log, At(size, run, q, j).log, At(size, run, p, i).commitIndex)
  {
    hide Exec, CommitsKept, NeverShort, HistoryOk, BallotsKeep;
    var n, m := At(size, run, p, i), At(size, run, q, j);
    var c := n.commitIndex;
    PeerAt(size, run, p, i);
    PeerAt(size, run, q, j);
    var t, k := CommitCovered(size, run, p, i);
    var u, l := CommitCovered(size, run, q, j);
    if c == 0 {
      assert n.log[..1] == [SENTINEL] == m.log[..1];
    } else {
      Reachable(size, run);
      KeptCommitsTracked(size, run, |run|);
      assert run[..|run|] == run;
      assert BallotsKeep(HistoryOf(size, run), t, k) && BallotsKeep(HistoryOf(size, run), u, l);
      CoveredAgree(HistoryOf(size, run), size, t, k, u, l, c);
      assert m.log[..c + 1] == m.log[..m.commitIndex + 1][..c + 1] == HistoryOf(size, run).reigns[u].log[..c + 1];
    }
  }

  /** The logs behind two commits agree as far as both commits go. */
  lemma CoveredAgree(h: History, size: nat, t: int, k: int, u: int, l: int, c: int)
    requires HistoryOk(h, size) && BallotsKeep(h, t, k) && BallotsKeep(h, u, l)
    requires (t, k) in h.commits && OwnEntry(h, t, k) && (u, l) in h.commits && OwnEntry(h, u, l) && 0 <= c <= k
             && c <= l
    ensures h.reigns[t].log[..c + 1] == h.reigns[u].log[..c + 1]
  {
    if t < u {
      LaterHas(h, size, t, k, u, c);
    } else if u < t {
      LaterHas(h, size, u, l, t, c);
    }
  }

  lemma LaterHas(h: History, size: nat, t: int, k: int, u: int, c: int)
    requires HistoryOk(h, size) && BallotsKeep(h, t, k) && (t, k) in h.commits && OwnEntry(h, t, k)
    requires u in h.reigns && t < u && 0 <= c <= k
    ensures c < |h.reigns[u].log| && h.reigns[t].log[..c + 1] == h.reigns[u].log[..c + 1]
  {
    Completeness(h, size, t, k, u);
    var r := h.reigns[u];
    assert ReignOk(h, size, u);
    assert r.log[..c + 1] == r.log[..|r.start|][..c + 1] == r.start[..k + 1][..c + 1];
    assert h.reigns[t].log[..c + 1] == h.reigns[t].log[..k + 1][..c + 1];
  }

  // ---------------------------------------------------------------- runs in order

  lemma InOrderPrefix(size: nat, run: seq<Step>, k: nat)
    requires InOrder(size, run) && k <= |run|
    ensures InOrder(size, run[..k])
  {
    forall p: nat, q: nat | p < q < k && Accepts(size, run[..k], p) && Accepts(size, run[..k], q)
      && run[..k][p].m.dst == run[..k][q].m.dst && run[..k][p].m.append.term == run[..k][q].m.append.term
      ensures Reach(run[..k][p].m.append) <= Reach(run[..k][q].m.append)
    {
      assert run[..k][..p] == run[..p] && run[..k][..q] == run[..q];
      assert Accepts(size, run, p) && Accepts(size, run, q);
    }
  }

  /** In a run in order, an accepted last step is in order in the sense of the history. */
  lemma InOrderStep(size: nat, run: seq<Step>)
    requires run != [] && InOrder(size, run) && Accepts(size, run, |run| - 1)
    ensures var before, s := run[..|run| - 1], run[|run| - 1];
            InOrderFor(HistoryOf(size, before), s.m.dst, s.m.append)
  {
    var q, s := |run| - 1, run[|run| - 1];
    var before := run[..q];
    var h, n := HistoryOf(size, before), Exec(size, before).nodes[Actor(s)];
    Reachable(size, before);
    assert NodeOk(h, size, Actor(s), n);
    if (s.m.append.term, n.me) in h.accepted {
      assert MessageOk(h, size, s.m);
      var p := AcceptedWhen(size, before, s.m.append.term, n.me);
      assert before[..p] == run[..p];
      assert Accepts(size, run, p) && Accepts(size, run, q);
    }
  }

  lemma InOrderKeepsCommits(size: nat, run: seq<Step>)
    requires InOrder(size, run)
    ensures CommitsKept(size, run)
  {
    hide InOrder, EntryKept, CommitsAt, Exec;
    forall p: nat, i: nat | p < |run| && i < size && CommitsAt(size, run, p, i)
      ensures EntryKept(size, run, At(size, run, p + 1, i).term, At(size, run, p + 1, i).commitIndex)
    {
      InOrderKeepsEntry(size, run, At(size, run, p + 1, i).term, At(size, run, p + 1, i).commitIndex);
    }
  }

  /** In a run in order no accepted append stops short of a commit index. */
  lemma {:induction false} InOrderNeverShort(size: nat, run: seq<Step>)
    requires InOrder(size, run)
    ensures NeverShort(size, run)
  {
    hide InOrder, StopsShort, CommitsKept, Exec;
    if run != [] {
      var before, last := run[..|run| - 1], |run| - 1;
      InOrderPrefix(size, run, last);
      InOrderNeverShort(size, before);
      forall p: nat, i: nat | p < |run| && i < size ensures !StopsShort(size, run, p, i) {
        if p < last {
          SameMoment(size, run, last, p, i);
          assert !StopsShort(size, before, p, i);
        } else {
          LastNotShort(size, run, i);
        }
      }
    }
  }

  lemma LastNotShort(size: nat, run: seq<Step>, i: nat)
    requires run != [] && i < size && InOrder(size, run) && NeverShort(size, run[..|run| - 1])
    ensures !StopsShort(size, run, |run| - 1, i)
  {
    hide InOrder, NeverShort, CommitsKept, CommitsTracked, HistoryOf, AppendEntries;
    var before, s := run[..|run| - 1], run[|run| - 1];
    if Accepts(size, run, |run| - 1) && s.m.dst == i {
      InOrderPrefix(size, run, |run| - 1);
      InOrderKeepsCommits(size, before);
      ReachableCovered(size, before, |before|);
      KeptCommitsTracked(size, before, |before|);
      assert before[..|before|] == before;
      InOrderStep(size, run);
      PeerReady(size, before, i);
      MessageSound(size, before, s.m);
      CommitReached(HistoryOf(size, before), size, Exec(size, before).nodes[i], s.m.append);
    }
  }

  /**
   In a run in order, committed logs agree as far as both commit indexes go, and none exceeds its peer's last index.
   */
  lemma CommitAgreement(size: nat, run: seq<Step>, p: nat, i: nat, q: nat, j: nat)
    requires InOrder(size, run) && p <= |run| && q <= |run| && i < size && j < size
    requires At(size, run, p, i).commitIndex <= At(size, run, q, j).commitIndex
    ensures At(size, run, q, j).commitIndex <= LastIndex(At(size, run, q, j))
    ensures Agree(At(size, run, p, i).log, At(size, run, q, j).log, At(size, run, p, i).commitIndex)
  {
    hide Exec, InOrder, CommitsKept, NeverShort;
    InOrderKeepsCommits(size, run);
    InOrderNeverShort(size, run);
    CommitsAgree(size, run, p, i, q, j);
  }

  /** In a run in order, a commit index goes back only at a restart. */
  lemma CommitIndexMonotone(size: nat, run: seq<Step>, p: nat, i: nat)
    requires InOrder(size, run) && p < |run| && i < size && run[p] != Restart(i)
    ensures At(size, run, p, i).commitIndex <= At(size, run, p + 1, i).commitIndex
  {
    hide At, Exec, InOrder, StopsShort;
    InOrderNeverShort(size, run);
    assert !StopsShort(size, run, p, i);
    CommitIndexFallsIff(size, run, p, i);
  }
}
