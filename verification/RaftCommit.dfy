/**
 What holds besides while no peer accepts an append that stops short of its commit index, and no committed entry is
 lost: every commit index is covered by some leader's commit, and so is the one a leader sends.
 */
module RaftCommit {
  import opened RaftNode
  import opened RaftCluster
  import opened RaftHistory
  import opened RaftInvariant
  import opened RaftKeeps

  /** Index `c` of the log is covered by the commit at index `k` of term `t`. */
  ghost predicate Covers(h: History, t: int, k: int, log: seq<Entry>, c: int) {
    && (t, k) in h.commits && OwnEntry(h, t, k)
    && 0 <= c <= k && c < |log| && log[..c + 1] == h.reigns[t].log[..c + 1]
  }

  ghost predicate CommittedBy(h: History, v: nat, n: Node, t: int, k: int) {
    && Covers(h, t, k, n.log, n.commitIndex) && t <= n.term
    && (t == n.term ==> Holds(h, t, v, n.commitIndex))
  }

  /** A peer's commit index is covered by some leader's commit. */
  ghost predicate NodeCommitted(h: History, v: nat, n: Node) {
    n.commitIndex == 0 || exists t, k :: CommittedBy(h, v, n, t, k)
  }

  ghost predicate SentBy(h: History, a: AppendArgs, t: int, k: int) {
    && a.term in h.reigns && a.commit <= Reach(a) && t <= a.term
    && Covers(h, t, k, h.reigns[a.term].log, a.commit)
  }

  /** So is the commit index a leader sends. */
  ghost predicate CommitSent(h: History, a: AppendArgs) {
    a.commit == 0 || exists t, k :: SentBy(h, a, t, k)
  }

  /** No vote that elected was cast without a committed entry that the voter had acknowledged. */
  ghost predicate CommitsTracked(h: History) {
    forall t, k {:trigger BallotsKeep(h, t, k)} :: (t, k) in h.commits ==> BallotsKeep(h, t, k)
  }

  ghost predicate Covered(h: History, c: Cluster) {
    && (forall i: nat :: i < |c.nodes| ==> NodeCommitted(h, i, c.nodes[i]))
    && (forall m :: m in c.net && m.AppendRequest? ==> CommitSent(h, m.append))
  }

  // ---------------------------------------------------------------- what a growing history keeps

  lemma CoversStays(h: History, h': History, a: nat, t: int, k: int, log: seq<Entry>, c: int)
    requires Grows(h, h', a) && Covers(h, t, k, log, c)
    ensures Covers(h', t, k, log, c)
  {
    PrefixStays(h, h', a, t, k);
    PrefixStays(h, h', a, t, c);
  }

  lemma CommittedStays(h: History, h': History, a: nat, v: nat, n: Node)
    requires Grows(h, h', a) && NodeCommitted(h, v, n)
    ensures NodeCommitted(h', v, n)
  {
    if n.commitIndex != 0 {
      var t, k :| CommittedBy(h, v, n, t, k);
      CoversStays(h, h', a, t, k, n.log, n.commitIndex);
      assert CommittedBy(h', v, n, t, k);
    }
  }

  lemma SentStays(h: History, h': History, a: nat, args: AppendArgs)
    requires Grows(h, h', a) && CommitSent(h, args)
    ensures CommitSent(h', args)
  {
    if args.commit != 0 {
      var t, k :| SentBy(h, args, t, k);
      CoversStays(h, h', a, t, k, h.reigns[args.term].log, args.commit);
      PrefixStays(h, h', a, args.term, args.commit);
      assert SentBy(h', args, t, k);
    }
  }

  // ---------------------------------------------------------------- one step of one peer

  /** A step that leaves the log, the commit index and the acknowledgements alone. */
  lemma QuietStep(h: History, h': History, n: Node, n': Node)
    requires Grows(h, h', n.me) && h'.accepted == h.accepted
    requires n'.log == n.log && n.term <= n'.term && (n'.commitIndex == n.commitIndex || n'.commitIndex == 0)
    requires NodeCommitted(h, n.me, n)
    ensures NodeCommitted(h', n.me, n')
  {
    if n'.commitIndex != 0 {
      var t, k :| CommittedBy(h, n.me, n, t, k);
      CoversStays(h, h', n.me, t, k, n.log, n.commitIndex);
      assert CommittedBy(h', n.me, n', t, k);
    }
  }

  lemma OfficeCovered(h: History, size: nat, n: Node, s: Step)
    requires Ready(h, size, n) && n.won && n.role == Candidate && s.Promote? && NodeCommitted(h, n.me, n)
    ensures NodeCommitted(Record(h, n, s, TakeOffice(n)), n.me, TakeOffice(n))
  {
    var n' := TakeOffice(n);
    var h' := Record(h, n, s, n');
    OfficeOk(h, size, n, s);
    CommittedStays(h, h', n.me, n.me, n);
    if n'.commitIndex != 0 {
      var t, k :| CommittedBy(h', n.me, n, t, k);
      assert CommittedBy(h', n.me, n', t, k);
    }
  }

  lemma StartCovered(h: History, size: nat, n: Node, s: Step)
    requires Ready(h, size, n) && n.role == Leader && s.Submit? && NodeCommitted(h, n.me, n)
    ensures NodeCommitted(Record(h, n, s, Start(n, s.command).0), n.me, Start(n, s.command).0)
  {
    var n' := Start(n, s.command).0;
    var h' := Record(h, n, s, n');
    StartOk(h, size, n, s);
    CommittedStays(h, h', n.me, n.me, n);
    if n'.commitIndex != 0 {
      var t, k :| CommittedBy(h', n.me, n, t, k);
      assert n'.log[..n.commitIndex + 1] == n.log[..n.commitIndex + 1];
      assert CommittedBy(h', n.me, n', t, k);
    }
  }

  /** A log covered by an earlier commit stays covered when the leader's log replaces it. */
  lemma AcceptCovers(h: History, size: nat, n: Node, a: AppendArgs, t: int, k: int)
    requires Ready(h, size, n) && AppendOk(h, size, n.me, a) && a.term == n.term && BallotsKeep(h, t, k)
    requires CommittedBy(h, n.me, n, t, k) && n.commitIndex <= Reach(a)
    ensures Covers(h, t, k, h.reigns[a.term].log[..Reach(a) + 1], n.commitIndex)
  {
    var r := h.reigns[a.term];
    var c, log' := n.commitIndex, r.log[..Reach(a) + 1];
    assert ReignOk(h, size, a.term);
    if t < a.term {
      Completeness(h, size, t, k, a.term);
      assert log'[..c + 1] == r.log[..c + 1] == r.log[..|r.start|][..c + 1] == r.start[..c + 1]
             == r.start[..k + 1][..c + 1];
      assert h.reigns[t].log[..c + 1] == h.reigns[t].log[..k + 1][..c + 1];
    } else {
      assert log'[..c + 1] == r.log[..c + 1];
    }
  }

  lemma AcceptCommitted(h: History, size: nat, n: Node, a: AppendArgs)
    requires Ready(h, size, n) && AppendOk(h, size, n.me, a) && a.term == n.term && AppendEntries(n, a).1.success
    requires CommitsTracked(h) && NodeCommitted(h, n.me, n) && CommitSent(h, a) && n.commitIndex <= Reach(a)
    ensures NodeCommitted(Acknowledge(h, n.term, n.me, Reach(a)), n.me, AppendEntries(n, a).0)
  {
    hide HistoryOk, CommitsTracked, Covers, Backed, NodeCommitted, SentBy, AppendEntries;
    AcceptedLog(h, size, n, a);
    AcceptShape(n, a);
    AcknowledgeOk(h, size, n.term, n.me, Reach(a));
    if a.commit > n.commitIndex {
      ToldCommitted(h, n, a, AppendEntries(n, a).0);
    } else {
      KeptCommitted(h, size, n, a, AppendEntries(n, a).0);
    }
  }

  /** The commit index comes from the append. */
  lemma ToldCommitted(h: History, n: Node, a: AppendArgs, n': Node)
    requires WellFormed(n) && a.term in h.reigns && Grows(h, Acknowledge(h, a.term, n.me, Reach(a)), n.me)
    requires 0 <= Reach(a) < |h.reigns[a.term].log| && n'.log == h.reigns[a.term].log[..Reach(a) + 1]
    requires n'.term == a.term && 0 <= n.commitIndex < a.commit && CommitSent(h, a)
             && n'.commitIndex == Min(a.commit, |n'.log| - 1)
    ensures NodeCommitted(Acknowledge(h, a.term, n.me, Reach(a)), n.me, n')
  {
    var h' := Acknowledge(h, a.term, n.me, Reach(a));
    var t, k :| SentBy(h, a, t, k);
    assert n'.commitIndex == a.commit;
    assert n'.log[..a.commit + 1] == h.reigns[a.term].log[..a.commit + 1];
    CoversStays(h, h', n.me, t, k, n'.log, a.commit);
    assert CommittedBy(h', n.me, n', t, k);
  }

  /** The commit index stays, and so do the entries it covers. */
  lemma KeptCommitted(h: History, size: nat, n: Node, a: AppendArgs, n': Node)
    requires Ready(h, size, n) && AppendOk(h, size, n.me, a) && a.term == n.term && AppendEntries(n, a).1.success
    requires n'.log == h.reigns[a.term].log[..Reach(a) + 1] && n'.commitIndex == n.commitIndex && n'.term == n.term
    requires CommitsTracked(h) && NodeCommitted(h, n.me, n) && n.commitIndex <= Reach(a)
    requires Grows(h, Acknowledge(h, n.term, n.me, Reach(a)), n.me)
    ensures NodeCommitted(Acknowledge(h, n.term, n.me, Reach(a)), n.me, n')
  {
    hide AppendEntries, HistoryOk, Ready, AppendOk, BallotsKeep;
    var h' := Acknowledge(h, n.term, n.me, Reach(a));
    if n.commitIndex != 0 {
      var t, k :| CommittedBy(h, n.me, n, t, k);
      assert BallotsKeep(h, t, k);
      AcceptCovers(h, size, n, a, t, k);
      CoversStays(h, h', n.me, t, k, n'.log, n.commitIndex);
      assert CommittedBy(h', n.me, n', t, k);
    }
  }

  lemma AdvanceCovered(h: History, size: nat, n: Node, m: Message, h': History)
    requires Answers(h, size, n, m) && CanReadReply(n, m.src, m.append) && NodeCommitted(h, n.me, n)
    requires var c := AppendReplied(n, m.src, m.append, m.appendReply).commitIndex;
             h' == if c == n.commitIndex || (n.term, c) in h.commits then h
                   else
                     var counted := CountedFor(AppendReplied(n, m.src, m.append, m.appendReply), c);
                     h.(commits := h.commits[(n.term, c) := counted])
    ensures NodeCommitted(h', n.me, AppendReplied(n, m.src, m.append, m.appendReply))
  {
    hide HistoryOk, CommitScan, NodeCommitted;
    ProgressOk(h, size, n, m);
    var (next, mtch) := Progress(n, m.src, m.append, m.appendReply);
    var n1 := n.(nextIndex := n.nextIndex[m.src := next], matchIndex := n.matchIndex[m.src := mtch]);
    SlotOk(h, size, n, m.src, next, mtch);
    QuietStep(h, h, n, n1);
    CommitScanOk(n1, |n1.log| - 1);
    CommitMoveCovered(h, size, n1, CommitScan(n1, |n1.log| - 1), h');
  }

  lemma CommitMoveCovered(h: History, size: nat, n: Node, c: int, h': History)
    requires Ready(h, size, n) && n.role == Leader && NodeCommitted(h, n.me, n)
    requires c == n.commitIndex ||
             (n.commitIndex < c < |n.log| && n.log[c].term >= n.term && 2 * |CountedFor(n, c)| > n.peers)
    requires h' == if c == n.commitIndex || (n.term, c) in h.commits then h
             else h.(commits := h.commits[(n.term, c) := CountedFor(n, c)])
    ensures NodeCommitted(h', n.me, n.(commitIndex := c))
  {
    CommitMoveOk(h, size, n, c, h');
    QuietStep(h, h', n, n.(commitIndex := 0));
    if c == n.commitIndex {
      QuietStep(h, h', n, n);
    } else {
      assert CommittedBy(h', n.me, n.(commitIndex := c), n.term, c);
    }
  }

  lemma AcceptCovered(h: History, size: nat, n: Node, a: AppendArgs, h': History)
    requires Ready(h, size, n) && AppendOk(h, size, n.me, a) && NodeCommitted(h, n.me, n) && CommitsTracked(h)
             && CommitSent(h, a)
    requires AppendEntries(n, a).1.success ==> n.commitIndex <= Reach(a)
    requires h' == if AppendEntries(n, a).1.success then Acknowledge(h, a.term, n.me, Reach(a)) else h
    ensures NodeCommitted(h', n.me, AppendEntries(n, a).0)
  {
    if a.term > n.term {
      var f := Persist(ToFollower(n, a.term));
      RaiseThenAppend(n, a);
      StepDownOk(h, size, n, a.term);
      QuietStep(h, h, n, f);
      OwnTermCovered(h, size, f, a, h');
    } else if a.term == n.term {
      OwnTermCovered(h, size, n, a, h');
    }
  }

  lemma OwnTermCovered(h: History, size: nat, n: Node, a: AppendArgs, h': History)
    requires Ready(h, size, n) && AppendOk(h, size, n.me, a) && NodeCommitted(h, n.me, n) && CommitsTracked(h)
             && CommitSent(h, a)
    requires a.term == n.term && (AppendEntries(n, a).1.success ==> n.commitIndex <= Reach(a))
    requires h' == if AppendEntries(n, a).1.success then Acknowledge(h, a.term, n.me, Reach(a)) else h
    ensures NodeCommitted(h', n.me, AppendEntries(n, a).0)
  {
    if AppendEntries(n, a).1.success {
      AcceptCommitted(h, size, n, a);
    } else {
      RejectOk(h, size, n, a);
    }
  }

  /** Step `s` of peer `n`, if it is an accepted append, does not stop short of the commit index. */
  predicate ReachesCommit(n: Node, s: Step)
    requires WellFormed(n)
  {
    s.DeliverAppendRequest? && s.m.AppendRequest? && AppendEntries(n, s.m.append).1.success ==>
      n.commitIndex <= Reach(s.m.append)
  }

  ghost predicate FiresCovered(h: History, size: nat, n: Node, s: Step) {
    && Ready(h, size, n) && Fires(h, size, n, s)
    && NodeCommitted(h, n.me, n) && CommitsTracked(h) && ReachesCommit(n, s)
    && (s.DeliverAppendRequest? ==> CommitSent(h, s.m.append))
  }

  lemma PeerStaysCovered(h: History, size: nat, n: Node, s: Step)
    requires FiresCovered(h, size, n, s)
    ensures NodeCommitted(Record(h, n, s, Act(n, s).0), n.me, Act(n, s).0)
  {
    if !Replicates(s) {
      PeerStepOk(h, size, n, s);
      OtherSteps(h, size, n, s);
      QuietStep(h, Record(h, n, s, Act(n, s).0), n, Act(n, s).0);
    } else {
      ReplicationCovered(h, size, n, s);
    }
  }

  lemma ReplicationCovered(h: History, size: nat, n: Node, s: Step)
    requires FiresCovered(h, size, n, s) && Replicates(s)
    ensures NodeCommitted(Record(h, n, s, Act(n, s).0), n.me, Act(n, s).0)
  {
    match s {
      case Promote(_) =>
        if n.role == Candidate {
          OfficeCovered(h, size, n, s);
        } else {
          QuietStep(h, h, n, Act(n, s).0);
        }
      case Submit(_, _) => if n.role == Leader { StartCovered(h, size, n, s); }
      case DeliverAppendRequest(m) =>
        AppendTerm(n, m.append);
        AcceptCovered(h, size, n, m.append, Record(h, n, s, Act(n, s).0));
      case DeliverAppendResponse(m) => ReplyCovered(h, size, n, s);
    }
  }

  lemma ReplyCovered(h: History, size: nat, n: Node, s: Step)
    requires FiresCovered(h, size, n, s) && s.DeliverAppendResponse?
    ensures NodeCommitted(Record(h, n, s, Act(n, s).0), n.me, Act(n, s).0)
  {
    var m := s.m;
    var a, r := m.append, m.appendReply;
    if CanReadReply(n, m.src, a) && n.role == Leader && a.term >= n.term && r.term == n.term {
      AdvanceCovered(h, size, n, m, Record(h, n, s, Act(n, s).0));
    } else {
      QuietStep(h, h, n, Act(n, s).0);
    }
  }

  lemma CommitsSent(h: History, n: Node)
    requires WellFormed(n) && n.snap == 0 && n.role == Leader && n.term in h.reigns && n.log == h.reigns[n.term].log
    requires NodeCommitted(h, n.me, n)
    ensures forall m :: m in AppendRequests(n) ==> m.AppendRequest? && CommitSent(h, m.append)
  {
    forall m | m in AppendRequests(n) ensures m.AppendRequest? && CommitSent(h, m.append) {
      if n.commitIndex != 0 {
        var t, k :| CommittedBy(h, n.me, n, t, k);
        assert SentBy(h, m.append, t, k);
      }
    }
  }

  lemma SentCovered(h: History, size: nat, n: Node, s: Step)
    requires FiresCovered(h, size, n, s)
    ensures forall m :: m in Act(n, s).1 && m.AppendRequest? ==> CommitSent(Record(h, n, s, Act(n, s).0), m.append)
  {
    PeerStepOk(h, size, n, s);
    PeerStaysCovered(h, size, n, s);
    if Act(n, s).0.role == Leader {
      CommitsSent(Record(h, n, s, Act(n, s).0), Act(n, s).0);
    }
  }

  lemma StepKeepsCovered(h: History, c: Cluster, s: Step)
    requires Inv(h, c) && Covered(h, c) && CommitsTracked(h) && Enabled(c, s) && ReachesCommit(c.nodes[Actor(s)], s)
    ensures Covered(After(h, c, s), Apply(c, s))
  {
    hide HistoryOk, CommitsTracked, NodeCommitted, CommitSent;
    var size, a := |c.nodes|, Actor(s);
    var n := c.nodes[a];
    var c', h' := Apply(c, s), After(h, c, s);
    assert NodeOk(h, size, a, n) && Fires(h, size, n, s);
    StepKeepsInv(h, c, s);
    PeerStaysCovered(h, size, n, s);
    SentCovered(h, size, n, s);
    forall i: nat | i < size ensures NodeCommitted(h', i, c'.nodes[i]) {
      if i != a { CommittedStays(h, h', a, i, c.nodes[i]); }
    }
    forall m | m in c'.net && m.AppendRequest? ensures CommitSent(h', m.append) {
      if m in c.net { SentStays(h, h', a, m.append); }
    }
  }

  lemma InitCovered(size: nat)
    ensures Covered(EMPTY, Init(size))
  {
  }

  // ---------------------------------------------------------------- appends in order

  /** The append reaches at least as far as anything the peer accepted in that term before. */
  predicate InOrderFor(h: History, v: nat, a: AppendArgs) {
    (a.term, v) in h.accepted ==> h.accepted[(a.term, v)] <= Reach(a)
  }

  /** An accepted append that is in order does not stop short of the commit index. */
  lemma CommitReached(h: History, size: nat, n: Node, a: AppendArgs)
    requires Ready(h, size, n) && AppendOk(h, size, n.me, a) && AppendEntries(n, a).1.success
    requires NodeCommitted(h, n.me, n) && CommitsTracked(h) && InOrderFor(h, n.me, a)
    ensures n.commitIndex <= Reach(a)
  {
    hide HistoryOk, Backed;
    AcceptedNotOlder(n, a);
    if n.commitIndex != 0 {
      var t, k :| CommittedBy(h, n.me, n, t, k);
      if t < a.term {
        assert ReignOk(h, size, a.term) by { OneReign(h, size, a.term); }
        Completeness(h, size, t, k, a.term);
      }
    }
  }

  lemma AcceptedNotOlder(n: Node, a: AppendArgs)
    requires WellFormed(n) && AppendEntries(n, a).1.success
    ensures n.term <= a.term
  {
  }

  lemma OneReign(h: History, size: nat, t: int)
    requires HistoryOk(h, size) && t in h.reigns
    ensures ReignOk(h, size, t)
  {
  }
}
