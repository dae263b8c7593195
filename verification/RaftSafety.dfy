/**
 The safety theorems of Raft, stated about runs of the cluster only. The moments of a run are its prefixes:
 `Exec(size, run[..p])` is the cluster after the first `p` steps.
 */
module RaftSafety {
  import opened RaftNode
  import opened RaftCluster
  import opened RaftHistory
  import opened RaftInvariant
  import opened RaftKeeps

  /** Peer `i` after the first `p` steps. */
  function At(size: nat, run: seq<Step>, p: nat, i: nat): Node
    requires p <= |run| && i < size
  {
    Exec(size, run[..p]).nodes[i]
  }

  // ---------------------------------------------------------------- the invariant along a run

  lemma {:induction false} Reachable(size: nat, run: seq<Step>)
    ensures Inv(HistoryOf(size, run), Exec(size, run))
  {
    if run == [] {
      InitOk(size);
    } else {
      var before, s := run[..|run| - 1], run[|run| - 1];
      Reachable(size, before);
      if Enabled(Exec(size, before), s) {
        StepKeepsInv(HistoryOf(size, before), Exec(size, before), s);
      }
    }
  }

  lemma {:induction false} PeerReady(size: nat, run: seq<Step>, i: nat)
    requires i < size
    ensures Ready(HistoryOf(size, run), size, Exec(size, run).nodes[i]) && Exec(size, run).nodes[i].me == i
  {
    Reachable(size, run);
    assert NodeOk(HistoryOf(size, run), size, i, Exec(size, run).nodes[i]);
  }

  lemma {:induction false} MessageSound(size: nat, run: seq<Step>, m: Message)
    requires m in Exec(size, run).net
    ensures MessageOk(HistoryOf(size, run), size, m)
  {
    Reachable(size, run);
  }

  /** The later history has everything the earlier one has. */
  ghost predicate Older(h: History, h': History) {
    && (forall t :: t in h.reigns ==> t in h'.reigns && ReignOlder(h.reigns[t], h'.reigns[t]))
    && (forall k :: k in h.commits ==> k in h'.commits)
  }

  ghost predicate ReignOlder(r: Reign, r': Reign) {
    r'.leader == r.leader && r'.start == r.start && IsPrefix(r.log, r'.log)
  }

  lemma {:induction false} HistoryGrows(size: nat, run: seq<Step>, p: nat)
    requires p <= |run|
    ensures Older(HistoryOf(size, run[..p]), HistoryOf(size, run))
    decreases |run| - p
  {
    if p == |run| {
      assert run[..p] == run;
    } else {
      assert run[..p + 1][..p] == run[..p];
      var h, h', h'' := HistoryOf(size, run[..p]), HistoryOf(size, run[..p + 1]), HistoryOf(size, run);
      OneStepGrows(size, run[..p + 1]);
      HistoryGrows(size, run, p + 1);
      forall t | t in h.reigns ensures t in h''.reigns && ReignOlder(h.reigns[t], h''.reigns[t]) {
        assert ReignOlder(h.reigns[t], h'.reigns[t]) && ReignOlder(h'.reigns[t], h''.reigns[t]);
        assert h''.reigns[t].log[..|h.reigns[t].log|] == h''.reigns[t].log[..|h'.reigns[t].log|][..|h.reigns[t].log|];
      }
    }
  }

  lemma {:induction false} OneStepGrows(size: nat, run: seq<Step>)
    requires run != []
    ensures Older(HistoryOf(size, run[..|run| - 1]), HistoryOf(size, run))
  {
    var before, s := run[..|run| - 1], run[|run| - 1];
    var h, h' := HistoryOf(size, before), HistoryOf(size, run);
    if Enabled(Exec(size, before), s) {
      Reachable(size, before);
      StepKeepsInv(h, Exec(size, before), s);
      forall t | t in h.reigns ensures ReignOlder(h.reigns[t], h'.reigns[t]) {
        assert ReignGrows(h.reigns[t], h'.reigns[t], Actor(s));
      }
    }
  }

  lemma OlderBacked(h: History, h': History, log: seq<Entry>)
    requires Older(h, h') && Backed(h, log)
    ensures Backed(h', log)
  {
    forall k | 1 <= k < |log| ensures BackedAt(h', log, k) {
      assert BackedAt(h, log, k);
      var r, r' := h.reigns[log[k].term], h'.reigns[log[k].term];
      assert ReignOlder(r, r');
      assert r'.log[..k + 1] == r'.log[..|r.log|][..k + 1];
    }
  }

  /** The facts about one peer at one moment, seen from the end of the run. */
  lemma PeerAt(size: nat, run: seq<Step>, p: nat, i: nat)
    requires p <= |run| && i < size
    ensures NodeOk(HistoryOf(size, run[..p]), size, i, At(size, run, p, i))
    ensures HistoryOk(HistoryOf(size, run), size)
    ensures Backed(HistoryOf(size, run), At(size, run, p, i).log)
    ensures var n := At(size, run, p, i);
            n.role == Leader ==>
              && n.term in HistoryOf(size, run).reigns
              && HistoryOf(size, run).reigns[n.term].leader == i
              && IsPrefix(n.log, HistoryOf(size, run).reigns[n.term].log)
  {
    Reachable(size, run[..p]);
    Reachable(size, run);
    HistoryGrows(size, run, p);
    var h, n := HistoryOf(size, run[..p]), At(size, run, p, i);
    assert NodeOk(h, size, i, n);
    OlderBacked(h, HistoryOf(size, run), n.log);
    if n.role == Leader {
      assert ReignOlder(h.reigns[n.term], HistoryOf(size, run).reigns[n.term]);
    }
  }

  // ---------------------------------------------------------------- theorems for every run

  /** Election Safety: no two peers ever lead the same term. */
  lemma ElectionSafety(size: nat, run: seq<Step>, p: nat, i: nat, q: nat, j: nat)
    requires p <= |run| && q <= |run| && i < size && j < size
    requires At(size, run, p, i).role == Leader && At(size, run, q, j).role == Leader
    requires At(size, run, p, i).term == At(size, run, q, j).term
    ensures i == j
  {
    PeerAt(size, run, p, i);
    PeerAt(size, run, q, j);
  }

  /** Log Matching: logs, even at different moments, that have the same term at an index are the same through it. */
  lemma LogMatching(size: nat, run: seq<Step>, p: nat, i: nat, q: nat, j: nat, k: nat)
    requires p <= |run| && q <= |run| && i < size && j < size
    requires k < |At(size, run, p, i).log| && k < |At(size, run, q, j).log|
    requires At(size, run, p, i).log[k].term == At(size, run, q, j).log[k].term
    ensures At(size, run, p, i).log[..k + 1] == At(size, run, q, j).log[..k + 1]
  {
    PeerAt(size, run, p, i);
    PeerAt(size, run, q, j);
    Matching(HistoryOf(size, run), size, At(size, run, p, i).log, At(size, run, q, j).log, k);
  }

  /** Leader Append-Only: through its term, a leader only adds to its log. */
  lemma LeaderAppendOnly(size: nat, run: seq<Step>, p: nat, q: nat, i: nat)
    requires p <= q <= |run| && i < size
    requires At(size, run, p, i).role == Leader && At(size, run, q, i).role == Leader
    requires At(size, run, p, i).term == At(size, run, q, i).term
    ensures IsPrefix(At(size, run, p, i).log, At(size, run, q, i).log)
  {
    assert run[..q][..p] == run[..p];
    PeerAt(size, run[..q], p, i);
    PeerAt(size, run, q, i);
  }

  /** What a peer has on disk is what it has in memory, so a restart loses no term, no vote and no entry. */
  lemma RestartLosesNothing(size: nat, run: seq<Step>, i: nat)
    requires i < size
    ensures var n, n' := Exec(size, run).nodes[i], Exec(size, run + [Restart(i)]).nodes[i];
            n'.role == Follower && n'.term == n.term && n'.votedFor == n.votedFor && n'.log == n.log
  {
    Reachable(size, run);
    assert NodeOk(HistoryOf(size, run), size, i, Exec(size, run).nodes[i]);
    assert (run + [Restart(i)])[..|run|] == run;
  }

  /** No run slices a log out of range: every leader can build the request for every other peer. */
  lemma {:induction false} RequestsInRange(size: nat, run: seq<Step>, i: nat, j: nat)
    requires i < size && j < size && i != j && Exec(size, run).nodes[i].role == Leader
    ensures CanSendTo(Exec(size, run).nodes[i], j)
  {
    PeerReady(size, run, i);
    BroadcastOk(HistoryOf(size, run), size, Exec(size, run).nodes[i]);
  }

  /** No run reads a log out of range: a peer that takes a reply into account can handle it. */
  lemma {:induction false} RepliesInRange(size: nat, run: seq<Step>, m: Message)
    requires m in Exec(size, run).net && m.AppendResponse? && m.dst < size
    ensures var n := Exec(size, run).nodes[m.dst];
            TakesReply(n, m.append, m.appendReply) ==>
                  CanReadReply(n, m.src, m.append) && CanProgress(n, m.src, m.append, m.appendReply)
  {
    Reachable(size, run);
    var h, n := HistoryOf(size, run), Exec(size, run).nodes[m.dst];
    assert NodeOk(h, size, m.dst, n) && MessageOk(h, size, m);
  }

  /**
   Every append request in the network was built by a leader at some moment; every reply shows its sender's log then.
   */
  lemma {:induction false} Provenance(size: nat, run: seq<Step>, m: Message) returns (p: nat)
    requires m in Exec(size, run).net
    ensures p <= |run|
    ensures m.AppendRequest? ==> m.append.leader < size && At(size, run, p, m.append.leader).role == Leader
                                 && m in AppendRequests(At(size, run, p, m.append.leader))
    ensures m.AppendResponse? ==> m.src < size && At(size, run, p, m.src).log == m.holding
  {
    hide HistoryOf, AppendEntries, RequestVote, AppendReplied;
    var before, s := run[..|run| - 1], run[|run| - 1];
    if m in Exec(size, before).net {
      p := Provenance(size, before, m);
      assert before[..p] == run[..p];
    } else {
      p := |run|;
      assert run[..p] == run;
      Reachable(size, before);
      assert NodeOk(HistoryOf(size, before), size, Actor(s), Exec(size, before).nodes[Actor(s)]);
      assert m in Act(Exec(size, before).nodes[Actor(s)], s).1;
    }
  }

  /** An accepted AppendEntries leaves the follower with exactly the log its leader had when it sent it. */
  lemma AcceptedAppendCopiesLeader(size: nat, run: seq<Step>, k: nat) returns (p: nat)
    requires k < |run| && Accepts(size, run, k)
    ensures p <= k && run[k].m.append.leader < size
    ensures var leader := At(size, run, p, run[k].m.append.leader);
            && leader.role == Leader && leader.term == run[k].m.append.term
            && run[k].m in AppendRequests(leader)
            && At(size, run, k + 1, run[k].m.dst).log == leader.log
  {
    var m, before := run[k].m, run[..k];
    var h, n := HistoryOf(size, before), Exec(size, before).nodes[m.dst];
    p := Provenance(size, before, m);
    assert before[..p] == run[..p] && run[..k + 1][..k] == before;
    Reachable(size, before);
    assert MessageOk(h, size, m) && NodeOk(h, size, m.dst, n);
    PeerAt(size, before, p, m.append.leader);
    DeliveredLog(h, size, n, m.append);
  }

  lemma DeliveredLog(h: History, size: nat, n: Node, a: AppendArgs)
    requires Ready(h, size, n) && AppendOk(h, size, n.me, a) && AppendEntries(n, a).1.success
    ensures AppendEntries(n, a).0.log == h.reigns[a.term].log[..Reach(a) + 1]
  {
    if a.term == n.term {
      AcceptedLog(h, size, n, a);
    } else {
      RaiseThenAppend(n, a);
      StepDownOk(h, size, n, a.term);
      AcceptedLog(h, size, Persist(ToFollower(n, a.term)), a);
    }
  }

  /**
   A leader that handles a reply of its own term stores for the peer the index it had, or one through which that
   peer's log, at some earlier moment, was the leader's log. An index taken from a rejection lies below every entry of
   the leader's own term, so it never counts towards a commit.
   */
  lemma MatchIndexStep(size: nat, run: seq<Step>, m: Message) returns (p: nat)
    requires m in Exec(size, run).net && m.AppendResponse? && m.dst < size
    requires var n := Exec(size, run).nodes[m.dst];
             n.role == Leader && m.append.term == n.term && m.appendReply.term == n.term
    ensures p <= |run| && m.src < size && m.src != m.dst && CanReadReply(Exec(size, run).nodes[m.dst], m.src, m.append)
    ensures var n := Exec(size, run).nodes[m.dst];
            var k := AppendReplied(n, m.src, m.append, m.appendReply).matchIndex[m.src];
            k == n.matchIndex[m.src] ||
            (&& Agree(At(size, run, p, m.src).log, n.log, k)
             && (!m.appendReply.success ==> forall c :: 0 <= c < |n.log| && n.log[c].term == n.term ==> k < c))
  {
    p := Provenance(size, run, m);
    Reachable(size, run);
    var h, n := HistoryOf(size, run), Exec(size, run).nodes[m.dst];
    assert MessageOk(h, size, m) && NodeOk(h, size, m.dst, n);
    ProgressOk(h, size, n, m);
    var k := Progress(n, m.src, m.append, m.appendReply).1;
    if k != n.matchIndex[m.src] && !m.appendReply.success {
      forall c | 0 <= c < |n.log| && n.log[c].term == n.term ensures k < c {
        if c <= k { BackedTerms(h, size, n.log, c, k); }
      }
    }
  }

  /** Both logs reach index `k` and are the same through it. */
  predicate Agree(a: seq<Entry>, b: seq<Entry>, k: int) {
    0 <= k < |a| && k < |b| && a[..k + 1] == b[..k + 1]
  }

  /**
   matchIndex is sound: whatever a leader has stored for a peer, that peer's log has agreed with the leader's so far.
   */
  lemma {:induction false} MatchIndexSound(size: nat, run: seq<Step>, i: nat, j: nat) returns (p: nat)
    requires i < size && j < size && i != j && Exec(size, run).nodes[i].role == Leader
    ensures p <= |run|
    ensures Agree(At(size, run, p, j).log, Exec(size, run).nodes[i].log, Exec(size, run).nodes[i].matchIndex[j])
  {
    if run == [] {
      assert false;
    }
    var before, s := run[..|run| - 1], run[|run| - 1];
    assert run == before + [s];
    var n, n' := Exec(size, before).nodes[i], Exec(size, run).nodes[i];
    if n.role == Leader {
      LeaderStep(size, before, i, s);
      if n'.matchIndex[j] == n.matchIndex[j] {
        p := MatchIndexSound(size, before, i, j);
        AgreeStays(At(size, before, p, j).log, n.log, n'.log, n.matchIndex[j]);
      } else {
        p := MatchIndexStep(size, before, s.m);
        AgreeStays(At(size, before, p, j).log, n.log, n'.log, n'.matchIndex[j]);
      }
      assert before[..p] == run[..p];
    } else {
      p := |run|;
      NewLeaderMatches(size, before, i, j, s);
    }
  }

  /** A new leader starts from index 0, where all logs have the same entry. */
  lemma NewLeaderMatches(size: nat, before: seq<Step>, i: nat, j: nat, s: Step)
    requires i < size && j < size && Exec(size, before).nodes[i].role != Leader
             && Exec(size, before + [s]).nodes[i].role == Leader
    ensures var run := before + [s];
            Agree(At(size, run, |run|, j).log, Exec(size, run).nodes[i].log, Exec(size, run).nodes[i].matchIndex[j])
  {
    var run := before + [s];
    var p := |run|;
    assert run[..p] == run;
    NewLeader(size, before, i, s);
    PeerAt(size, run, p, i);
    PeerAt(size, run, p, j);
    assert Exec(size, run).nodes[i].log[..1] == [SENTINEL] == At(size, run, p, j).log[..1];
  }

  lemma AgreeStays(a: seq<Entry>, b: seq<Entry>, b': seq<Entry>, k: int)
    requires Agree(a, b, k) && IsPrefix(b, b')
    ensures Agree(a, b', k)
  {
    assert b'[..k + 1] == b'[..|b|][..k + 1];
  }

  lemma {:induction false} NewLeader(size: nat, run: seq<Step>, i: nat, s: Step)
    requires i < size && Exec(size, run).nodes[i].role != Leader && Exec(size, run + [s]).nodes[i].role == Leader
    ensures forall j: nat :: j < size ==> Exec(size, run + [s]).nodes[i].matchIndex[j] == 0
  {
    assert (run + [s])[..|run|] == run;
    if s.DeliverAppendRequest? && s.m.AppendRequest? {
      AppendRole(Exec(size, run).nodes[i], s.m.append);
    }
  }

  /** What one step can do to a peer that leads before and after it. */
  lemma {:induction false} LeaderStep(size: nat, run: seq<Step>, i: nat, s: Step)
    requires i < size && Exec(size, run).nodes[i].role == Leader && Exec(size, run + [s]).nodes[i].role == Leader
    ensures var n, n' := Exec(size, run).nodes[i], Exec(size, run + [s]).nodes[i];
            && IsPrefix(n.log, n'.log)
            && (n'.matchIndex == n.matchIndex ||
                (&& s.DeliverAppendResponse? && s.m.AppendResponse? && s.m.dst == i && s.m in Exec(size, run).net
                 && s.m.append.term == n.term && s.m.appendReply.term == n.term && CanReadReply(n, s.m.src, s.m.append)
                 && n'.log == n.log
                 && n'.matchIndex
                      == n.matchIndex[s.m.src := AppendReplied(n, s.m.src, s.m.append,
                                                               s.m.appendReply).matchIndex[s.m.src]]))
  {
    assert (run + [s])[..|run|] == run;
    var h, c := HistoryOf(size, run), Exec(size, run);
    Reachable(size, run);
    assert NodeOk(h, size, i, c.nodes[i]);
    if Enabled(c, s) && Actor(s) == i {
      LeaderAct(h, size, c.nodes[i], s);
    }
  }

  lemma LeaderAct(h: History, size: nat, n: Node, s: Step)
    requires Ready(h, size, n) && Fires(h, size, n, s) && n.role == Leader && Act(n, s).0.role == Leader
    ensures var n' := Act(n, s).0;
            && IsPrefix(n.log, n'.log)
            && (n'.matchIndex == n.matchIndex ||
                (&& s.DeliverAppendResponse? && s.m.append.term == n.term && s.m.appendReply.term == n.term
                 && CanReadReply(n, s.m.src, s.m.append) && n'.log == n.log
                 && n'.matchIndex
                      == n.matchIndex[s.m.src := AppendReplied(n, s.m.src, s.m.append,
                                                               s.m.appendReply).matchIndex[s.m.src]]))
  {
    match s {
      case DeliverAppendRequest(m) => AppendRole(n, m.append);
      case DeliverAppendResponse(m) =>
      case _ =>
    }
  }

  lemma AppendRole(n: Node, a: AppendArgs)
    requires WellFormed(n)
    ensures a.term < n.term ==> AppendEntries(n, a).0 == n
    ensures a.term == n.term ==> AppendEntries(n, a).0.role == n.role
    ensures a.term > n.term ==> AppendEntries(n, a).0.role == Follower
  {
  }

  // ---------------------------------------------------------------- runs that keep a committed entry

  /** Whatever a peer accepted, it accepted at some step of the run, unless it is the leader itself. */
  lemma {:induction false} AcceptedWhen(size: nat, run: seq<Step>, t: int, v: nat) returns (p: nat)
    requires (t, v) in HistoryOf(size, run).accepted
    ensures t in HistoryOf(size, run).reigns
    ensures HistoryOf(size, run).reigns[t].leader != v ==>
              && p < |run| && Accepts(size, run, p) && run[p].m.dst == v && run[p].m.append.term == t
              && Reach(run[p].m.append) == HistoryOf(size, run).accepted[(t, v)]
  {
    var before, s := run[..|run| - 1], run[|run| - 1];
    var h, h' := HistoryOf(size, before), HistoryOf(size, run);
    Reachable(size, run);
    OneStepGrows(size, run);
    p := |run| - 1;
    if (t, v) in h.accepted {
      var q := AcceptedWhen(size, before, t, v);
      assert ReignOlder(h.reigns[t], h'.reigns[t]);
      if h.accepted[(t, v)] == h'.accepted[(t, v)] {
        p := q;
        if h.reigns[t].leader != v { assert before[..p] == run[..p]; }
      }
    }
    if h'.reigns[t].leader != v && !((t, v) in h.accepted && h.accepted[(t, v)] == h'.accepted[(t, v)]) {
      Reachable(size, before);
      assert NodeOk(h, size, Actor(s), Exec(size, before).nodes[Actor(s)]);
      FreshAcceptance(size, before, s, t, v);
    }
  }

  lemma FreshAcceptance(size: nat, run: seq<Step>, s: Step, t: int, v: nat)
    requires Enabled(Exec(size, run), s) && Inv(HistoryOf(size, run), Exec(size, run))
    requires var h, h' := HistoryOf(size, run), After(HistoryOf(size, run), Exec(size, run), s);
             && (t, v) in h'.accepted && t in h'.reigns && h'.reigns[t].leader != v
             && !((t, v) in h.accepted && h.accepted[(t, v)] == h'.accepted[(t, v)])
    ensures s.DeliverAppendRequest? && s.m.dst == v && s.m.append.term == t
    ensures AppendEntries(Exec(size, run).nodes[v], s.m.append).1.success
    ensures Reach(s.m.append) == After(HistoryOf(size, run), Exec(size, run), s).accepted[(t, v)]
  {
    var h, n := HistoryOf(size, run), Exec(size, run).nodes[Actor(s)];
    assert NodeOk(h, size, Actor(s), n);
    match s {
      case DeliverAppendRequest(m) =>
        assert MessageOk(h, size, m);
        AppendTerm(n, m.append);
      case _ =>
    }
  }

  /** Step `p` moves the commit index of the leader it acts on. */
  predicate CommitsAt(size: nat, run: seq<Step>, p: nat, i: nat)
    requires p < |run| && i < size
  {
    && run[p].DeliverAppendResponse? && Actor(run[p]) == i
    && At(size, run, p + 1, i).commitIndex != At(size, run, p, i).commitIndex
  }

  lemma CommitRecorded(size: nat, run: seq<Step>, p: nat, i: nat)
    requires p < |run| && i < size && CommitsAt(size, run, p, i)
    ensures var n := At(size, run, p + 1, i);
            && n.role == Leader && n.term == At(size, run, p, i).term
            && (n.term, n.commitIndex) in HistoryOf(size, run[..p + 1]).commits
            && OwnEntry(HistoryOf(size, run[..p + 1]), n.term, n.commitIndex)
            && n.log == HistoryOf(size, run[..p + 1]).reigns[n.term].log
  {
    var h' := HistoryOf(size, run[..p + 1]);
    assert run[..p + 1][..p] == run[..p];
    Reachable(size, run[..p]);
    Reachable(size, run[..p + 1]);
    var n := At(size, run, p, i);
    assert NodeOk(HistoryOf(size, run[..p]), size, i, n) && NodeOk(h', size, i, At(size, run, p + 1, i));
    assert CommitOk(h', size, n.term, At(size, run, p + 1, i).commitIndex);
  }

  /** No peer that acknowledged index `k` of term `t` later accepts an append of that term that stops short of it. */
  predicate EntryKept(size: nat, run: seq<Step>, t: int, k: int) {
    forall p: nat, q: nat {:trigger Accepts(size, run, p), Accepts(size, run, q)} ::
      p < q < |run| && Accepts(size, run, p) && Accepts(size, run, q) && run[p].m.dst == run[q].m.dst
      && run[p].m.append.term == t == run[q].m.append.term && k <= Reach(run[p].m.append)
      ==> k <= Reach(run[q].m.append)
  }

  lemma InOrderKeepsEntry(size: nat, run: seq<Step>, t: int, k: int)
    requires InOrder(size, run)
    ensures EntryKept(size, run, t, k)
  {
    hide Exec, AppendEntries;
  }

  lemma EntryKeptPrefix(size: nat, run: seq<Step>, m: nat, t: int, k: int)
    requires EntryKept(size, run, t, k) && m <= |run|
    ensures EntryKept(size, run[..m], t, k)
  {
    hide Exec, AppendEntries;
    forall p: nat, q: nat | p < q < m && Accepts(size, run[..m], p) && Accepts(size, run[..m], q)
      && run[..m][p].m.dst == run[..m][q].m.dst
      && run[..m][p].m.append.term == t == run[..m][q].m.append.term && k <= Reach(run[..m][p].m.append)
      ensures k <= Reach(run[..m][q].m.append)
    {
      assert run[..m][..p] == run[..p] && run[..m][..q] == run[..q];
      assert Accepts(size, run, p) && Accepts(size, run, q);
    }
  }

  lemma EntryKeptStep(size: nat, run: seq<Step>, t: int, k: int)
    requires run != [] && EntryKept(size, run, t, k)
    requires Enabled(Exec(size, run[..|run| - 1]), run[|run| - 1])
    ensures var before := run[..|run| - 1];
            KeepStep(HistoryOf(size, before), Exec(size, before).nodes[Actor(run[|run| - 1])], run[|run| - 1], t, k)
  {
    var q, s := |run| - 1, run[|run| - 1];
    var before := run[..q];
    var h, n := HistoryOf(size, before), Exec(size, before).nodes[Actor(s)];
    Reachable(size, before);
    assert NodeOk(h, size, Actor(s), n);
    if s.DeliverAppendRequest? && AppendEntries(n, s.m.append).1.success && s.m.append.term == t
        && Holds(h, t, n.me, k) {
      assert MessageOk(h, size, s.m);
      var p := AcceptedWhen(size, before, t, n.me);
      assert before[..p] == run[..p];
      assert Accepts(size, run, p) && Accepts(size, run, q);
    }
  }

  lemma {:induction false} ReachableTracked(size: nat, run: seq<Step>, t: int, k: int)
    requires EntryKept(size, run, t, k)
    ensures Tracked(HistoryOf(size, run), Exec(size, run), t, k)
  {
    if run == [] {
      InitTracked(size, t, k);
    } else {
      hide EntryKept, Tracked, KeepStep, Inv;
      var before, s := run[..|run| - 1], run[|run| - 1];
      EntryKeptPrefix(size, run, |run| - 1, t, k);
      ReachableTracked(size, before, t, k);
      Reachable(size, before);
      if Enabled(Exec(size, before), s) {
        EntryKeptStep(size, run, t, k);
        StepKeepsTracked(HistoryOf(size, before), Exec(size, before), s, t, k);
      }
    }
  }

  /**
   Leader Completeness: an entry that leader `i` commits by the majority rule at step `p` is in the log of every leader
   of a later term, whether that leader took office before or after the commit, if no peer that acknowledged the entry
   accepts an append of its term that stops short of it.
   */
  lemma CommittedEntryStays(size: nat, run: seq<Step>, p: nat, i: nat, q: nat, j: nat)
    requires p < |run| && q <= |run| && i < size && j < size && CommitsAt(size, run, p, i)
    requires EntryKept(size, run, At(size, run, p + 1, i).term, At(size, run, p + 1, i).commitIndex)
    requires At(size, run, q, j).role == Leader && At(size, run, p, i).term < At(size, run, q, j).term
    ensures At(size, run, p + 1, i).commitIndex < |At(size, run, p + 1, i).log|
    ensures var n := At(size, run, p + 1, i);
            0 <= n.commitIndex && IsPrefix(n.log[..n.commitIndex + 1], At(size, run, q, j).log)
  {
    hide HistoryOf, Exec, EntryKept, HistoryOk, BallotsKeep, CommitsAt;
    var n, m := At(size, run, p + 1, i), At(size, run, q, j);
    var h, t, k := HistoryOf(size, run), n.term, n.commitIndex;
    CommitRecorded(size, run, p, i);
    HistoryGrows(size, run, p + 1);
    OlderPrefix(HistoryOf(size, run[..p + 1]), h, t, k);
    Reachable(size, run);
    ReachableTracked(size, run, t, k);
    LeaderHasStart(size, run, q, j);
    StartHasCommitted(h, size, t, k, m.term, m.log);
  }

  /** In a run in order, every committed entry is in the log of every leader of a later term. */
  lemma LeaderCompleteness(size: nat, run: seq<Step>, p: nat, i: nat, q: nat, j: nat)
    requires InOrder(size, run) && p < |run| && q <= |run| && i < size && j < size
    requires CommitsAt(size, run, p, i)
    requires At(size, run, q, j).role == Leader && At(size, run, p, i).term < At(size, run, q, j).term
    ensures At(size, run, p + 1, i).commitIndex < |At(size, run, p + 1, i).log|
    ensures var n := At(size, run, p + 1, i);
            0 <= n.commitIndex && IsPrefix(n.log[..n.commitIndex + 1], At(size, run, q, j).log)
  {
    hide Exec, InOrder, EntryKept, CommitsAt;
    InOrderKeepsEntry(size, run, At(size, run, p + 1, i).term, At(size, run, p + 1, i).commitIndex);
    CommittedEntryStays(size, run, p, i, q, j);
  }

  lemma StartHasCommitted(h: History, size: nat, t: int, k: int, u: int, log: seq<Entry>)
    requires HistoryOk(h, size) && BallotsKeep(h, t, k) && (t, k) in h.commits && OwnEntry(h, t, k)
    requires u in h.reigns && t < u && IsPrefix(h.reigns[u].start, log)
    ensures IsPrefix(h.reigns[t].log[..k + 1], log)
  {
    Completeness(h, size, t, k, u);
    var start := h.reigns[u].start;
    assert log[..k + 1] == log[..|start|][..k + 1] == start[..k + 1];
  }

  lemma LeaderHasStart(size: nat, run: seq<Step>, q: nat, j: nat)
    requires q <= |run| && j < size && At(size, run, q, j).role == Leader
    ensures At(size, run, q, j).term in HistoryOf(size, run).reigns
    ensures IsPrefix(HistoryOf(size, run).reigns[At(size, run, q, j).term].start, At(size, run, q, j).log)
  {
    var h, m := HistoryOf(size, run[..q]), At(size, run, q, j);
    Reachable(size, run[..q]);
    HistoryGrows(size, run, q);
    assert NodeOk(h, size, j, m) && ReignOk(h, size, m.term);
    assert ReignOlder(h.reigns[m.term], HistoryOf(size, run).reigns[m.term]);
  }

  lemma OlderPrefix(h: History, h': History, t: int, c: int)
    requires Older(h, h') && t in h.reigns && 0 <= c < |h.reigns[t].log|
    ensures t in h'.reigns && c < |h'.reigns[t].log|
    ensures h'.reigns[t].log[..c + 1] == h.reigns[t].log[..c + 1] && h'.reigns[t].log[c] == h.reigns[t].log[c]
  {
    assert ReignOlder(h.reigns[t], h'.reigns[t]);
    assert h'.reigns[t].log[..c + 1] == h'.reigns[t].log[..|h.reigns[t].log|][..c + 1];
    assert h'.reigns[t].log[c] == h'.reigns[t].log[..c + 1][c];
  }
}
