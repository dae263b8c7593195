/**
 What keeps one acknowledged entry in place. An entry that the leader of term `t` created at index `k` stays with every
 peer that acknowledged it, until a later leader without it overwrites it, as long as none of those peers accepts an
 append of term `t` that stops short of `k`. Then every later leader of a committed entry takes office with it.
 */
module RaftKeeps {
  import opened RaftNode
  import opened RaftCluster
  import opened RaftHistory
  import opened RaftInvariant

  /** Index `k` holds an entry that the leader of term `t` created itself. */
  ghost predicate OwnEntry(h: History, t: int, k: int) {
    t in h.reigns && 1 <= k < |h.reigns[t].log| && h.reigns[t].log[k].term == t
  }

  /** The log agrees with the log of the leader of term `t` through index `k`. */
  ghost predicate Contains(h: History, log: seq<Entry>, t: int, k: int)
    requires t in h.reigns && 0 <= k < |h.reigns[t].log|
  {
    k < |log| && log[..k + 1] == h.reigns[t].log[..k + 1]
  }

  /** The leader of term `w` took office without the entry. */
  ghost predicate Lacks(h: History, w: int, t: int, k: int)
    requires t in h.reigns && 0 <= k < |h.reigns[t].log|
  {
    w in h.reigns && t < w && !Contains(h, h.reigns[w].start, t, k)
  }

  /** The log has the entry, unless some leader after `t`, up to term `hi`, took office without it. */
  ghost predicate Kept(h: History, log: seq<Entry>, t: int, k: int, hi: int)
    requires t in h.reigns && 0 <= k < |h.reigns[t].log|
  {
    Contains(h, log, t, k) || exists w :: w <= hi && Lacks(h, w, t, k)
  }

  /** The peer still has the entry if it acknowledged it to the leader that created it. */
  ghost predicate NodeKeeps(h: History, v: nat, n: Node, t: int, k: int) {
    Holds(h, t, v, k) && OwnEntry(h, t, k) ==> Kept(h, n.log, t, k, n.term)
  }

  /** A voter had the entry, when it voted, if it acknowledged it before; asked only of the votes that elected. */
  ghost predicate BallotKeeps(h: History, u: int, v: nat, t: int, k: int)
    requires (u, v) in h.ballots
  {
    (u in h.reigns ==> v in h.reigns[u].voters) ==>
      t < u && Holds(h, t, v, k) && OwnEntry(h, t, k) ==> Kept(h, h.ballots[(u, v)].log, t, k, u - 1)
  }

  ghost predicate BallotsKeep(h: History, t: int, k: int) {
    forall u, v {:trigger BallotKeeps(h, u, v, t, k)} :: (u, v) in h.ballots ==> BallotKeeps(h, u, v, t, k)
  }

  /** No peer, and no vote that elected, has lost the entry. */
  ghost predicate Tracked(h: History, c: Cluster, t: int, k: int) {
    (forall i: nat :: i < |c.nodes| ==> NodeKeeps(h, i, c.nodes[i], t, k)) && BallotsKeep(h, t, k)
  }

  // ---------------------------------------------------------------- Leader Completeness, on a history

  /** A log that ends at least as up to date as one with the entry has the entry too. */
  lemma UpToDateContains(h: History, size: nat, mine: seq<Entry>, theirs: seq<Entry>, t: int, k: int)
    requires HistoryOk(h, size) && Backed(h, mine) && Backed(h, theirs) && OwnEntry(h, t, k)
    requires Contains(h, theirs, t, k)
    requires AtLeastAsUpToDate(|mine| - 1, LastTerm(mine), |theirs| - 1, LastTerm(theirs))
    requires LastTerm(mine) in h.reigns && t < LastTerm(mine) ==> Contains(h, h.reigns[LastTerm(mine)].start, t, k)
    ensures Contains(h, mine, t, k)
  {
    assert theirs[k] == theirs[..k + 1][k] == h.reigns[t].log[k];
    BackedTerms(h, size, theirs, k, |theirs| - 1);
    assert ReignOk(h, size, t);
    var s, last := LastTerm(mine), |mine| - 1;
    assert mine[0] == SENTINEL;
    assert BackedAt(h, mine, last);
    assert mine[..last + 1] == mine;
    if s == LastTerm(theirs) {
      Matching(h, size, theirs, mine[..|theirs|], |theirs| - 1) by { SameTerm(h, size, mine, theirs); }
      assert theirs[..|theirs|] == theirs;
      assert mine[..k + 1] == mine[..|theirs|][..k + 1] == theirs[..k + 1];
    } else {
      var r := h.reigns[s];
      assert ReignOk(h, size, s);
      assert r.log[last] == mine[last];
      assert mine[..k + 1] == r.log[..k + 1] == r.log[..|r.start|][..k + 1] == r.start[..k + 1];
    }
  }

  /** Two backed logs ending in the same term agree as far as the shorter goes. */
  lemma SameTerm(h: History, size: nat, longer: seq<Entry>, shorter: seq<Entry>)
    requires HistoryOk(h, size) && Backed(h, longer) && Backed(h, shorter) && |shorter| <= |longer|
    requires LastTerm(longer) == LastTerm(shorter)
    ensures Backed(h, longer[..|shorter|]) && LastTerm(longer[..|shorter|]) == LastTerm(shorter)
  {
    BackedPrefix(h, longer, |shorter|);
    if |shorter| > 1 {
      assert BackedAt(h, longer, |longer| - 1) && BackedAt(h, shorter, |shorter| - 1);
      var L := h.reigns[LastTerm(shorter)].log;
      assert longer[|shorter| - 1] == longer[..|longer| - 1 + 1][|shorter| - 1] == L[|shorter| - 1];
      assert shorter[|shorter| - 1] == shorter[..|shorter| - 1 + 1][|shorter| - 1] == L[|shorter| - 1];
    }
  }

  /** Leader Completeness: whoever leads a later term took office with the committed entry. */
  lemma {:induction false} Completeness(h: History, size: nat, t: int, k: int, u: int)
    requires HistoryOk(h, size) && BallotsKeep(h, t, k)
    requires (t, k) in h.commits && OwnEntry(h, t, k) && u in h.reigns && t < u
    ensures Contains(h, h.reigns[u].start, t, k)
    decreases u
  {
    assert CommitOk(h, size, t, k) && ReignOk(h, size, u) && ReignOk(h, size, t);
    var r := h.reigns[u];
    var v := QuorumsMeet(size, h.commits[(t, k)], r.voters);
    var theirs := h.ballots[(u, v)].log;
    assert BallotOk(h, size, u, v) && BallotKeeps(h, u, v, t, k);
    assert Holds(h, t, v, k) && Kept(h, theirs, t, k, u - 1);
    if !Contains(h, theirs, t, k) {
      var w :| w <= u - 1 && Lacks(h, w, t, k);
      Completeness(h, size, t, k, w);
      assert false;
    }
    var s := LastTerm(r.start);
    if s in h.reigns && t < s {
      assert s <= u - 1;
      Completeness(h, size, t, k, s);
    }
    UpToDateContains(h, size, r.start, theirs, t, k);
  }

  // ---------------------------------------------------------------- what a growing history keeps

  lemma PrefixStays(h: History, h': History, a: nat, t: int, c: int)
    requires Grows(h, h', a) && t in h.reigns && 0 <= c < |h.reigns[t].log|
    ensures t in h'.reigns && c < |h'.reigns[t].log|
    ensures h'.reigns[t].log[..c + 1] == h.reigns[t].log[..c + 1] && h'.reigns[t].log[c] == h.reigns[t].log[c]
  {
    assert ReignGrows(h.reigns[t], h'.reigns[t], a);
    assert h'.reigns[t].log[..c + 1] == h'.reigns[t].log[..|h.reigns[t].log|][..c + 1];
    assert h'.reigns[t].log[c] == h'.reigns[t].log[..c + 1][c];
  }

  lemma KeptStays(h: History, h': History, a: nat, log: seq<Entry>, t: int, k: int, hi: int, hi': int)
    requires Grows(h, h', a) && OwnEntry(h, t, k) && Kept(h, log, t, k, hi) && hi <= hi'
    ensures OwnEntry(h', t, k) && Kept(h', log, t, k, hi')
  {
    PrefixStays(h, h', a, t, k);
    if !Contains(h, log, t, k) {
      var w :| w <= hi && Lacks(h, w, t, k);
      assert ReignGrows(h.reigns[w], h'.reigns[w], a);
      assert Lacks(h', w, t, k);
    }
  }

  /** What a peer held before, it held of an entry that existed before. */
  lemma HeldBefore(h: History, h': History, a: nat, size: nat, t: int, v: nat, k: int)
    requires HistoryOk(h, size) && Grows(h, h', a) && (t, v) in h.accepted && h'.accepted[(t, v)] == h.accepted[(t, v)]
    requires Holds(h', t, v, k) && OwnEntry(h', t, k)
    ensures Holds(h, t, v, k) && OwnEntry(h, t, k)
  {
    PrefixStays(h, h', a, t, k);
  }

  lemma OtherKeeps(h: History, h': History, a: nat, size: nat, v: nat, n: Node, t: int, k: int)
    requires HistoryOk(h, size) && Grows(h, h', a) && v != a && NodeKeeps(h, v, n, t, k)
    ensures NodeKeeps(h', v, n, t, k)
  {
    if Holds(h', t, v, k) && OwnEntry(h', t, k) {
      assert (t, v).1 != a;
      HeldBefore(h, h', a, size, t, v, k);
      KeptStays(h, h', a, n.log, t, k, n.term, n.term);
    }
  }

  /** Only what the actor accepts in its own, possibly new, term changes. */
  ghost predicate AcceptsOnlyIn(h: History, h': History, a: nat, term: int) {
    forall t :: (t, a) in h'.accepted && t != term ==> (t, a) in h.accepted && h'.accepted[(t, a)] == h.accepted[(t, a)]
  }

  lemma OldBallotKeeps(h: History, h': History, a: nat, size: nat, term: int, u: int, v: nat, t: int, k: int)
    requires HistoryOk(h, size) && Grows(h, h', a) && AcceptsOnlyIn(h, h', a, term)
    requires (u, v) in h.ballots && (v == a ==> u <= term) && BallotKeeps(h, u, v, t, k)
    ensures BallotKeeps(h', u, v, t, k)
  {
    if (u in h'.reigns ==> v in h'.reigns[u].voters) && t < u && Holds(h', t, v, k) && OwnEntry(h', t, k) {
      assert u in h.reigns ==> ReignGrows(h.reigns[u], h'.reigns[u], a);
      assert v != a ==> (t, v).1 != a;
      HeldBefore(h, h', a, size, t, v, k);
      KeptStays(h, h', a, h.ballots[(u, v)].log, t, k, u - 1, u - 1);
    }
  }

  lemma VotersVoted(h: History, size: nat, u: int, v: nat)
    requires HistoryOk(h, size) && u in h.reigns && v in h.reigns[u].voters
    ensures (u, v) in h.ballots
  {
    assert ReignOk(h, size, u);
  }

  /** A vote cast with the peer's present log, in its present or a newer term. */
  lemma NewBallotKeeps(h: History, h': History, a: nat, size: nat, n: Node, u: int, t: int, k: int)
    requires HistoryOk(h, size) && Grows(h, h', a) && NodeKeeps(h, a, n, t, k) && h'.accepted == h.accepted
             && h'.reigns == h.reigns
    requires n.term <= u && (u, a) !in h.ballots && (u, a) in h'.ballots && h'.ballots[(u, a)].log == n.log
    ensures BallotKeeps(h', u, a, t, k)
  {
    if (u in h'.reigns ==> a in h'.reigns[u].voters) && t < u && Holds(h', t, a, k) && OwnEntry(h', t, k) {
      assert Holds(h, t, a, k) && OwnEntry(h, t, k);
      KeptStays(h, h', a, n.log, t, k, n.term, n.term);
      if !Contains(h', n.log, t, k) {
        var w :| w <= n.term && Lacks(h', w, t, k);
        if w == u { VotersVoted(h, size, u, a); }
        assert w <= u - 1;
      }
    }
  }

  // ---------------------------------------------------------------- one step of one peer

  /** A step that leaves the log and the acknowledgements alone. */
  lemma QuietKeeps(h: History, h': History, size: nat, n: Node, n': Node, t: int, k: int)
    requires HistoryOk(h, size) && Grows(h, h', n.me) && h'.accepted == h.accepted
    requires n'.log == n.log && n.term <= n'.term && NodeKeeps(h, n.me, n, t, k)
    ensures NodeKeeps(h', n.me, n', t, k)
  {
    if Holds(h', t, n.me, k) && OwnEntry(h', t, k) {
      HeldBefore(h, h', n.me, size, t, n.me, k);
      KeptStays(h, h', n.me, n.log, t, k, n.term, n'.term);
    }
  }

  lemma OfficeKeeps(h: History, size: nat, n: Node, s: Step, t: int, k: int)
    requires Ready(h, size, n) && n.won && n.role == Candidate && s.Promote? && NodeKeeps(h, n.me, n, t, k)
    ensures NodeKeeps(Record(h, n, s, TakeOffice(n)), n.me, TakeOffice(n), t, k)
  {
    var n' := TakeOffice(n);
    var h' := Record(h, n, s, n');
    OfficeOk(h, size, n, s);
    FirstOfTerm(h, size, n);
    assert ReignOk(h', size, n.term);
    if Holds(h', t, n.me, k) && OwnEntry(h', t, k) {
      assert t != n.term;
      HeldBefore(h, h', n.me, size, t, n.me, k);
      KeptStays(h, h', n.me, n.log, t, k, n.term, n'.term);
    }
  }

  lemma StartKeeps(h: History, size: nat, n: Node, s: Step, t: int, k: int)
    requires Ready(h, size, n) && n.role == Leader && s.Submit? && NodeKeeps(h, n.me, n, t, k)
    ensures NodeKeeps(Record(h, n, s, Start(n, s.command).0), n.me, Start(n, s.command).0, t, k)
  {
    var n' := Start(n, s.command).0;
    var h' := Record(h, n, s, n');
    StartOk(h, size, n, s);
    if Holds(h', t, n.me, k) && OwnEntry(h', t, k) && t != n.term {
      HeldBefore(h, h', n.me, size, t, n.me, k);
      KeptStays(h, h', n.me, n.log, t, k, n.term, n'.term);
      assert Contains(h', n.log, t, k) ==> n'.log[..k + 1] == n.log[..k + 1];
    }
  }

  /** The append does not stop short of an entry of its term that the peer has acknowledged. */
  ghost predicate Covering(h: History, v: nat, a: AppendArgs, t: int, k: int) {
    a.term == t && Holds(h, t, v, k) ==> k <= Reach(a)
  }

  lemma AcceptKeeps(h: History, size: nat, n: Node, a: AppendArgs, t: int, k: int)
    requires Ready(h, size, n) && AppendOk(h, size, n.me, a) && a.term == n.term && AppendEntries(n, a).1.success
    requires NodeKeeps(h, n.me, n, t, k) && Covering(h, n.me, a, t, k)
    ensures NodeKeeps(Acknowledge(h, n.term, n.me, Reach(a)), n.me, AppendEntries(n, a).0, t, k)
  {
    var n' := AppendEntries(n, a).0;
    var h' := Acknowledge(h, n.term, n.me, Reach(a));
    var r := h.reigns[n.term];
    AcceptedLog(h, size, n, a);
    AcceptShape(n, a);
    assert ReignOk(h, size, n.term);
    if Holds(h', t, n.me, k) && OwnEntry(h', t, k) {
      if t == n.term {
        assert n'.log[..k + 1] == r.log[..k + 1];
      } else if Contains(h, r.start, t, k) {
        assert n'.log[..k + 1] == r.log[..k + 1] == r.log[..|r.start|][..k + 1] == r.start[..k + 1];
      } else {
        assert Holds(h, t, n.me, k) && t < n.term;
        assert Lacks(h', n.term, t, k);
      }
    }
  }

  lemma DeliveryKeeps(h: History, size: nat, n: Node, a: AppendArgs, h': History, t: int, k: int)
    requires Ready(h, size, n) && AppendOk(h, size, n.me, a) && NodeKeeps(h, n.me, n, t, k)
    requires AppendEntries(n, a).1.success ==> Covering(h, n.me, a, t, k)
    requires h' == if AppendEntries(n, a).1.success then Acknowledge(h, a.term, n.me, Reach(a)) else h
    ensures NodeKeeps(h', n.me, AppendEntries(n, a).0, t, k)
  {
    hide HistoryOk, AppendEntries, NodeKeeps;
    if a.term > n.term {
      var f := Persist(ToFollower(n, a.term));
      RaiseThenAppend(n, a);
      StepDownOk(h, size, n, a.term);
      QuietKeeps(h, h, size, n, f, t, k);
      OwnTermKeeps(h, size, f, a, h', t, k);
    } else if a.term == n.term {
      OwnTermKeeps(h, size, n, a, h', t, k);
    } else {
      StaleAppend(n, a);
    }
  }

  lemma StaleAppend(n: Node, a: AppendArgs)
    requires WellFormed(n) && a.term < n.term
    ensures AppendEntries(n, a).0 == n && !AppendEntries(n, a).1.success
  {
  }

  lemma OwnTermKeeps(h: History, size: nat, n: Node, a: AppendArgs, h': History, t: int, k: int)
    requires Ready(h, size, n) && AppendOk(h, size, n.me, a) && NodeKeeps(h, n.me, n, t, k) && a.term == n.term
    requires AppendEntries(n, a).1.success ==> Covering(h, n.me, a, t, k)
    requires h' == if AppendEntries(n, a).1.success then Acknowledge(h, a.term, n.me, Reach(a)) else h
    ensures NodeKeeps(h', n.me, AppendEntries(n, a).0, t, k)
  {
    hide HistoryOk, AppendEntries, NodeKeeps;
    if AppendEntries(n, a).1.success {
      AcceptKeeps(h, size, n, a, t, k);
    } else {
      RejectOk(h, size, n, a);
    }
  }

  predicate Replicates(s: Step) {
    s.Promote? || s.Submit? || s.DeliverAppendRequest? || s.DeliverAppendResponse?
  }

  lemma OtherSteps(h: History, size: nat, n: Node, s: Step)
    requires Ready(h, size, n) && Fires(h, size, n, s) && !Replicates(s)
    ensures var n' := Act(n, s).0;
            && n'.log == n.log && n.term <= n'.term && n'.commitIndex == (if s.Restart? then 0 else n.commitIndex)
            && Record(h, n, s, n').accepted == h.accepted
  {
  }

  /** Step `s` of peer `n`, if it is an accepted append, does not cut the entry. */
  ghost predicate KeepStep(h: History, n: Node, s: Step, t: int, k: int)
    requires WellFormed(n)
  {
    s.DeliverAppendRequest? && s.m.AppendRequest? && AppendEntries(n, s.m.append).1.success ==>
      Covering(h, n.me, s.m.append, t, k)
  }

  ghost predicate FiresKeeping(h: History, size: nat, n: Node, s: Step, t: int, k: int) {
    && Ready(h, size, n) && Fires(h, size, n, s)
    && NodeKeeps(h, n.me, n, t, k) && BallotsKeep(h, t, k) && KeepStep(h, n, s, t, k)
  }

  lemma PeerStepKeeps(h: History, size: nat, n: Node, s: Step, t: int, k: int)
    requires FiresKeeping(h, size, n, s, t, k)
    ensures NodeKeeps(Record(h, n, s, Act(n, s).0), n.me, Act(n, s).0, t, k)
  {
    var n' := Act(n, s).0;
    var h' := Record(h, n, s, n');
    PeerStepOk(h, size, n, s);
    if s.Promote? && n.role == Candidate {
      OfficeKeeps(h, size, n, s, t, k);
    } else if s.Submit? && n.role == Leader {
      StartKeeps(h, size, n, s, t, k);
    } else if s.DeliverAppendRequest? {
      AppendTerm(n, s.m.append);
      DeliveryKeeps(h, size, n, s.m.append, h', t, k);
    } else {
      LogStays(h, size, n, s);
      QuietKeeps(h, h', size, n, n', t, k);
    }
  }

  lemma LogStays(h: History, size: nat, n: Node, s: Step)
    requires Ready(h, size, n) && Fires(h, size, n, s) && !s.DeliverAppendRequest?
    requires !(s.Promote? && n.role == Candidate) && !(s.Submit? && n.role == Leader)
    ensures var n' := Act(n, s).0;
            n'.log == n.log && n.term <= n'.term && Record(h, n, s, n').accepted == h.accepted
  {
    hide CommitScan, Progress, HistoryOk;
    if !Replicates(s) { OtherSteps(h, size, n, s); }
  }

  lemma RecordAccepts(h: History, size: nat, n: Node, s: Step)
    requires Ready(h, size, n) && Fires(h, size, n, s)
    ensures AcceptsOnlyIn(h, Record(h, n, s, Act(n, s).0), n.me, Act(n, s).0.term)
    ensures n.term <= Act(n, s).0.term
  {
    match s {
      case DeliverAppendRequest(m) => AppendRaises(n, m.append);
      case DeliverAppendResponse(m) =>
      case _ =>
    }
  }

  lemma AppendRaises(n: Node, a: AppendArgs)
    requires WellFormed(n)
    ensures AppendEntries(n, a).0.term == if a.term < n.term then n.term else a.term
  {
  }

  lemma RecordVotes(h: History, size: nat, n: Node, s: Step, u: int)
    requires Ready(h, size, n) && Fires(h, size, n, s)
    requires (u, n.me) in Record(h, n, s, Act(n, s).0).ballots && (u, n.me) !in h.ballots
    ensures var h' := Record(h, n, s, Act(n, s).0);
            h'.accepted == h.accepted && h'.reigns == h.reigns && n.term <= u && h'.ballots[(u, n.me)].log == n.log
  {
  }

  lemma BallotsStay(h: History, size: nat, n: Node, s: Step, t: int, k: int)
    requires FiresKeeping(h, size, n, s, t, k)
    ensures BallotsKeep(Record(h, n, s, Act(n, s).0), t, k)
  {
    var n' := Act(n, s).0;
    var h' := Record(h, n, s, n');
    PeerStepOk(h, size, n, s);
    RecordAccepts(h, size, n, s);
    forall u, v | (u, v) in h'.ballots ensures BallotKeeps(h', u, v, t, k) {
      if (u, v) in h.ballots {
        assert BallotKeeps(h, u, v, t, k);
        OldBallotKeeps(h, h', n.me, size, n'.term, u, v, t, k);
      } else {
        assert (u, v).1 == n.me;
        RecordVotes(h, size, n, s, u);
        NewBallotKeeps(h, h', n.me, size, n, u, t, k);
      }
    }
  }

  /** A step that does not cut the entry loses it nowhere. */
  lemma StepKeepsTracked(h: History, c: Cluster, s: Step, t: int, k: int)
    requires Inv(h, c) && Tracked(h, c, t, k) && Enabled(c, s) && KeepStep(h, c.nodes[Actor(s)], s, t, k)
    ensures Tracked(After(h, c, s), Apply(c, s), t, k)
  {
    hide NodeKeeps, BallotsKeep, KeepStep;
    var size, a := |c.nodes|, Actor(s);
    var n := c.nodes[a];
    var c', h' := Apply(c, s), After(h, c, s);
    assert NodeOk(h, size, a, n) && Fires(h, size, n, s);
    StepKeepsInv(h, c, s);
    PeerStepKeeps(h, size, n, s, t, k);
    BallotsStay(h, size, n, s, t, k);
    forall i: nat | i < size ensures NodeKeeps(h', i, c'.nodes[i], t, k) {
      if i != a { OtherKeeps(h, h', a, size, i, c.nodes[i], t, k); }
    }
  }

  lemma InitTracked(size: nat, t: int, k: int)
    ensures Tracked(EMPTY, Init(size), t, k)
  {
  }
}
