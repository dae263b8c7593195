/**
 The invariant that holds in every reachable state, in any order of delivery: it carries Election Safety, Log
 Matching, the soundness of matchIndex, and the absence of out-of-range indexing.
 */
module RaftInvariant {
  import opened RaftNode
  import opened RaftCluster
  import opened RaftHistory

  // ---------------------------------------------------------------- logs

  /** Every entry of the log came, with everything before it, from the log of the leader of the entry's term. */
  ghost predicate Backed(h: History, log: seq<Entry>) {
    && |log| >= 1 && log[0] == SENTINEL
    && forall k {:trigger BackedAt(h, log, k)} :: 1 <= k < |log| ==> BackedAt(h, log, k)
  }

  ghost predicate BackedAt(h: History, log: seq<Entry>, k: int)
    requires 1 <= k < |log|
  {
    && log[k].term in h.reigns
    && k < |h.reigns[log[k].term].log|
    && log[..k + 1] == h.reigns[log[k].term].log[..k + 1]
  }

  ghost predicate TermsAtMost(log: seq<Entry>, t: int) {
    forall k :: 0 <= k < |log| ==> log[k].term <= t
  }

  predicate IsPrefix(a: seq<Entry>, b: seq<Entry>) {
    |a| <= |b| && b[..|a|] == a
  }

  predicate Quorum(size: nat, s: set<nat>) {
    (forall v :: v in s ==> v < size) && 2 * |s| > size
  }

  /** Peer `v` has accepted the log of the leader of term `t` through index `k`. */
  ghost predicate Holds(h: History, t: int, v: nat, k: int) {
    (t, v) in h.accepted && h.accepted[(t, v)] >= k
  }

  // ---------------------------------------------------------------- the parts of the invariant

  ghost predicate BallotOk(h: History, size: nat, t: int, v: nat)
    requires (t, v) in h.ballots
  {
    var b := h.ballots[(t, v)];
    && v < size && b.candidate < size && 1 <= t
    && Backed(h, b.log) && TermsAtMost(b.log, t)
    && (t, b.candidate) in h.ballots
    && (var own := h.ballots[(t, b.candidate)];
        && own.candidate == b.candidate
        && |own.log| >= 1
        && TermsAtMost(own.log, t - 1)
        && AtLeastAsUpToDate(|own.log| - 1, LastTerm(own.log), |b.log| - 1, LastTerm(b.log)))
  }

  ghost predicate ReignOk(h: History, size: nat, t: int)
    requires t in h.reigns
  {
    var r := h.reigns[t];
    && 1 <= t && r.leader < size
    && Quorum(size, r.voters)
    && (forall v :: v in r.voters ==> (t, v) in h.ballots && h.ballots[(t, v)].candidate == r.leader)
    && (t, r.leader) in h.ballots && r.start == h.ballots[(t, r.leader)].log
    && IsPrefix(r.start, r.log)
    && Backed(h, r.start) && TermsAtMost(r.start, t - 1)
    && (forall k :: |r.start| <= k < |r.log| ==> r.log[k].term == t)
  }

  ghost predicate CommitOk(h: History, size: nat, t: int, k: int)
    requires (t, k) in h.commits
  {
    && t in h.reigns && 1 <= k < |h.reigns[t].log| && h.reigns[t].log[k].term == t
    && Quorum(size, h.commits[(t, k)])
    && forall v :: v in h.commits[(t, k)] ==> Holds(h, t, v, k)
  }

  ghost predicate HistoryOk(h: History, size: nat) {
    && (forall t, v {:trigger BallotOk(h, size, t, v)} :: (t, v) in h.ballots ==> BallotOk(h, size, t, v))
    && (forall t {:trigger ReignOk(h, size, t)} :: t in h.reigns ==> ReignOk(h, size, t))
    && (forall t, v :: (t, v) in h.accepted ==> t in h.reigns && 0 <= h.accepted[(t, v)] < |h.reigns[t].log|)
    && (forall t, k {:trigger CommitOk(h, size, t, k)} :: (t, k) in h.commits ==> CommitOk(h, size, t, k))
  }

  /** What a leader knows about peer `j`. */
  ghost predicate MatchOk(h: History, n: Node, j: nat)
    requires WellFormed(n) && j < n.peers
  {
    && 1 <= n.nextIndex[j] <= |n.log|
    && 0 <= n.matchIndex[j] < |n.log|
    && (|| n.log[n.matchIndex[j]].term < n.term
        || Holds(h, n.term, j, n.matchIndex[j]))
  }

  /** What holds of a peer in any role. */
  ghost predicate PeerOk(h: History, size: nat, i: nat, n: Node) {
    && WellFormed(n) && n.me == i && n.peers == size && n.snap == 0
    && Recovered(n.disk) == (n.term, n.votedFor, n.log, n.snap)
    && 0 <= n.term && 0 <= n.commitIndex
    && Backed(h, n.log) && TermsAtMost(n.log, n.term)
    && (n.votedFor != -1 ==> (n.term, i) in h.ballots)
    && (forall t {:trigger (t, i) in h.ballots} :: (t, i) in h.ballots ==>
          t <= n.term && (t == n.term ==> n.votedFor == h.ballots[(t, i)].candidate))
    && (forall t {:trigger (t, i) in h.accepted} :: (t, i) in h.accepted ==> t <= n.term)
    && ((n.term, i) in h.accepted ==> n.term in h.reigns && IsPrefix(n.log, h.reigns[n.term].log))
  }

  /** What holds besides of a candidate. */
  ghost predicate CandidateOk(h: History, size: nat, i: nat, n: Node) {
    n.role == Candidate ==>
      && n.votedFor == i && (n.term, i) in h.ballots
      && n.voteCount <= |Supporters(h, n.term, i, n.answered)|
      && (forall v :: v in n.answered ==> v < size)
      && (n.term !in h.reigns ==> n.log == h.ballots[(n.term, i)].log)
      && (n.term in h.reigns ==> h.reigns[n.term].leader != i)
      && (n.won ==> 2 * n.voteCount > size)
  }

  /** What holds besides of a leader. */
  ghost predicate LeaderOk(h: History, size: nat, i: nat, n: Node)
    requires WellFormed(n)
  {
    n.role == Leader ==>
      && n.term in h.reigns && h.reigns[n.term].leader == i && n.log == h.reigns[n.term].log
      && Holds(h, n.term, i, |n.log| - 1)
      && forall j: nat {:trigger MatchOk(h, n, j)} :: j < n.peers && j != i ==> MatchOk(h, n, j)
  }

  ghost predicate NodeOk(h: History, size: nat, i: nat, n: Node) {
    PeerOk(h, size, i, n) && CandidateOk(h, size, i, n) && LeaderOk(h, size, i, n)
  }

  /** An AppendEntries carries the log of its term's leader, at some moment of the reign, to its end. */
  ghost predicate AppendOk(h: History, size: nat, dst: nat, a: AppendArgs) {
    && a.term in h.reigns
    && (var r := h.reigns[a.term];
        && r.leader == a.leader && a.leader != dst && dst < size
        && 0 <= a.prevIndex && |r.start| - 1 <= Reach(a) < |r.log|
        && a.prevTerm == r.log[a.prevIndex].term
        && a.entries == r.log[a.prevIndex + 1..Reach(a) + 1])
  }

  /** What an append reply says about the log the follower held when it replied. */
  ghost predicate ReplyOk(h: History, src: nat, a: AppendArgs, r: AppendReply, holding: seq<Entry>)
    requires a.term in h.reigns
  {
    && a.term <= r.term
    && (r.success ==>
          && r.term == a.term && r.xIndex == Reach(a) + 1
          && 0 <= Reach(a) < |h.reigns[a.term].log|
          && holding == h.reigns[a.term].log[..Reach(a) + 1]
          && Holds(h, a.term, src, Reach(a)))
    && (!r.success && r.term == a.term ==>
          && 1 <= r.xIndex <= a.prevIndex
          && Backed(h, holding)
          && (r.xTerm != -1 ==>
                && a.prevIndex < |holding| && 1 <= r.xTerm < a.term
                && forall k :: r.xIndex <= k <= a.prevIndex ==> holding[k].term == r.xTerm))
  }

  ghost predicate MessageOk(h: History, size: nat, m: Message) {
    match m
    case VoteRequest(dst, a) =>
      && (a.term, a.candidate) in h.ballots
      && (var own := h.ballots[(a.term, a.candidate)];
          && own.candidate == a.candidate && |own.log| >= 1
          && a.lastIndex == |own.log| - 1 && a.lastTerm == LastTerm(own.log))
    case VoteResponse(src, dst, a, r) =>
      && src < size && dst == a.candidate
      && (r.granted ==> (a.term, src) in h.ballots && h.ballots[(a.term, src)].candidate == dst)
    case AppendRequest(dst, a) => AppendOk(h, size, dst, a)
    case AppendResponse(src, dst, a, r, holding) =>
      AppendOk(h, size, src, a) && dst == a.leader && ReplyOk(h, src, a, r, holding)
  }

  ghost predicate Inv(h: History, c: Cluster) {
    && Shaped(c)
    && HistoryOk(h, |c.nodes|)
    && (forall i: nat :: i < |c.nodes| ==> NodeOk(h, |c.nodes|, i, c.nodes[i]))
    && (forall m :: m in c.net ==> MessageOk(h, |c.nodes|, m))
  }

  // ---------------------------------------------------------------- facts about backed logs

  lemma BackedTerms(h: History, size: nat, log: seq<Entry>, j: int, k: int)
    requires HistoryOk(h, size) && Backed(h, log) && 0 <= j <= k < |log|
    ensures log[j].term <= log[k].term
    ensures 1 <= k ==> 1 <= log[k].term
  {
    if 1 <= k {
      assert BackedAt(h, log, k);
      var r := h.reigns[log[k].term];
      assert ReignOk(h, size, log[k].term);
      assert log[j] == log[..k + 1][j] == r.log[j];
      assert j < |r.start| ==> r.log[j] == r.log[..|r.start|][j] == r.start[j];
    }
  }

  /** Log Matching, for any two backed logs. */
  lemma Matching(h: History, size: nat, a: seq<Entry>, b: seq<Entry>, k: int)
    requires HistoryOk(h, size) && Backed(h, a) && Backed(h, b)
    requires 0 <= k < |a| && k < |b| && a[k].term == b[k].term
    ensures a[..k + 1] == b[..k + 1]
  {
    if k >= 1 {
      assert BackedAt(h, a, k) && BackedAt(h, b, k);
    }
  }

  lemma ReignBacked(h: History, size: nat, t: int)
    requires HistoryOk(h, size) && t in h.reigns
    ensures Backed(h, h.reigns[t].log) && TermsAtMost(h.reigns[t].log, t)
  {
    var r := h.reigns[t];
    assert ReignOk(h, size, t);
    forall k | 0 <= k < |r.log| ensures r.log[k].term <= t && (1 <= k ==> BackedAt(h, r.log, k)) {
      if k < |r.start| {
        assert r.start[..k + 1] == r.log[..k + 1];
        assert r.start[k] == r.log[..|r.start|][k] == r.log[k];
        assert 1 <= k ==> BackedAt(h, r.start, k);
      }
    }
  }

  lemma BackedPrefix(h: History, log: seq<Entry>, k: int)
    requires Backed(h, log) && 1 <= k <= |log|
    ensures Backed(h, log[..k])
  {
    forall j | 1 <= j < k ensures BackedAt(h, log[..k], j) {
      assert BackedAt(h, log, j) && log[..k][..j + 1] == log[..j + 1];
    }
  }

  lemma SubsetSize(a: set<nat>, b: set<nat>)
    requires a <= b
    ensures |a| <= |b|
  {
    assert b == a + (b - a);
  }

  lemma {:induction false} BoundedSize(size: nat, s: set<nat>)
    requires forall v :: v in s ==> v < size
    ensures |s| <= size
  {
    if size > 0 {
      BoundedSize(size - 1, s - {size - 1});
    }
  }

  lemma QuorumsMeet(size: nat, a: set<nat>, b: set<nat>) returns (v: nat)
    requires Quorum(size, a) && Quorum(size, b)
    ensures v in a && v in b
  {
    BoundedSize(size, a + b);
    assert |a + b| == |a| + |b| - |a * b|;
    v :| v in a * b;
  }

  // ---------------------------------------------------------------- how the history grows

  /** A step of peer `a` only adds to the history, and only in peer `a`'s name. */
  ghost predicate Grows(h: History, h': History, a: nat) {
    && (forall k :: k in h.ballots ==> k in h'.ballots && h'.ballots[k] == h.ballots[k])
    && (forall k :: k in h'.ballots && k !in h.ballots ==> k.1 == a)
    && (forall t :: t in h.reigns ==> t in h'.reigns && ReignGrows(h.reigns[t], h'.reigns[t], a))
    && (forall t :: t in h'.reigns && t !in h.reigns ==> h'.reigns[t].leader == a)
    && (forall k :: k in h.accepted ==> k in h'.accepted && h.accepted[k] <= h'.accepted[k])
    && (forall k :: k in h'.accepted && k.1 != a ==> k in h.accepted && h'.accepted[k] == h.accepted[k])
    && (forall k :: k in h.commits ==> k in h'.commits && h'.commits[k] == h.commits[k])
  }

  ghost predicate ReignGrows(r: Reign, r': Reign, a: nat) {
    && r'.leader == r.leader && r'.voters == r.voters && r'.start == r.start
    && IsPrefix(r.log, r'.log)
    && (r.leader != a ==> r'.log == r.log)
  }

  lemma BackedStays(h: History, h': History, a: nat, log: seq<Entry>)
    requires Grows(h, h', a) && Backed(h, log)
    ensures Backed(h', log)
  {
    forall k | 1 <= k < |log| ensures BackedAt(h', log, k) {
      assert BackedAt(h, log, k);
      var r, r' := h.reigns[log[k].term], h'.reigns[log[k].term];
      assert ReignGrows(r, r', a);
      assert r'.log[..k + 1] == r'.log[..|r.log|][..k + 1];
    }
  }

  lemma NodeStays(h: History, h': History, a: nat, size: nat, i: nat, n: Node)
    requires Grows(h, h', a) && i != a && NodeOk(h, size, i, n)
    ensures NodeOk(h', size, i, n)
  {
    BackedStays(h, h', a, n.log);
    forall t | (t, i) in h'.ballots ensures (t, i) in h.ballots {
      assert (t, i).1 != a;
    }
    forall t | (t, i) in h'.accepted ensures (t, i) in h.accepted {
      assert (t, i).1 != a;
    }
    SubsetSize(Supporters(h, n.term, i, n.answered), Supporters(h', n.term, i, n.answered));
    if (n.term, i) in h.accepted {
      var L, L' := h.reigns[n.term].log, h'.reigns[n.term].log;
      assert ReignGrows(h.reigns[n.term], h'.reigns[n.term], a);
      assert L'[..|n.log|] == L'[..|L|][..|n.log|];
    }
    if n.role == Leader {
      forall j: nat | j < n.peers && j != i ensures MatchOk(h', n, j) {
        assert MatchOk(h, n, j);
      }
    }
  }

  lemma AppendStays(h: History, h': History, a: nat, size: nat, dst: nat, args: AppendArgs)
    requires Grows(h, h', a) && AppendOk(h, size, dst, args)
    ensures AppendOk(h', size, dst, args)
  {
    var r, r' := h.reigns[args.term], h'.reigns[args.term];
    assert ReignGrows(r, r', a);
    assert r.log == r'.log[..|r.log|];
  }

  lemma MessageStays(h: History, h': History, a: nat, size: nat, m: Message)
    requires Grows(h, h', a) && MessageOk(h, size, m)
    ensures MessageOk(h', size, m)
  {
    match m {
      case AppendRequest(dst, args) =>
        AppendStays(h, h', a, size, dst, args);
      case AppendResponse(src, dst, args, r, holding) =>
        AppendStays(h, h', a, size, src, args);
        assert ReignGrows(h.reigns[args.term], h'.reigns[args.term], a);
        assert h.reigns[args.term].log == h'.reigns[args.term].log[..|h.reigns[args.term].log|];
        if Backed(h, holding) { BackedStays(h, h', a, holding); }
      case _ =>
    }
  }

  lemma BallotStays(h: History, h': History, a: nat, size: nat, t: int, v: nat)
    requires Grows(h, h', a) && (t, v) in h.ballots && BallotOk(h, size, t, v)
    ensures BallotOk(h', size, t, v)
  {
    BackedStays(h, h', a, h.ballots[(t, v)].log);
    assert (t, h.ballots[(t, v)].candidate) in h.ballots;
  }

  lemma CommitStays(h: History, h': History, a: nat, size: nat, t: int, k: int)
    requires Grows(h, h', a) && (t, k) in h.commits && CommitOk(h, size, t, k)
    ensures CommitOk(h', size, t, k)
  {
    assert ReignGrows(h.reigns[t], h'.reigns[t], a);
    assert h'.reigns[t].log[k] == h'.reigns[t].log[..|h.reigns[t].log|][k];
  }

  lemma ReignStays(h: History, h': History, a: nat, size: nat, t: int)
    requires Grows(h, h', a) && t in h.reigns && ReignOk(h, size, t)
    requires forall k :: |h.reigns[t].log| <= k < |h'.reigns[t].log| ==> h'.reigns[t].log[k].term == t
    ensures ReignOk(h', size, t)
  {
    var r, r' := h.reigns[t], h'.reigns[t];
    assert ReignGrows(r, r', a);
    BackedStays(h, h', a, r.start);
    forall k | |r.start| <= k < |r'.log| ensures r'.log[k].term == t {
      assert k < |r.log| ==> r'.log[k] == r'.log[..|r.log|][k] == r.log[k];
    }
    assert r'.log[..|r.start|] == r'.log[..|r.log|][..|r.start|];
    forall v | v in r'.voters ensures (t, v) in h'.ballots && h'.ballots[(t, v)].candidate == r'.leader {
      assert (t, v) in h.ballots;
    }
    assert (t, r.leader) in h.ballots;
  }

  /** A history that grows soundly stays sound. */
  lemma HistoryStays(h: History, h': History, a: nat, size: nat)
    requires HistoryOk(h, size) && Grows(h, h', a)
    requires forall t, v :: (t, v) in h'.ballots && (t, v) !in h.ballots ==> BallotOk(h', size, t, v)
    requires forall t :: t in h'.reigns && t !in h.reigns ==> ReignOk(h', size, t)
    requires forall t :: t in h.reigns ==>
               forall k :: |h.reigns[t].log| <= k < |h'.reigns[t].log| ==> h'.reigns[t].log[k].term == t
    requires forall t, v :: (t, v) in h'.accepted ==> t in h'.reigns && 0 <= h'.accepted[(t, v)] < |h'.reigns[t].log|
    requires forall t, k :: (t, k) in h'.commits && (t, k) !in h.commits ==> CommitOk(h', size, t, k)
    ensures HistoryOk(h', size)
  {
    forall t, v | (t, v) in h'.ballots ensures BallotOk(h', size, t, v) {
      if (t, v) in h.ballots { BallotStays(h, h', a, size, t, v); }
    }
    forall t | t in h'.reigns ensures ReignOk(h', size, t) {
      if t in h.reigns { ReignStays(h, h', a, size, t); }
    }
    forall t, k | (t, k) in h'.commits ensures CommitOk(h', size, t, k) {
      if (t, k) in h.commits { CommitStays(h, h', a, size, t, k); }
    }
  }

  // ---------------------------------------------------------------- one step of one peer

  ghost predicate Ready(h: History, size: nat, n: Node) {
    HistoryOk(h, size) && NodeOk(h, size, n.me, n) && n.me < size
  }

  /** What a step of a peer must establish, given the history and the peer after it. */
  ghost predicate Done(h: History, h': History, size: nat, n: Node, n': Node) {
    n'.me == n.me && Grows(h, h', n.me) && Ready(h', size, n')
  }

  /** A leader keeps what it knows about the others while its log, its term and its indexes stay. */
  lemma LeaderStays(h: History, h': History, size: nat, n: Node, n': Node)
    requires Ready(h, size, n) && n.role == Leader && Grows(h, h', n.me) && WellFormed(n')
    requires n'.role == Leader && n'.term == n.term && n'.log == n.log && n'.nextIndex == n.nextIndex
             && n'.matchIndex == n.matchIndex
    requires n'.peers == n.peers && h'.reigns == h.reigns
    ensures LeaderOk(h', size, n.me, n')
  {
    forall j: nat | j < n.peers && j != n.me ensures MatchOk(h', n', j) {
      assert MatchOk(h, n, j);
    }
  }

  lemma CampaignOk(h: History, size: nat, n: Node)
    requires Ready(h, size, n) && n.role != Leader && !n.won
    ensures Done(h, h.(ballots := h.ballots[(n.term + 1, n.me) := Ballot(n.me, n.log)]), size, n, Campaign(n))
  {
    var n' := Campaign(n);
    var h' := h.(ballots := h.ballots[(n.term + 1, n.me) := Ballot(n.me, n.log)]);
    assert (n'.term, n.me) !in h.ballots;
    assert Grows(h, h', n.me);
    BackedStays(h, h', n.me, n.log);
    assert BallotOk(h', size, n'.term, n.me);
    HistoryStays(h, h', n.me, size);
    assert Supporters(h', n'.term, n.me, n'.answered) == {n.me};
    if n'.term in h.reigns {
      assert ReignOk(h, size, n'.term);
    }
  }

  lemma StepDownOk(h: History, size: nat, n: Node, term: int)
    requires Ready(h, size, n) && n.term < term
    ensures Done(h, h, size, n, Persist(ToFollower(n, term)))
  {
  }

  /** A peer that has not voted in its term votes for a campaigning candidate with an up-to-date log. */
  lemma GrantOk(h: History, size: nat, n: Node, candidate: nat)
    requires Ready(h, size, n) && n.votedFor == -1
    requires (n.term, candidate) in h.ballots && h.ballots[(n.term, candidate)].candidate == candidate
    requires var own := h.ballots[(n.term, candidate)].log;
             |own| >= 1 && AtLeastAsUpToDate(|own| - 1, LastTerm(own), |n.log| - 1, LastTerm(n.log))
    ensures Done(h, h.(ballots := h.ballots[(n.term, n.me) := Ballot(candidate, n.log)]), size, n,
                 Persist(n.(votedFor := candidate)))
  {
    var n' := Persist(n.(votedFor := candidate));
    var h' := h.(ballots := h.ballots[(n.term, n.me) := Ballot(candidate, n.log)]);
    assert BallotOk(h, size, n.term, candidate);
    assert (n.term, n.me) !in h.ballots;
    assert Grows(h, h', n.me);
    BackedStays(h, h', n.me, n.log);
    assert BallotOk(h', size, n.term, n.me);
    HistoryStays(h, h', n.me, size);
    if n.role == Leader { LeaderStays(h, h', size, n, n'); }
  }

  lemma SameOk(h: History, size: nat, n: Node, n': Node)
    requires Ready(h, size, n) && (n' == n || n' == Persist(n))
    ensures Done(h, h, size, n, n')
  {
    if n.role == Leader { LeaderStays(h, h, size, n, n'); }
  }

  /** A vote asked for in the peer's own term. */
  lemma VoteOk(h: History, size: nat, n: Node, s: Step)
    requires Ready(h, size, n) && s.DeliverVoteRequest? && s.m.VoteRequest? && MessageOk(h, size, s.m)
    requires s.m.vote.term == n.term
    ensures Done(h, Record(h, n, s, RequestVote(n, s.m.vote).0), size, n, RequestVote(n, s.m.vote).0)
  {
    if n.votedFor == -1 && RequestVote(n, s.m.vote).1.granted {
      GrantOk(h, size, n, s.m.vote.candidate);
    } else {
      SameOk(h, size, n, RequestVote(n, s.m.vote).0);
    }
  }

  lemma VoteReplyOk(h: History, size: nat, n: Node, m: Message, ticking: bool)
    requires Ready(h, size, n) && m.VoteResponse? && MessageOk(h, size, m) && m.dst == n.me
    requires n.role == Candidate && m.vote.term == n.term ==> m.src !in n.answered
    ensures Done(h, h, size, n, VoteReplied(n, m.src, m.vote, m.voteReply, ticking))
  {
    if n.role != Candidate || m.vote.term != n.term {
      SameOk(h, size, n, n);
    } else if m.voteReply.term > n.term {
      StepDownOk(h, size, n, m.voteReply.term);
    } else {
      CountedOk(h, size, n, m, ticking);
    }
  }

  /** A reply of the campaign's term counts its sender, who cast its ballot for the candidate if it granted the vote. */
  lemma CountedOk(h: History, size: nat, n: Node, m: Message, ticking: bool)
    requires Ready(h, size, n) && m.VoteResponse? && MessageOk(h, size, m) && m.dst == n.me
    requires n.role == Candidate && m.vote.term == n.term && m.src !in n.answered && m.voteReply.term <= n.term
    ensures Done(h, h, size, n, VoteReplied(n, m.src, m.vote, m.voteReply, ticking))
  {
    var n' := VoteReplied(n, m.src, m.vote, m.voteReply, ticking);
    var before := Supporters(h, n.term, n.me, n.answered);
    var after := Supporters(h, n.term, n.me, n'.answered);
    if m.voteReply.granted {
      assert after == before + {m.src};
    } else {
      SubsetSize(before, after);
    }
  }

  /** Election Safety: a candidate that acts on the win signal is the first and only leader of its term. */
  lemma FirstOfTerm(h: History, size: nat, n: Node)
    requires Ready(h, size, n) && n.won && n.role == Candidate
    ensures Quorum(size, Supporters(h, n.term, n.me, n.answered))
    ensures n.term !in h.reigns
  {
    var voters := Supporters(h, n.term, n.me, n.answered);
    if n.term in h.reigns {
      assert ReignOk(h, size, n.term);
      var v := QuorumsMeet(size, voters, h.reigns[n.term].voters);
    }
  }

  lemma OfficeOk(h: History, size: nat, n: Node, s: Step)
    requires Ready(h, size, n) && n.won && n.role == Candidate && s.Promote?
    ensures Done(h, Record(h, n, s, TakeOffice(n)), size, n, TakeOffice(n))
  {
    var n' := TakeOffice(n);
    var h' := Record(h, n, s, n');
    FirstOfTerm(h, size, n);
    assert Grows(h, h', n.me);
    BackedStays(h, h', n.me, n.log);
    assert BallotOk(h, size, n.term, n.me);
    assert ReignOk(h', size, n.term);
    HistoryStays(h, h', n.me, size);
    forall j: nat | j < size && j != n.me ensures MatchOk(h', n', j) {
      assert n.log[0] == SENTINEL;
    }
  }

  lemma BroadcastOk(h: History, size: nat, n: Node)
    requires Ready(h, size, n) && n.role == Leader
    ensures forall m :: m in AppendRequests(n) ==> MessageOk(h, size, m)
    ensures forall i: nat :: i < size && i != n.me ==> CanSendTo(n, i)
  {
    assert ReignOk(h, size, n.term);
    forall i: nat | i < size && i != n.me
      ensures CanSendTo(n, i) && MessageOk(h, size, AppendRequest(i, AppendRequestFor(n, i)))
    {
      assert MatchOk(h, n, i);
    }
  }

  lemma StartOk(h: History, size: nat, n: Node, s: Step)
    requires Ready(h, size, n) && n.role == Leader && s.Submit?
    ensures Done(h, Record(h, n, s, Start(n, s.command).0), size, n, Start(n, s.command).0)
  {
    var n' := Start(n, s.command).0;
    var h' := Record(h, n, s, n');
    assert ReignOk(h, size, n.term);
    assert n'.log[..|n.log|] == n.log;
    assert Grows(h, h', n.me);
    HistoryStays(h, h', n.me, size);
    ReignBacked(h', size, n.term);
    forall j: nat | j < size && j != n.me ensures MatchOk(h', n', j) {
      assert MatchOk(h, n, j);
    }
  }

  // ---------------------------------------------------------------- AppendEntries

  /** How an accepted AppendEntries of the peer's own term changes the peer. */
  lemma AcceptShape(n: Node, a: AppendArgs)
    requires WellFormed(n) && n.snap == 0 && a.term == n.term && AppendEntries(n, a).1.success
    requires Recovered(n.disk) == (n.term, n.votedFor, n.log, n.snap)
    ensures 0 <= a.prevIndex < |n.log| && n.log[a.prevIndex].term == a.prevTerm
    ensures AppendEntries(n, a).1 == AppendReply(n.term, |AppendEntries(n, a).0.log|, -1, true)
    ensures var n' := AppendEntries(n, a).0;
            && n' == n.(log := Spliced(n.log, a.prevIndex, a.entries), disk := n'.disk, commitIndex := n'.commitIndex)
            && Recovered(n'.disk) == (n.term, n.votedFor, n'.log, n.snap)
            && n'.commitIndex == (if a.commit > n.commitIndex then Min(a.commit, |n'.log| - 1) else n.commitIndex)
  {
    UnchangedSplice(n.log, a.prevIndex, a.entries);
  }

  lemma UnchangedSplice(log: seq<Entry>, at: int, entries: seq<Entry>)
    requires 0 <= at < |log|
    ensures var j := Agreement(log, at + 1, entries, 0);
            at + 1 + j == |log| && j == |entries| ==> Spliced(log, at, entries) == log
  {
  }

  lemma Splice(log: seq<Entry>, L: seq<Entry>, entries: seq<Entry>, p: int, j: int)
    requires 0 <= p && 0 <= j <= |entries| && p + |entries| < |L| && p + j < |log|
    requires log[..p + j + 1] == L[..p + j + 1] && entries == L[p + 1..p + |entries| + 1]
    ensures log[..p + 1 + j] + entries[j..] == L[..p + |entries| + 1]
  {
    assert entries[j..] == L[p + 1 + j..p + |entries| + 1];
  }

  /** An accepted AppendEntries leaves the follower with the leader's log, through the last entry sent. */
  lemma AcceptedLog(h: History, size: nat, n: Node, a: AppendArgs)
    requires Ready(h, size, n) && AppendOk(h, size, n.me, a) && a.term == n.term
    requires AppendEntries(n, a).1.success
    ensures AppendEntries(n, a).0.log == h.reigns[a.term].log[..Reach(a) + 1]
  {
    AcceptShape(n, a);
    ReignBacked(h, size, a.term);
    AgreedLog(h, size, n.log, h.reigns[a.term].log, a);
  }

  lemma LastAgreed(log: seq<Entry>, L: seq<Entry>, a: AppendArgs, j: int)
    requires 0 <= a.prevIndex < |log| && 0 <= Reach(a) < |L| && a.entries == L[a.prevIndex + 1..Reach(a) + 1]
    requires log[a.prevIndex].term == L[a.prevIndex].term
    requires j == Agreement(log, a.prevIndex + 1, a.entries, 0)
    ensures a.prevIndex + j < |log| && log[a.prevIndex + j].term == L[a.prevIndex + j].term
  {
    if j > 0 { assert log[a.prevIndex + 1 + (j - 1)].term == a.entries[j - 1].term; }
  }

  lemma AgreedLog(h: History, size: nat, log: seq<Entry>, L: seq<Entry>, a: AppendArgs)
    requires HistoryOk(h, size) && Backed(h, log) && Backed(h, L)
    requires 0 <= a.prevIndex < |log| && Reach(a) < |L| && log[a.prevIndex].term == L[a.prevIndex].term
    requires a.entries == L[a.prevIndex + 1..Reach(a) + 1]
    ensures Spliced(log, a.prevIndex, a.entries) == L[..Reach(a) + 1]
  {
    hide HistoryOk, Backed, Agreement;
    var j := Agreement(log, a.prevIndex + 1, a.entries, 0);
    LastAgreed(log, L, a, j);
    Matching(h, size, log, L, a.prevIndex + j);
    Splice(log, L, a.entries, a.prevIndex, j);
  }

  function Acknowledge(h: History, t: int, v: nat, k: int): History {
    h.(accepted := h.accepted[(t, v) := Max(if (t, v) in h.accepted then h.accepted[(t, v)] else 0, k)])
  }

  lemma AcknowledgeOk(h: History, size: nat, t: int, v: nat, k: int)
    requires HistoryOk(h, size) && t in h.reigns && 0 <= k < |h.reigns[t].log|
    ensures Grows(h, Acknowledge(h, t, v, k), v) && HistoryOk(Acknowledge(h, t, v, k), size)
    ensures Holds(Acknowledge(h, t, v, k), t, v, k)
  {
    var h' := Acknowledge(h, t, v, k);
    assert Grows(h, h', v);
    HistoryStays(h, h', v, size);
  }

  lemma AcceptOk(h: History, size: nat, n: Node, a: AppendArgs)
    requires Ready(h, size, n) && AppendOk(h, size, n.me, a) && a.term == n.term
    requires AppendEntries(n, a).1.success
    ensures Done(h, Acknowledge(h, n.term, n.me, Reach(a)), size, n, AppendEntries(n, a).0)
    ensures ReplyOk(Acknowledge(h, n.term, n.me, Reach(a)), n.me, a, AppendEntries(n, a).1, AppendEntries(n, a).0.log)
  {
    var n' := AppendEntries(n, a).0;
    var h' := Acknowledge(h, n.term, n.me, Reach(a));
    AcceptShape(n, a);
    AcceptedLog(h, size, n, a);
    ReignBacked(h, size, a.term);
    BackedPrefix(h, h.reigns[a.term].log, Reach(a) + 1);
    AcknowledgeOk(h, size, n.term, n.me, Reach(a));
    BackedStays(h, h', n.me, n'.log);
    assert Supporters(h', n.term, n.me, n.answered) == Supporters(h, n.term, n.me, n.answered);
  }

  lemma RejectOk(h: History, size: nat, n: Node, a: AppendArgs)
    requires Ready(h, size, n) && AppendOk(h, size, n.me, a) && a.term == n.term
    requires !AppendEntries(n, a).1.success
    ensures AppendEntries(n, a).0 == n
    ensures ReplyOk(h, n.me, a, AppendEntries(n, a).1, n.log)
  {
    var L := h.reigns[a.term].log;
    var p := a.prevIndex;
    ReignBacked(h, size, a.term);
    if p < |n.log| {
      var t := n.log[p].term;
      assert p > 0;
      BackedTerms(h, size, n.log, p, p);
      assert BackedAt(h, n.log, p);
      assert n.log[p] == n.log[..p + 1][p] == h.reigns[t].log[p];
    }
  }

  // ---------------------------------------------------------------- append replies

  /** Every index a leader stores for a peer is one through which that peer's log, when it replied, was the leader's. */
  ghost predicate MatchedAtReply(n: Node, peer: nat, m: Message)
    requires WellFormed(n) && m.AppendResponse? && CanReadReply(n, peer, m.append)
  {
    var k := Progress(n, peer, m.append, m.appendReply).1;
    && 0 <= k < |n.log| && k < |m.holding|
    && m.holding[..k + 1] == n.log[..k + 1]
  }

  /** The message answers an append of the leader's current term. */
  ghost predicate Answers(h: History, size: nat, n: Node, m: Message) {
    && Ready(h, size, n) && n.role == Leader
    && m.AppendResponse? && MessageOk(h, size, m) && m.dst == n.me
    && m.append.term == n.term && m.appendReply.term == n.term
  }

  lemma ProgressOk(h: History, size: nat, n: Node, m: Message)
    requires Answers(h, size, n, m)
    ensures m.src < size && m.src != n.me && CanReadReply(n, m.src, m.append)
    ensures var (next, mtch) := Progress(n, m.src, m.append, m.appendReply);
            MatchOk(h, n.(nextIndex := n.nextIndex[m.src := next], matchIndex := n.matchIndex[m.src := mtch]), m.src)
    ensures Progress(n, m.src, m.append, m.appendReply).1 == n.matchIndex[m.src] || MatchedAtReply(n, m.src, m)
    ensures !m.appendReply.success ==>
              var k := Progress(n, m.src, m.append, m.appendReply).1;
              k == n.matchIndex[m.src] || (0 <= k < |n.log| && n.log[k].term < n.term)
  {
    assert MatchOk(h, n, m.src);
    var a, r := m.append, m.appendReply;
    if r.success {
      assert m.holding[..Reach(a) + 1] == n.log[..Reach(a) + 1];
    } else if r.xTerm != -1 {
      var idx := FindTerm(n.log, a.prevIndex, r.xTerm);
      if idx > 0 && idx >= r.xIndex {
        assert m.holding[idx].term == r.xTerm;
        Matching(h, size, m.holding, n.log, idx);
      }
    }
  }

  lemma {:induction false} CountIsSize(n: Node, index: int, k: nat)
    requires WellFormed(n) && k <= n.peers
    ensures |set j: nat | j < k && j != n.me && n.matchIndex[j] >= index| == CountMatches(n.matchIndex, n.me, index, k)
  {
    var s := set j: nat | j < k && j != n.me && n.matchIndex[j] >= index;
    if k > 0 {
      var s0 := set j: nat | j < k - 1 && j != n.me && n.matchIndex[j] >= index;
      CountIsSize(n, index, k - 1);
      assert s == if k - 1 != n.me && n.matchIndex[k - 1] >= index then s0 + {k - 1} else s0;
    } else {
      assert s == {};
    }
  }

  /** The majority rule: a moved commit index is an index of the leader's term that a majority is known to match. */
  lemma {:induction false} CommitScanOk(n: Node, k: int)
    requires WellFormed(n) && n.snap == 0 && 0 <= n.commitIndex && -1 <= k < |n.log|
    ensures var c := CommitScan(n, k);
            c == n.commitIndex ||
            (n.commitIndex < c < |n.log| && n.log[c].term >= n.term && 2 * |CountedFor(n, c)| > n.peers)
    decreases k + 1
  {
    if !(k <= n.commitIndex || n.log[k].term < n.term) {
      CountIsSize(n, k, n.peers);
      assert CountedFor(n, k) == {n.me} + set j: nat | j < n.peers && j != n.me && n.matchIndex[j] >= k;
      if !(1 + (if n.log[k].term == n.term then CountMatches(n.matchIndex, n.me, k, n.peers) else 0) > n.peers / 2) {
        CommitScanOk(n, k - 1);
      }
    }
  }

  lemma CommitStepOk(h: History, size: nat, n: Node, c: int)
    requires Ready(h, size, n) && n.role == Leader
    requires n.commitIndex < c < |n.log| && n.log[c].term >= n.term && 2 * |CountedFor(n, c)| > n.peers
    requires (n.term, c) !in h.commits
    ensures Done(h, h.(commits := h.commits[(n.term, c) := CountedFor(n, c)]), size, n, n.(commitIndex := c))
  {
    var h' := h.(commits := h.commits[(n.term, c) := CountedFor(n, c)]);
    forall v | v in CountedFor(n, c) ensures Holds(h, n.term, v, c) {
      if v != n.me {
        assert MatchOk(h, n, v);
        BackedTerms(h, size, n.log, c, n.matchIndex[v]);
      }
    }
    assert Grows(h, h', n.me);
    assert CommitOk(h', size, n.term, c);
    HistoryStays(h, h', n.me, size);
    BackedStays(h, h', n.me, n.log);
    LeaderStays(h, h', size, n, n.(commitIndex := c));
  }

  lemma SlotOk(h: History, size: nat, n: Node, j: nat, next: int, mtch: int)
    requires Ready(h, size, n) && n.role == Leader && j < size && j != n.me
    requires MatchOk(h, n.(nextIndex := n.nextIndex[j := next], matchIndex := n.matchIndex[j := mtch]), j)
    ensures Done(h, h, size, n, n.(nextIndex := n.nextIndex[j := next], matchIndex := n.matchIndex[j := mtch]))
  {
    var n' := n.(nextIndex := n.nextIndex[j := next], matchIndex := n.matchIndex[j := mtch]);
    forall i: nat | i < size && i != n.me ensures MatchOk(h, n', i) {
      assert MatchOk(h, n, i);
    }
  }

  lemma ReplyStepOk(h: History, size: nat, n: Node, s: Step)
    requires Ready(h, size, n) && s.DeliverAppendResponse? && s.m.AppendResponse? && MessageOk(h, size, s.m)
             && s.m.dst == n.me
    ensures Done(h, Record(h, n, s, Act(n, s).0), size, n, Act(n, s).0)
  {
    var m := s.m;
    var a, r := m.append, m.appendReply;
    if !CanReadReply(n, m.src, a) || n.role != Leader || a.term < n.term || r.term < n.term {
      SameOk(h, size, n, n);
    } else if r.term > n.term {
      StepDownOk(h, size, n, r.term);
    } else {
      AdvanceOk(h, size, n, m, Record(h, n, s, Act(n, s).0));
    }
  }

  /** A leader's own-term reply: the peer's slot is updated, then the commit index may move. */
  lemma AdvanceOk(h: History, size: nat, n: Node, m: Message, h': History)
    requires Answers(h, size, n, m) && CanReadReply(n, m.src, m.append)
    requires var c := AppendReplied(n, m.src, m.append, m.appendReply).commitIndex;
             h' == if c == n.commitIndex || (n.term, c) in h.commits then h
                   else
                     var counted := CountedFor(AppendReplied(n, m.src, m.append, m.appendReply), c);
                     h.(commits := h.commits[(n.term, c) := counted])
    ensures Done(h, h', size, n, AppendReplied(n, m.src, m.append, m.appendReply))
  {
    hide CommitScan, Progress, HistoryOk;
    ProgressOk(h, size, n, m);
    var (next, mtch) := Progress(n, m.src, m.append, m.appendReply);
    var n1 := n.(nextIndex := n.nextIndex[m.src := next], matchIndex := n.matchIndex[m.src := mtch]);
    SlotOk(h, size, n, m.src, next, mtch);
    CommitScanOk(n1, |n1.log| - 1);
    CommitMoveOk(h, size, n1, CommitScan(n1, |n1.log| - 1), h');
  }

  lemma CommitMoveOk(h: History, size: nat, n: Node, c: int, h': History)
    requires Ready(h, size, n) && n.role == Leader
    requires c == n.commitIndex ||
             (n.commitIndex < c < |n.log| && n.log[c].term >= n.term && 2 * |CountedFor(n, c)| > n.peers)
    requires h' == if c == n.commitIndex || (n.term, c) in h.commits then h
             else h.(commits := h.commits[(n.term, c) := CountedFor(n, c)])
    ensures Done(h, h', size, n, n.(commitIndex := c))
  {
    if c == n.commitIndex {
      SameOk(h, size, n, n);
    } else if (n.term, c) in h.commits {
      LeaderStays(h, h, size, n, n.(commitIndex := c));
    } else {
      CommitStepOk(h, size, n, c);
    }
  }

  lemma BootOk(h: History, size: nat, n: Node)
    requires Ready(h, size, n)
    ensures Done(h, h, size, n, Boot(n.me, n.peers, n.disk))
  {
  }

  /** A handler that sees a newer term acts like one that first steps down, durably, and then serves the request. */
  lemma RaiseThenVote(n: Node, a: VoteArgs)
    requires WellFormed(n) && n.term < a.term
    ensures RequestVote(n, a) == RequestVote(Persist(ToFollower(n, a.term)), a)
  {
  }

  lemma RaiseThenAppend(n: Node, a: AppendArgs)
    requires WellFormed(n) && n.term < a.term
    ensures AppendEntries(n, a) == AppendEntries(Persist(ToFollower(n, a.term)), a)
  {
    hide Merge;
    MergeDurable(ToFollower(n, a.term), a);
  }

  lemma MergeDurable(n: Node, a: AppendArgs)
    requires WellFormed(n)
    ensures Merge(n, a, true) == Merge(Persist(n), a, false)
  {
    hide Overwrite, Spliced;
    var at := ToLogIndex(n, a.prevIndex);
    if 0 <= at < |n.log| { OverwriteDurable(n, a, at); }
  }

  lemma OverwriteDurable(n: Node, a: AppendArgs, at: int)
    requires WellFormed(n) && 0 <= at < |n.log|
    ensures Overwrite(n, a, at, true) == Overwrite(Persist(n), a, at, false)
  {
    UnchangedSplice(n.log, at, a.entries);
  }

  lemma VoteStepOk(h: History, size: nat, n: Node, s: Step)
    requires Ready(h, size, n) && s.DeliverVoteRequest? && s.m.VoteRequest? && MessageOk(h, size, s.m)
    ensures Done(h, Record(h, n, s, RequestVote(n, s.m.vote).0), size, n, RequestVote(n, s.m.vote).0)
  {
    var a := s.m.vote;
    if a.term < n.term {
      SameOk(h, size, n, n);
    } else if a.term == n.term {
      VoteOk(h, size, n, s);
    } else {
      RaiseThenVote(n, a);
      StepDownOk(h, size, n, a.term);
      VoteOk(h, size, Persist(ToFollower(n, a.term)), s);
    }
  }

  lemma AppendStepOk(h: History, size: nat, n: Node, a: AppendArgs, h': History)
    requires Ready(h, size, n) && AppendOk(h, size, n.me, a) && n.term == a.term
    requires h' == if AppendEntries(n, a).1.success then Acknowledge(h, a.term, n.me, Reach(a)) else h
    ensures Done(h, h', size, n, AppendEntries(n, a).0)
    ensures ReplyOk(h', n.me, a, AppendEntries(n, a).1, AppendEntries(n, a).0.log)
  {
    if AppendEntries(n, a).1.success {
      AcceptOk(h, size, n, a);
    } else {
      RejectOk(h, size, n, a);
      SameOk(h, size, n, n);
    }
  }

  // ---------------------------------------------------------------- every step of the cluster

  lemma Assemble(h: History, h': History, c: Cluster, a: nat, n': Node, sent: set<Message>)
    requires Inv(h, c) && a < |c.nodes| && Done(h, h', |c.nodes|, c.nodes[a], n')
    requires forall m :: m in sent ==> MessageOk(h', |c.nodes|, m)
    ensures Inv(h', Cluster(c.nodes[a := n'], c.net + sent))
  {
    var size := |c.nodes|;
    var c' := Cluster(c.nodes[a := n'], c.net + sent);
    assert NodeOk(h, size, a, c.nodes[a]);
    forall i: nat | i < size ensures NodeOk(h', size, i, c'.nodes[i]) {
      assert NodeOk(h, size, i, c.nodes[i]);
      if i != a { NodeStays(h, h', a, size, i, c.nodes[i]); }
    }
    forall m | m in c'.net ensures MessageOk(h', size, m) {
      if m in c.net { MessageStays(h, h', a, size, m); }
    }
  }

  ghost function After(h: History, c: Cluster, s: Step): History
    requires Shaped(c) && Actor(s) < |c.nodes|
  {
    Record(h, c.nodes[Actor(s)], s, Apply(c, s).nodes[Actor(s)])
  }

  /** What delivers or fires the step is sound. */
  ghost predicate Fires(h: History, size: nat, n: Node, s: Step) {
    && n.me == Actor(s)
    && match s
       case Timeout(_) => !n.won
       case Promote(_) => n.won
       case DeliverVoteRequest(m) => m.VoteRequest? && MessageOk(h, size, m)
       case DeliverVoteResponse(m, _) => m.VoteResponse? && MessageOk(h, size, m)
         && (n.role == Candidate && m.vote.term == n.term ==> m.src !in n.answered)
       case DeliverAppendRequest(m) => m.AppendRequest? && MessageOk(h, size, m)
       case DeliverAppendResponse(m) => m.AppendResponse? && MessageOk(h, size, m)
       case _ => true
  }

  lemma StepKeepsInv(h: History, c: Cluster, s: Step)
    requires Inv(h, c) && Enabled(c, s)
    ensures Inv(After(h, c, s), Apply(c, s))
    ensures Grows(h, After(h, c, s), Actor(s))
  {
    var size, n := |c.nodes|, c.nodes[Actor(s)];
    assert NodeOk(h, size, Actor(s), n);
    assert Fires(h, size, n, s);
    PeerStepOk(h, size, n, s);
    SentOk(h, size, n, s);
    Assemble(h, Record(h, n, s, Act(n, s).0), c, Actor(s), Act(n, s).0, Act(n, s).1);
  }

  lemma PeerStepOk(h: History, size: nat, n: Node, s: Step)
    requires Ready(h, size, n) && Fires(h, size, n, s)
    ensures Done(h, Record(h, n, s, Act(n, s).0), size, n, Act(n, s).0)
  {
    match s {
      case Timeout(_) =>
        if n.role == Leader { SameOk(h, size, n, n); } else { CampaignOk(h, size, n); }
      case DeliverVoteRequest(m) => VoteStepOk(h, size, n, s);
      case DeliverVoteResponse(m, ticking) => VoteReplyOk(h, size, n, m, ticking);
      case Promote(_) => PromoteOk(h, size, n, s);
      case Submit(_, _) =>
        if n.role == Leader { StartOk(h, size, n, s); } else { SameOk(h, size, n, n); }
      case Heartbeat(_) => SameOk(h, size, n, n);
      case DeliverAppendRequest(m) =>
        AppendTerm(n, m.append);
        DeliverOk(h, size, n, m.append, Record(h, n, s, Act(n, s).0));
      case DeliverAppendResponse(m) => ReplyStepOk(h, size, n, s);
      case Restart(_) => BootOk(h, size, n);
    }
  }

  lemma SentOk(h: History, size: nat, n: Node, s: Step)
    requires Ready(h, size, n) && Fires(h, size, n, s)
    ensures forall m :: m in Act(n, s).1 ==> MessageOk(Record(h, n, s, Act(n, s).0), size, m)
  {
    match s {
      case DeliverAppendRequest(m) =>
        AppendTerm(n, m.append);
        DeliverOk(h, size, n, m.append, Record(h, n, s, Act(n, s).0));
        AppendStays(h, Record(h, n, s, Act(n, s).0), n.me, size, n.me, m.append);
      case DeliverVoteRequest(m) => VoteStepOk(h, size, n, s);
      case Promote(_) =>
        if n.role == Candidate {
          OfficeOk(h, size, n, s);
          BroadcastOk(Record(h, n, s, TakeOffice(n)), size, TakeOffice(n));
        }
      case Heartbeat(_) => if n.role == Leader { BroadcastOk(h, size, n); }
      case _ =>
    }
  }

  lemma PromoteOk(h: History, size: nat, n: Node, s: Step)
    requires Ready(h, size, n) && n.won && s.Promote?
    ensures Done(h, Record(h, n, s, TakeOffice(n)), size, n, TakeOffice(n))
  {
    if n.role == Candidate {
      OfficeOk(h, size, n, s);
    } else if n.role == Leader {
      LeaderStays(h, h, size, n, TakeOffice(n));
    }
  }

  lemma DeliverOk(h: History, size: nat, n: Node, a: AppendArgs, h': History)
    requires Ready(h, size, n) && AppendOk(h, size, n.me, a)
    requires h' == if AppendEntries(n, a).1.success then Acknowledge(h, a.term, n.me, Reach(a)) else h
    ensures Done(h, h', size, n, AppendEntries(n, a).0)
    ensures ReplyOk(h', n.me, a, AppendEntries(n, a).1, AppendEntries(n, a).0.log)
  {
    if a.term < n.term {
      SameOk(h, size, n, n);
    } else if a.term == n.term {
      AppendStepOk(h, size, n, a, h');
    } else {
      RaiseThenAppend(n, a);
      StepDownOk(h, size, n, a.term);
      AppendStepOk(h, size, Persist(ToFollower(n, a.term)), a, h');
    }
  }

  lemma AppendTerm(n: Node, a: AppendArgs)
    requires WellFormed(n)
    ensures AppendEntries(n, a).1.success ==> AppendEntries(n, a).0.term == a.term
  {
  }

  lemma InitOk(size: nat)
    ensures Inv(EMPTY, Init(size))
  {
  }
}
