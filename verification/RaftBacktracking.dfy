/**
 Fast backtracking: how the exchange of rejected appends between a leader and one follower, both otherwise at rest,
 finds the point where their logs agree.
 */
module RaftBacktracking {
  import opened RaftNode
  import opened RaftCluster
  import opened RaftHistory
  import opened RaftInvariant
  import opened RaftSafety

  predicate TermsRise(log: seq<Entry>) {
    forall i, j :: 0 <= i <= j < |log| ==> log[i].term <= log[j].term
  }

  /** Two logs that have the same term at an index are the same through it. */
  ghost predicate LogsMatch(a: seq<Entry>, b: seq<Entry>) {
    forall k {:trigger a[k]} :: 0 <= k < |a| && k < |b| && a[k].term == b[k].term ==> a[..k + 1] == b[..k + 1]
  }

  // ---------------------------------------------------------------- the exchange on two fixed logs

  /** The leader's and the follower's logs start alike, and `next` is a place in the leader's log or just after it. */
  ghost predicate Probing(leader: seq<Entry>, follower: seq<Entry>, next: int) {
    && |follower| >= 1 && 1 <= next <= |leader| && leader[0].term == follower[0].term
    && forall k :: 0 <= k < |follower| ==> follower[k].term >= 0
  }

  predicate Rejects(leader: seq<Entry>, follower: seq<Entry>, next: int)
    requires 1 <= next <= |leader|
  {
    next > |follower| || follower[next - 1].term != leader[next - 1].term
  }

  /** Where the leader tries next after a rejection. */
  function Retry(leader: seq<Entry>, follower: seq<Entry>, next: int): (r: int)
    requires |follower| >= 1 && 1 <= next <= |leader| && leader[0].term == follower[0].term
             && Rejects(leader, follower, next)
    ensures 1 <= r < next
    ensures next > |follower| ==> r == |follower|
    ensures next <= |follower| ==>
              var t := follower[next - 1].term;
              || r == ScanBack(follower, next - 1, t) + 1
              || (ScanBack(follower, next - 1, t) + 1 < r && leader[r - 1].term == follower[r - 1].term == t)
  {
    if next > |follower| then |follower|
    else
      var t := follower[next - 1].term;
      var start := ScanBack(follower, next - 1, t) + 1;
      var idx := FindTerm(leader, next - 1, t);
      if idx == 0 || idx < start then start else idx + 1
  }

  /** How many appends the follower rejects before it accepts one. */
  function Rejections(leader: seq<Entry>, follower: seq<Entry>, next: int): nat
    requires |follower| >= 1 && 1 <= next <= |leader| && leader[0].term == follower[0].term
    decreases next
  {
    if Rejects(leader, follower, next) then 1 + Rejections(leader, follower, Retry(leader, follower, next)) else 0
  }

  /** The distinct terms at indexes 1 to `k`. */
  function TermsUpTo(log: seq<Entry>, k: int): set<int>
    requires k < |log|
  {
    set i | 1 <= i <= k :: log[i].term
  }

  /** Going below the conflicting run of entries leaves one term behind for good. */
  lemma RunCostsATerm(log: seq<Entry>, prev: int, stop: int)
    requires TermsRise(log) && 1 <= prev < |log| && 0 <= stop < prev
    requires forall k :: stop < k <= prev ==> log[k].term == log[prev].term
    requires stop == 0 || log[stop].term != log[prev].term
    ensures |TermsUpTo(log, stop)| + 1 <= |TermsUpTo(log, prev)|
  {
    var t, low, all := log[prev].term, TermsUpTo(log, stop), TermsUpTo(log, prev);
    forall x | x in low ensures x in all && x != t {
      var i :| 1 <= i <= stop && x == log[i].term;
      assert log[i].term <= log[stop].term <= log[prev].term;
    }
    assert log[prev].term in all;
    assert all == (low + {t}) + (all - (low + {t}));
  }

  lemma {:induction false} RejectionsBelow(leader: seq<Entry>, follower: seq<Entry>, next: int)
    requires Probing(leader, follower, next) && TermsRise(follower) && next <= |follower|
    ensures Rejections(leader, follower, next) <= |TermsUpTo(follower, next - 1)|
    decreases next
  {
    if Rejects(leader, follower, next) {
      var r, t := Retry(leader, follower, next), follower[next - 1].term;
      RunCostsATerm(follower, next - 1, ScanBack(follower, next - 1, t));
      if r == ScanBack(follower, next - 1, t) + 1 {
        RejectionsBelow(leader, follower, r);
      }
    }
  }

  /**
   The bound: the exchange ends after at most one rejection for each distinct term in the follower's log and one more,
   for any two logs that start alike when the follower's terms never fall.
   */
  lemma BacktrackingBound(leader: seq<Entry>, follower: seq<Entry>, next: int)
    requires Probing(leader, follower, next) && TermsRise(follower)
    ensures Rejections(leader, follower, next) <= |TermsUpTo(follower, |follower| - 1)| + 1
  {
    if next <= |follower| {
      RejectionsBelow(leader, follower, next);
      var few, all := TermsUpTo(follower, next - 1), TermsUpTo(follower, |follower| - 1);
      assert all == few + (all - few);
    } else {
      RejectionsBelow(leader, follower, |follower|);
    }
  }

  // ---------------------------------------------------------------- the exchange between two peers

  /** A leader and a follower of one term, neither with a snapshot. */
  ghost predicate Exchanging(leader: Node, follower: Node, peer: nat) {
    && WellFormed(leader) && WellFormed(follower) && leader.snap == 0 && follower.snap == 0
    && leader.role == Leader && follower.term == leader.term && peer < leader.peers
    && Probing(leader.log, follower.log, leader.nextIndex[peer])
  }

  /** The follower and its answer to the leader's next append, and the leader once it has handled that answer. */
  ghost function Answered(leader: Node, follower: Node, peer: nat): (Node, AppendReply)
    requires Exchanging(leader, follower, peer)
  {
    AppendEntries(follower, AppendRequestFor(leader, peer))
  }

  ghost function Informed(leader: Node, follower: Node, peer: nat): Node
    requires Exchanging(leader, follower, peer)
  {
    AppendReplied(leader, peer, AppendRequestFor(leader, peer), Answered(leader, follower, peer).1)
  }

  /** The peers' handlers carry out the exchange on their logs: the same verdict, and the same place to try next. */
  lemma HandlersExchange(leader: Node, follower: Node, peer: nat)
    requires Exchanging(leader, follower, peer)
    ensures Answered(leader, follower, peer).1.success <==> !Rejects(leader.log, follower.log, leader.nextIndex[peer])
    ensures !Answered(leader, follower, peer).1.success ==>
              && Answered(leader, follower, peer).0 == follower
              && Exchanging(Informed(leader, follower, peer), follower, peer)
              && Informed(leader, follower, peer).log == leader.log
              && Informed(leader, follower, peer).nextIndex[peer]
                   == Retry(leader.log, follower.log, leader.nextIndex[peer])
  {
  }

  /** An accepted append leaves the follower with exactly the leader's log, if the two logs match. */
  lemma AcceptanceSettles(leader: Node, follower: Node, peer: nat)
    requires Exchanging(leader, follower, peer) && LogsMatch(follower.log, leader.log)
    requires Answered(leader, follower, peer).1.success
    ensures Answered(leader, follower, peer).0.log == leader.log
  {
    hide Spliced, ScanBack, LogsMatch;
    var a := AppendRequestFor(leader, peer);
    SettledLog(follower.log, leader.log, a);
  }

  lemma SettledLog(follower: seq<Entry>, leader: seq<Entry>, a: AppendArgs)
    requires LogsMatch(follower, leader) && 0 <= a.prevIndex < |follower| && a.prevIndex < |leader|
    requires a.entries == leader[a.prevIndex + 1..] && follower[a.prevIndex].term == leader[a.prevIndex].term
    ensures Spliced(follower, a.prevIndex, a.entries) == leader
  {
    hide Agreement;
    var p := a.prevIndex;
    var j := Agreement(follower, p + 1, a.entries, 0);
    LastAgreed(follower, leader, a, j);
    assert follower[..p + j + 1] == leader[..p + j + 1];
    Splice(follower, leader, a.entries, p, j);
  }

  ghost predicate Round(leader: Node, follower: Node, peer: nat, leader': Node) {
    Exchanging(leader, follower, peer) && !Answered(leader, follower, peer).1.success
        && leader' == Informed(leader, follower, peer)
  }

  ghost predicate LastRound(leader: Node, follower: Node, peer: nat) {
    Exchanging(leader, follower, peer) && Answered(leader, follower, peer).1.success
  }

  /** The leader through the rounds of an exchange: every append but the last is rejected. */
  ghost predicate IsExchange(rounds: seq<Node>, follower: Node, peer: nat) {
    && |rounds| >= 1
    && (forall k :: 0 <= k < |rounds| - 1 ==> Round(rounds[k], follower, peer, rounds[k + 1]))
    && LastRound(rounds[|rounds| - 1], follower, peer)
  }

  lemma {:induction false} ExchangeEnds(leader: Node, follower: Node, peer: nat) returns (rounds: seq<Node>)
    requires Exchanging(leader, follower, peer) && LogsMatch(follower.log, leader.log)
    ensures IsExchange(rounds, follower, peer) && rounds[0] == leader
    ensures Answered(rounds[|rounds| - 1], follower, peer).0.log == leader.log
    ensures |rounds| == 1 + Rejections(leader.log, follower.log, leader.nextIndex[peer])
    decreases leader.nextIndex[peer]
  {
    HandlersExchange(leader, follower, peer);
    rounds := [leader];
    if LastRound(leader, follower, peer) {
      AcceptanceSettles(leader, follower, peer);
    } else {
      var leader' := Informed(leader, follower, peer);
      assert Round(leader, follower, peer, leader');
      var rest := ExchangeEnds(leader', follower, peer);
      rounds := [leader] + rest;
    }
  }

  /**
   From any moment of any run, a leader and a follower of its term that exchange appends end with the follower holding
   the leader's log, after at most one rejection for each distinct term in the follower's log and one more.
   */
  lemma BacktrackingInEveryRun(size: nat, run: seq<Step>, i: nat, j: nat) returns (rounds: seq<Node>)
    requires i < size && j < size && i != j
    requires Exec(size, run).nodes[i].role == Leader && Exec(size, run).nodes[j].term == Exec(size, run).nodes[i].term
    ensures var leader, follower := Exec(size, run).nodes[i], Exec(size, run).nodes[j];
            && IsExchange(rounds, follower, j) && rounds[0] == leader && |follower.log| >= 1
            && |rounds| - 1 <= |TermsUpTo(follower.log, |follower.log| - 1)| + 1
            && Answered(rounds[|rounds| - 1], follower, j).0.log == leader.log
  {
    PeerReady(size, run, i);
    PeerReady(size, run, j);
    ReadyToExchange(HistoryOf(size, run), size, Exec(size, run).nodes[i], Exec(size, run).nodes[j]);
    rounds := Exchanged(Exec(size, run).nodes[i], Exec(size, run).nodes[j], j);
  }

  lemma Exchanged(leader: Node, follower: Node, peer: nat) returns (rounds: seq<Node>)
    requires Exchanging(leader, follower, peer) && TermsRise(follower.log) && LogsMatch(follower.log, leader.log)
    ensures IsExchange(rounds, follower, peer) && rounds[0] == leader
    ensures |rounds| - 1 <= |TermsUpTo(follower.log, |follower.log| - 1)| + 1
    ensures Answered(rounds[|rounds| - 1], follower, peer).0.log == leader.log
  {
    BacktrackingBound(leader.log, follower.log, leader.nextIndex[peer]);
    rounds := ExchangeEnds(leader, follower, peer);
  }

  lemma ReadyToExchange(h: History, size: nat, leader: Node, follower: Node)
    requires Ready(h, size, leader) && Ready(h, size, follower) && leader.me != follower.me
    requires leader.role == Leader && follower.term == leader.term
    ensures Exchanging(leader, follower, follower.me) && TermsRise(follower.log) && LogsMatch(follower.log, leader.log)
  {
    assert MatchOk(h, leader, follower.me);
    forall a, b | 0 <= a <= b < |follower.log| ensures 0 <= follower.log[a].term <= follower.log[b].term {
      BackedTerms(h, size, follower.log, 0, a);
      BackedTerms(h, size, follower.log, a, b);
    }
    forall k | 0 <= k < |follower.log| && k < |leader.log| && follower.log[k].term == leader.log[k].term
      ensures follower.log[..k + 1] == leader.log[..k + 1]
    {
      Matching(h, size, follower.log, leader.log, k);
    }
  }
}
