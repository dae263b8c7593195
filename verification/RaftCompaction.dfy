/**
 Log compaction refines the full log: a peer that trims its log behaves, in everything it shows above the snapshot, like
 one that never does.
 */
module RaftCompaction {
  import opened RaftNode

  /** What is left of a log when everything before index `k` is cut; the head keeps its term and loses its command. */
  function Cut(log: seq<Entry>, k: nat): seq<Entry>
    requires k < |log|
  {
    if k == 0 then log else log[k..][0 := log[k].(command := Nil)]
  }

  /** Peer `n` is peer `full`, which has the whole log, trimmed at n's snapshot index. The disks are not compared. */
  predicate Trims(full: Node, n: Node) {
    && WellFormed(full) && WellFormed(n) && full.snap == 0 && n.snap < |full.log|
    && n.(disk := Blank) == full.(disk := Blank, snap := n.snap, log := Cut(full.log, n.snap))
  }

  /** Everything a peer does but restart, and what its peers may tell it. */
  datatype Action =
    | Append(command: Command)                                               // Start
    | Trim(index: int)                                                       // Snapshot
    | Receive(args: AppendArgs)                                              // an AppendEntries
    | Timeout                                                                // convertToCandidate
    | Vote(vote: VoteArgs)                                                   // a RequestVote
    | CountVote(peer: nat, vote: VoteArgs, voteReply: VoteReply, ticking: bool)
    | Office                                                                 // convertToLeader
    | Reply(peer: nat, args: AppendArgs, reply: AppendReply)                 // a reply to an append

  function OnTrimmed(n: Node, x: Action): (r: Node)
    requires WellFormed(n)
    ensures WellFormed(r)
  {
    match x
    case Append(command) => Start(n, command).0
    case Trim(index) => Snapshot(n, index)
    case Receive(args) => AppendKeepsShape(n, args); AppendEntries(n, args).0
    case Timeout => Campaign(n)
    case Vote(vote) => RequestVote(n, vote).0
    case CountVote(peer, vote, voteReply, ticking) => VoteReplied(n, peer, vote, voteReply, ticking)
    case Office => TakeOffice(n)
    case Reply(peer, args, reply) =>
      if TakesReply(n, args, reply) && !CanProgress(n, peer, args, reply) then n
      else AppendReplied(n, peer, args, reply)
  }

  /** The same on a peer that never trims. */
  function OnFull(full: Node, x: Action): (r: Node)
    requires WellFormed(full)
    ensures WellFormed(r)
  {
    if x.Trim? then full else OnTrimmed(full, x)
  }

  /** The rejection makes the leader give up on entries and turn to its snapshot. */
  predicate FallsBack(n: Node, peer: nat, args: AppendArgs, reply: AppendReply)
    requires WellFormed(n) && CanProgress(n, peer, args, reply)
  {
    !reply.success && reply.xTerm != -1 && Progress(n, peer, args, reply).0 <= n.snap
  }

  /**
   The actions whose effect does not depend on the entries trimmed: an append is outdated or does not start below the
   snapshot, as every append accepted; a reply that the leader takes
   into account finds only committed entries trimmed, as a service's snapshot has, and leaves the leader sending
   entries.
   */
  predicate Accepted(n: Node, x: Action)
    requires WellFormed(n)
  {
    match x
    case Receive(args) => args.term < n.term || args.prevIndex >= n.snap
    case Reply(peer, args, reply) =>
      TakesReply(n, args, reply) && CanProgress(n, peer, args, reply) ==>
        n.snap <= n.commitIndex && !FallsBack(n, peer, args, reply)
    case _ => true
  }

  // ---------------------------------------------------------------- what both peers show

  /** Above the snapshot the two logs are the same; at it they have the same term. */
  lemma SameEntries(full: Node, n: Node, index: int)
    requires Trims(full, n) && n.snap <= index <= LastIndex(n)
    ensures LastIndex(n) == LastIndex(full)
    ensures n.log[index - n.snap].term == full.log[index].term
    ensures index > n.snap ==> n.log[index - n.snap] == full.log[index] && n.log[index - n.snap..] == full.log[index..]
  {
  }

  /** The two peers show the same last index and last term, and so answer and ask for votes alike. */
  lemma SameVotes(full: Node, n: Node, vote: VoteArgs)
    requires Trims(full, n)
    ensures LastIndex(n) == LastIndex(full) && LastTerm(n.log) == LastTerm(full.log)
    ensures RequestVote(n, vote).1 == RequestVote(full, vote).1
    ensures VoteRequestOf(n) == VoteRequestOf(full)
  {
    hide Cut, LastIndex, LastTerm, AtLeastAsUpToDate;
    SameEnds(full, n, vote.term);
  }

  /** The trimmed peer sends, to every peer it can send entries to, the append the other would send. */
  lemma SameAppends(full: Node, n: Node, peer: nat)
    requires Trims(full, n) && CanSendTo(n, peer)
    ensures CanSendTo(full, peer) && AppendRequestFor(n, peer) == AppendRequestFor(full, peer)
  {
    var next := n.nextIndex[peer];
    SameEntries(full, n, next - 1);
    if next <= LastIndex(n) { SameEntries(full, n, next); }
    assert n.log[next - n.snap..] == full.log[next..];
  }

  // ---------------------------------------------------------------- every action keeps the two in step

  lemma {:induction false} SameAgreement(full: seq<Entry>, log: seq<Entry>, k: nat, at: int, entries: seq<Entry>,
                                         j: int)
    requires k < |full| && log == Cut(full, k) && 0 <= at < |log| && 0 <= j <= |entries| && at + 1 + j <= |log|
    ensures Agreement(log, at + 1, entries, j) == Agreement(full, k + at + 1, entries, j)
    decreases |entries| - j
  {
    if at + 1 + j < |log| && j < |entries| && log[at + 1 + j].term == entries[j].term {
      SameAgreement(full, log, k, at, entries, j + 1);
    }
  }

  lemma SameSplice(full: seq<Entry>, log: seq<Entry>, k: nat, at: int, entries: seq<Entry>)
    requires k < |full| && log == Cut(full, k) && 0 <= at < |log|
    ensures k < |Spliced(full, k + at, entries)|
    ensures Spliced(log, at, entries) == Cut(Spliced(full, k + at, entries), k)
  {
    hide Agreement, Cut;
    CutSize(full, k);
    SameAgreement(full, log, k, at, entries, 0);
    var j := Agreement(log, at + 1, entries, 0);
    CutSlices(full, k, at + 1 + j, entries[j..]);
    assert k + (at + 1 + j) == k + at + 1 + j;
  }

  /** Cutting in front does not touch what comes behind. */
  lemma CutSlices(full: seq<Entry>, k: nat, m: nat, rest: seq<Entry>)
    requires 1 <= m && k + m <= |full|
    ensures Cut(full[..k + m] + rest, k) == Cut(full, k)[..m] + rest
  {
    var whole := full[..k + m] + rest;
    assert whole[k] == full[k];
    if k > 0 {
      assert full[k..][..m] == full[..k + m][k..];
      assert whole[k..] == full[k..][..m] + rest;
    }
  }

  /** What an accepted append does to a peer, but for its disk. */
  lemma OverwriteShape(n: Node, a: AppendArgs, at: int, changed: bool)
    requires WellFormed(n) && 0 <= at < |n.log|
    ensures var log := Spliced(n.log, at, a.entries);
            var last := n.snap + |log| - 1;
            Overwrite(n, a, at, changed).(disk := Blank) ==
            n.(disk := Blank, log := log, commitIndex := if a.commit > n.commitIndex then Min(a.commit, last)
               else n.commitIndex)
  {
  }

  lemma OverwriteTrims(full: Node, n: Node, a: AppendArgs, at: int, changed: bool)
    requires Trims(full, n) && 0 <= at < |n.log|
    ensures Trims(Overwrite(full, a, n.snap + at, changed), Overwrite(n, a, at, changed))
    ensures n.snap + |Spliced(n.log, at, a.entries)| == |Spliced(full.log, n.snap + at, a.entries)|
  {
    SameSplice(full.log, n.log, n.snap, at, a.entries);
    OverwriteShape(full, a, n.snap + at, changed);
    OverwriteShape(n, a, at, changed);
  }

  predicate Consistent(n: Node, a: AppendArgs) {
    n.snap <= a.prevIndex <= LastIndex(n) && n.log[a.prevIndex - n.snap].term == a.prevTerm
  }

  lemma MergeShape(n: Node, a: AppendArgs, changed: bool)
    requires WellFormed(n)
    ensures Merge(n, a, changed).1.success <==> Consistent(n, a)
    ensures !Consistent(n, a) ==> Merge(n, a, changed).0 == if changed then Persist(n) else n
    ensures Consistent(n, a) ==>
              var at := a.prevIndex - n.snap;
              Merge(n, a, changed) ==
              (Overwrite(n, a, at, changed), AppendReply(n.term, n.snap + |Spliced(n.log, at, a.entries)|, -1, true))
  {
  }

  lemma SameConsistent(full: Node, n: Node, a: AppendArgs)
    requires Trims(full, n) && n.snap <= a.prevIndex
    ensures Consistent(full, a) <==> Consistent(n, a)
  {
    SameEntries(full, n, LastIndex(n));
    if a.prevIndex <= LastIndex(n) { SameEntries(full, n, a.prevIndex); }
  }

  lemma MergeTrims(full: Node, n: Node, a: AppendArgs, changed: bool)
    requires Trims(full, n) && n.snap <= a.prevIndex
    ensures Merge(full, a, changed).1.success <==> Merge(n, a, changed).1.success
    ensures Merge(n, a, changed).1.success ==> Merge(full, a, changed).1 == Merge(n, a, changed).1
    ensures Trims(Merge(full, a, changed).0, Merge(n, a, changed).0)
  {
    hide Merge, Overwrite, Spliced, Consistent;
    MergeShape(n, a, changed);
    MergeShape(full, a, changed);
    SameConsistent(full, n, a);
    if Consistent(n, a) {
      ConsistentAt(n, a);
      OverwriteTrims(full, n, a, a.prevIndex - n.snap, changed);
    }
  }

  lemma ConsistentAt(n: Node, a: AppendArgs)
    requires WellFormed(n) && Consistent(n, a)
    ensures 0 <= a.prevIndex - n.snap < |n.log|
  {
  }

  /** An append that is outdated or does not start below the snapshot gets the same verdict on both logs. */
  lemma ReceiveTrims(full: Node, n: Node, a: AppendArgs)
    requires Trims(full, n) && (a.term < n.term || n.snap <= a.prevIndex)
    ensures AppendEntries(full, a).1.success <==> AppendEntries(n, a).1.success
    ensures AppendEntries(n, a).1.success ==> AppendEntries(full, a).1 == AppendEntries(n, a).1
    ensures Trims(AppendEntries(full, a).0, AppendEntries(n, a).0)
  {
    hide Merge;
    if a.term > n.term {
      MergeTrims(ToFollower(full, a.term), ToFollower(n, a.term), a, true);
    } else if a.term == n.term {
      MergeTrims(full, n, a, false);
    }
  }

  /** So it is with every append that the trimmed log accepts. */
  lemma AcceptedIsReceived(n: Node, a: AppendArgs)
    requires WellFormed(n) && AppendEntries(n, a).1.success
    ensures Accepted(n, Receive(a))
  {
  }

  lemma SnapshotTrims(full: Node, n: Node, index: int)
    requires Trims(full, n)
    ensures Trims(full, Snapshot(n, index))
  {
    if n.snap < index <= LastIndex(n) {
      SameEntries(full, n, index);
      assert n.log[index - n.snap..] == full.log[index..];
    }
  }

  lemma StartTrims(full: Node, n: Node, command: Command)
    requires Trims(full, n)
    ensures Start(full, command).1 == Start(n, command).1 && Trims(Start(full, command).0, Start(n, command).0)
  {
    if n.role == Leader {
      var e := Entry(n.term, command);
      assert Cut(full.log + [e], n.snap) == n.log + [e];
    }
  }

  lemma ElectionTrims(full: Node, n: Node, x: Action)
    requires Trims(full, n) && (x.Timeout? || x.Vote? || x.CountVote? || x.Office?)
    ensures Trims(OnFull(full, x), OnTrimmed(n, x))
  {
    hide Cut, RequestVote, AppendEntries, AppendReplied, TakesReply, CanProgress, Start, Snapshot;
    CutSize(full.log, n.snap);
    if x.Vote? { VoteTrims(full, n, x.vote); }
  }

  lemma VoteTrims(full: Node, n: Node, vote: VoteArgs)
    requires Trims(full, n)
    ensures Trims(RequestVote(full, vote).0, RequestVote(n, vote).0)
  {
    hide Cut, LastIndex, LastTerm, AtLeastAsUpToDate;
    SameEnds(full, n, vote.term);
  }

  /** The ends of the two logs, before and after stepping down. */
  lemma SameEnds(full: Node, n: Node, term: int)
    requires Trims(full, n)
    ensures LastIndex(n) == LastIndex(full) && LastTerm(n.log) == LastTerm(full.log)
    ensures LastIndex(ToFollower(n, term)) == LastIndex(ToFollower(full, term))
  {
    SameEntries(full, n, LastIndex(n));
  }

  /** The search for the reported term finds the same entry, unless it goes down to the trimmed ones. */
  lemma {:induction false} SameSearch(full: seq<Entry>, log: seq<Entry>, k: nat, i: int, t: int)
    requires k < |full| && log == Cut(full, k) && 0 <= i < |log|
    ensures FindTerm(log, i, t) > 0 ==> FindTerm(full, k + i, t) == k + FindTerm(log, i, t)
    ensures FindTerm(log, i, t) == 0 ==> FindTerm(full, k + i, t) <= k
    decreases i
  {
    if i > 0 && log[i].term != t { SameSearch(full, log, k, i - 1, t); }
  }

  lemma SameProgress(full: Node, n: Node, peer: nat, a: AppendArgs, r: AppendReply)
    requires Trims(full, n) && CanProgress(n, peer, a, r) && !FallsBack(n, peer, a, r)
    ensures CanProgress(full, peer, a, r) && Progress(full, peer, a, r) == Progress(n, peer, a, r)
  {
    hide Cut;
    CutSize(full.log, n.snap);
    if !r.success && r.xTerm != -1 && a.prevIndex >= n.snap {
      SameSearch(full.log, n.log, n.snap, a.prevIndex - n.snap, r.xTerm);
    }
  }

  lemma CutSize(log: seq<Entry>, k: nat)
    requires k < |log|
    ensures |Cut(log, k)| == |log| - k
  {
  }

  /** With everything trimmed committed, the commit scan never gets to the trimmed entries. */
  lemma {:induction false} SameCommitScan(full: Node, n: Node, k: nat)
    requires Trims(full, n) && n.snap <= n.commitIndex && k < |n.log|
    ensures n.snap + k < |full.log| && CommitScan(full, n.snap + k) == CommitScan(n, k)
    decreases k
  {
    hide CountMatches;
    SameEntries(full, n, n.snap + k);
    if k > 0 { SameCommitScan(full, n, k - 1); }
  }

  lemma ReplyTrims(full: Node, n: Node, peer: nat, a: AppendArgs, r: AppendReply)
    requires Trims(full, n) && TakesReply(n, a, r) && CanProgress(n, peer, a, r)
    requires n.snap <= n.commitIndex && !FallsBack(n, peer, a, r)
    ensures CanProgress(full, peer, a, r) && Trims(AppendReplied(full, peer, a, r), AppendReplied(n, peer, a, r))
  {
    hide Progress, CommitScan, Cut;
    CutSize(full.log, n.snap);
    SameProgress(full, n, peer, a, r);
    var (next, mtch) := Progress(n, peer, a, r);
    var n' := n.(nextIndex := n.nextIndex[peer := next], matchIndex := n.matchIndex[peer := mtch]);
    var full' := full.(nextIndex := n'.nextIndex, matchIndex := n'.matchIndex);
    SameCommitScan(full', n', |n'.log| - 1);
  }

  lemma OtherReplyTrims(full: Node, n: Node, peer: nat, a: AppendArgs, r: AppendReply)
    requires Trims(full, n) && !TakesReply(n, a, r)
    ensures Trims(AppendReplied(full, peer, a, r), AppendReplied(n, peer, a, r))
  {
  }

  lemma SameReach(full: Node, n: Node, peer: nat, a: AppendArgs, r: AppendReply)
    requires Trims(full, n)
    ensures CanProgress(full, peer, a, r) <==> CanProgress(n, peer, a, r)
    ensures TakesReply(full, a, r) <==> TakesReply(n, a, r)
  {
  }

  lemma ActionTrims(full: Node, n: Node, x: Action)
    requires Trims(full, n) && Accepted(n, x)
    ensures Trims(OnFull(full, x), OnTrimmed(n, x))
  {
    hide Trims, Start, Snapshot, AppendEntries, AppendReplied, Campaign, RequestVote, VoteReplied, TakeOffice,
        CanProgress,
         TakesReply, FallsBack;
    TrimsShape(full, n);
    match x {
      case Append(command) => StartTrims(full, n, command);
      case Trim(index) => SnapshotTrims(full, n, index);
      case Receive(a) => ReceiveTrims(full, n, a);
      case Reply(peer, a, r) =>
        SameReach(full, n, peer, a, r);
        if !TakesReply(n, a, r) {
          OtherReplyTrims(full, n, peer, a, r);
        } else if CanProgress(n, peer, a, r) {
          ReplyTrims(full, n, peer, a, r);
        }
      case _ => ElectionTrims(full, n, x);
    }
  }

  lemma TrimsShape(full: Node, n: Node)
    requires Trims(full, n)
    ensures WellFormed(full) && WellFormed(n)
  {
  }

  function RunTrimmed(n: Node, xs: seq<Action>): (r: Node)
    requires WellFormed(n)
    ensures WellFormed(r)
    decreases |xs|
  {
    if xs == [] then n else RunTrimmed(OnTrimmed(n, xs[0]), xs[1..])
  }

  function RunFull(full: Node, xs: seq<Action>): (r: Node)
    requires WellFormed(full)
    ensures WellFormed(r)
    decreases |xs|
  {
    if xs == [] then full else RunFull(OnFull(full, xs[0]), xs[1..])
  }

  predicate AllAccepted(n: Node, xs: seq<Action>)
    requires WellFormed(n)
    decreases |xs|
  {
    xs == [] || (Accepted(n, xs[0]) && AllAccepted(OnTrimmed(n, xs[0]), xs[1..]))
  }

  /**
   Compaction refines the full log: after any interleaving of Start, Snapshot, elections, votes, appends that do not
   start below the snapshot and replies to appends, the trimmed peer is the never-trimmed peer trimmed, and so
   SameEntries, SameVotes and SameAppends hold of the two.
   */
  lemma {:induction false} CompactionRefines(full: Node, n: Node, xs: seq<Action>)
    requires Trims(full, n) && AllAccepted(n, xs)
    ensures Trims(RunFull(full, xs), RunTrimmed(n, xs))
    decreases |xs|
  {
    if xs != [] {
      ActionTrims(full, n, xs[0]);
      CompactionRefines(OnFull(full, xs[0]), OnTrimmed(n, xs[0]), xs[1..]);
    }
  }
}
