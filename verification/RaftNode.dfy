/**
 One Raft peer as a value: the fields of `type Raft struct`, what the peer's persister holds,
 and one pure function for every critical section that runs under `rf.mu`.
 */
module RaftNode {

  /** A command handed to Start; `Nil` stands for Go's nil (the sentinel at index 0 and trimmed heads). */
  datatype Command = Nil | Op(payload: string)

  datatype Entry = Entry(term: int, command: Command)

  const SENTINEL := Entry(0, Nil)

  datatype Role = Follower | Candidate | Leader

  /** What persist() wrote last; `Blank` before the first write. */
  datatype Disk = Blank | Saved(term: int, votedFor: int, log: seq<Entry>, snap: nat)

  /**
   The persistent and volatile fields of one peer. `snap` is lastSnapshotIndex.
   Two fields stand for goroutine state: `answered` holds this peer and the peers whose sendRequestVote
   goroutine for the current campaign has returned, and `won` says that the ticker goroutine has received from
   winElectCh and is about to call convertToLeader.
   */
  datatype Node = Node(
    me: nat, peers: nat,
    term: int, votedFor: int, log: seq<Entry>, snap: nat,
    commitIndex: int, nextIndex: seq<int>, matchIndex: seq<int>,
    role: Role, voteCount: nat, answered: set<nat>, won: bool,
    disk: Disk)

  datatype VoteArgs = VoteArgs(term: int, candidate: nat, lastIndex: int, lastTerm: int)
  datatype VoteReply = VoteReply(term: int, granted: bool)

  datatype AppendArgs = AppendArgs(term: int, leader: nat, prevIndex: int, prevTerm: int, entries: seq<Entry>,
                                   commit: int)
  datatype AppendReply = AppendReply(term: int, xIndex: int, xTerm: int, success: bool)

  /** The shape every peer keeps: a log that holds at least its head entry, and one slot per peer. */
  predicate WellFormed(n: Node) {
    && n.me < n.peers
    && |n.log| >= 1
    && |n.nextIndex| == n.peers
    && |n.matchIndex| == n.peers
    && (n.disk.Saved? ==> |n.disk.log| >= 1)
  }

  function LastIndex(n: Node): int {
    n.snap + |n.log| - 1
  }

  function LastTerm(log: seq<Entry>): int
    requires |log| >= 1
  {
    log[|log| - 1].term
  }

  function ToLogIndex(n: Node, index: int): int {
    if index < n.snap then -1 else index - n.snap
  }

  function ToOriginalIndex(n: Node, index: int): int {
    if index < 0 then -1 else n.snap + index
  }

  /** isLogUpToDate: is a log ending at (lastIndex, lastTerm) at least as up to date as one ending at (index, term)? */
  predicate AtLeastAsUpToDate(lastIndex: int, lastTerm: int, index: int, term: int) {
    lastTerm > term || (lastTerm == term && lastIndex >= index)
  }

  function ToFollower(n: Node, term: int): Node {
    n.(role := Follower, term := term, votedFor := -1, voteCount := 0)
  }

  function Persist(n: Node): Node {
    n.(disk := Saved(n.term, n.votedFor, n.log, n.snap))
  }

  // ---------------------------------------------------------------- elections

  /** convertToCandidate, without the broadcast. */
  function Campaign(n: Node): Node {
    if n.role == Leader then n
    else Persist(n.(role := Candidate, term := n.term + 1, votedFor := n.me, voteCount := 1, answered := {n.me}))
  }

  /** The arguments broadcastRequestVote sends to every other peer. */
  function VoteRequestOf(n: Node): VoteArgs
    requires WellFormed(n)
  {
    VoteArgs(n.term, n.me, LastIndex(n), LastTerm(n.log))
  }

  /** The RequestVote handler. */
  function RequestVote(n: Node, a: VoteArgs): (Node, VoteReply)
    requires WellFormed(n)
  {
    if a.term < n.term then (n, VoteReply(n.term, false))
    else
      var m := if a.term > n.term then ToFollower(n, a.term) else n;
      var grant := (m.votedFor == -1 || m.votedFor == a.candidate)
          && AtLeastAsUpToDate(a.lastIndex, a.lastTerm, LastIndex(m), LastTerm(m.log));
      var v := if grant then m.(votedFor := a.candidate) else m;
      (if grant || a.term > n.term then Persist(v) else v, VoteReply(v.term, grant))
  }

  /** What sendRequestVote does with a reply; `ticking` says whether the ticker is receptive to winElectCh. */
  function VoteReplied(n: Node, peer: nat, a: VoteArgs, r: VoteReply, ticking: bool): Node {
    if n.role != Candidate || a.term != n.term then n
    else if r.term > n.term then Persist(ToFollower(n, r.term))
    else
      var m := n.(answered := n.answered + {peer});
      if !r.granted then m
      else m.(voteCount := n.voteCount + 1, won := n.won || (ticking && n.voteCount + 1 > n.peers / 2))
  }

  /** convertToLeader, without the broadcast. */
  function TakeOffice(n: Node): Node {
    if n.role != Candidate then n.(won := false)
    else n.(role := Leader, won := false,
            nextIndex := seq(n.peers, _ => LastIndex(n) + 1),
            matchIndex := seq(n.peers, _ => 0))
  }

  // ---------------------------------------------------------------- replication

  /** Start: the peer's new state and the triple (index, term, isLeader) the caller sees. */
  function Start(n: Node, command: Command): (Node, (int, int, bool)) {
    if n.role != Leader then (n, (-1, -1, false))
    else
      var m := Persist(n.(log := n.log + [Entry(n.term, command)]));
      (m, (LastIndex(m), n.term, true))
  }

  /** broadcastHeartbeat reads log[nextIndex-1..]; a larger nextIndex is an out-of-range slice in Go. */
  predicate CanSendTo(n: Node, peer: nat) {
    peer < |n.nextIndex| && n.snap < n.nextIndex[peer] <= LastIndex(n) + 1
  }

  /** The arguments broadcastHeartbeat sends to one peer. */
  function AppendRequestFor(n: Node, peer: nat): AppendArgs
    requires CanSendTo(n, peer)
  {
    var at := ToLogIndex(n, n.nextIndex[peer]);
    AppendArgs(n.term, n.me, n.nextIndex[peer] - 1, n.log[at - 1].term, n.log[at..], n.commitIndex)
  }

  /** The downward scan over entries of the conflicting term: the first index at or below `i` not of term `t`, or 0. */
  function ScanBack(log: seq<Entry>, i: int, t: int): (r: int)
    requires 0 <= i < |log|
    ensures 0 <= r <= i
    ensures forall k :: r < k <= i ==> log[k].term == t
    ensures r == 0 || log[r].term != t
  {
    if i > 0 && log[i].term == t then ScanBack(log, i - 1, t) else i
  }

  /** How many of `entries` agree in term with `log` from index `i` on, from step `j`. */
  function Agreement(log: seq<Entry>, i: int, entries: seq<Entry>, j: int): (r: int)
    requires 0 <= i <= |log| && 0 <= j <= |entries| && i + j <= |log|
    ensures j <= r <= |entries| && i + r <= |log|
    ensures forall k :: j <= k < r ==> log[i + k].term == entries[k].term
    ensures r == |entries| || i + r == |log| || log[i + r].term != entries[r].term
    decreases |entries| - j
  {
    if i + j < |log| && j < |entries| && log[i + j].term == entries[j].term
    then Agreement(log, i, entries, j + 1)
    else j
  }

  /** The AppendEntries handler. */
  function AppendEntries(n: Node, a: AppendArgs): (Node, AppendReply)
    requires WellFormed(n)
  {
    if a.term < n.term then (n, AppendReply(n.term, 0, 0, false))
    else if a.term > n.term then Merge(ToFollower(n, a.term), a, true)
    else Merge(n, a, false)
  }

  /** The handler from the consistency check on; `changed` says whether persistent state has already changed. */
  function Merge(n: Node, a: AppendArgs, changed: bool): (Node, AppendReply)
    requires WellFormed(n)
  {
    var at := ToLogIndex(n, a.prevIndex);
    var same := if changed then Persist(n) else n;
    if a.prevIndex > LastIndex(n) then (same, AppendReply(n.term, LastIndex(n) + 1, -1, false))
    else if at < 0 || (at == 0 && n.log[at].term != a.prevTerm) then (same, AppendReply(n.term, 0, -1, false))
    else if n.log[at].term != a.prevTerm then
      var stop := ScanBack(n.log, at, n.log[at].term);
      (same, AppendReply(n.term, ToOriginalIndex(n, stop + 1), n.log[at].term, false))
    else (Overwrite(n, a, at, changed), AppendReply(n.term, n.snap + |Spliced(n.log, at, a.entries)|, -1, true))
  }

  /** The log cut after the entries that agree with `entries`, followed by the others; what was beyond is lost. */
  function Spliced(log: seq<Entry>, at: int, entries: seq<Entry>): seq<Entry>
    requires 0 <= at < |log|
  {
    var j := Agreement(log, at + 1, entries, 0);
    log[..at + 1 + j] + entries[j..]
  }

  function Overwrite(n: Node, a: AppendArgs, at: int, changed: bool): Node
    requires WellFormed(n) && 0 <= at < |n.log|
  {
    var j := Agreement(n.log, at + 1, a.entries, 0);
    var m := n.(log := Spliced(n.log, at, a.entries));
    var p := if changed || at + 1 + j < |n.log| || j < |a.entries| then Persist(m) else m;
    if a.commit > p.commitIndex then p.(commitIndex := Min(a.commit, LastIndex(p))) else p
  }

  lemma AppendKeepsShape(n: Node, a: AppendArgs)
    requires WellFormed(n)
    ensures var n' := AppendEntries(n, a).0; WellFormed(n') && n'.me == n.me && n'.peers == n.peers
  {
  }

  function Min(x: int, y: int): int {
    if x < y then x else y
  }

  /** The leader's scan for its last entry of term `t` at or below `i`; 0 or less when there is none. */
  function FindTerm(log: seq<Entry>, i: int, t: int): (r: int)
    requires i < |log|
    ensures r <= i && (i >= 0 ==> 0 <= r) && (i <= 0 ==> r == i)
    ensures forall k :: r < k <= i && 0 < k ==> log[k].term != t
    ensures r > 0 ==> log[r].term == t
  {
    if i > 0 && log[i].term != t then FindTerm(log, i - 1, t) else i
  }

  /** How many peers below `k`, other than `me`, have a match index of at least `index`. */
  function CountMatches(match_: seq<int>, me: nat, index: int, k: nat): (r: nat)
    requires k <= |match_|
    ensures r <= k
  {
    if k == 0 then 0
    else CountMatches(match_, me, index, k - 1) + if k - 1 != me && match_[k - 1] >= index then 1 else 0
  }

  /** The commit scan at log position `k`, going down to the committed position. */
  function CommitScan(n: Node, k: int): (r: int)
    requires WellFormed(n) && k < |n.log|
    decreases k + 1
  {
    if k <= ToLogIndex(n, n.commitIndex) || k < 0 || n.log[k].term < n.term then n.commitIndex
    else
      var count := 1 + if n.log[k].term == n.term then CountMatches(n.matchIndex, n.me, ToOriginalIndex(n, k), n.peers)
          else 0;
      if count > n.peers / 2 then ToOriginalIndex(n, k) else CommitScan(n, k - 1)
  }

  /** The rejected-append scan reads log[PrevLogIndex]; a larger index is out of range in Go. */
  predicate CanReadReply(n: Node, peer: nat, a: AppendArgs) {
    peer < n.peers && a.prevIndex <= LastIndex(n)
  }

  /** A reply of the leader's own term is taken into account; others change at most the term. */
  predicate TakesReply(n: Node, a: AppendArgs, r: AppendReply) {
    n.role == Leader && a.term >= n.term && r.term == n.term
  }

  /** Only a rejection that names a term makes the leader read its log. */
  predicate CanProgress(n: Node, peer: nat, a: AppendArgs, r: AppendReply) {
    peer < n.peers && (r.success || r.xTerm == -1 || a.prevIndex <= LastIndex(n))
  }

  /** The new nextIndex and matchIndex slots of `peer`. */
  function Progress(n: Node, peer: nat, a: AppendArgs, r: AppendReply): (int, int)
    requires WellFormed(n) && CanProgress(n, peer, a, r)
  {
    if r.success then (r.xIndex, r.xIndex - 1)
    else if r.xTerm == -1 then (r.xIndex, n.matchIndex[peer])
    else
      var idx := FindTerm(n.log, ToLogIndex(n, a.prevIndex), r.xTerm);
      if idx == 0 || ToOriginalIndex(n, idx) < r.xIndex then (r.xIndex, n.matchIndex[peer])
      else (ToOriginalIndex(n, idx + 1), ToOriginalIndex(n, idx))
  }

  /** What sendAppendEntries does with a reply. */
  function AppendReplied(n: Node, peer: nat, a: AppendArgs, r: AppendReply): Node
    requires WellFormed(n) && (TakesReply(n, a, r) ==> CanProgress(n, peer, a, r))
  {
    if n.role != Leader || a.term < n.term || r.term < n.term then n
    else if r.term > n.term then Persist(ToFollower(n, r.term))
    else
      var (next, mtch) := Progress(n, peer, a, r);
      var m := n.(nextIndex := n.nextIndex[peer := next], matchIndex := n.matchIndex[peer := mtch]);
      m.(commitIndex := CommitScan(m, |m.log| - 1))
  }

  // ---------------------------------------------------------------- persistence and compaction

  /** What readPersist restores; a blank persister leaves the fields Make gave. */
  function Recovered(d: Disk): (int, int, seq<Entry>, nat) {
    match d
    case Blank => (0, -1, [SENTINEL], 0)
    case Saved(term, votedFor, log, snap) => (term, votedFor, log, snap)
  }

  /** Make on a given persister: the state of a peer that has just (re)started. */
  function Boot(me: nat, peers: nat, d: Disk): Node {
    var (term, votedFor, log, snap) := Recovered(d);
    Node(me, peers, term, votedFor, log, snap, snap,
         seq(peers, _ => snap + |log|), seq(peers, _ => 0), Follower, 0, {}, false, d)
  }

  /** Snapshot(index): drop the entries before `index` and clear the command of the new head. */
  function Snapshot(n: Node, index: int): Node
    requires WellFormed(n)
  {
    if index <= n.snap || index > LastIndex(n) then n
    else
      var kept := n.log[index - n.snap..];
      Persist(n.(snap := index, log := kept[0 := kept[0].(command := Nil)]))
  }
}
