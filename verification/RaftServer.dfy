/**
 One Raft peer as the program has it: an object whose handlers update its fields in place. Every method is proved to do
 to the fields what the pure step of RaftNode does to the value, so what is proved of runs of those steps holds of runs
 of these methods.
 */
module RaftServer {
  import opened RaftNode

  /** What broadcastHeartbeat sends to a peer: an append, or the snapshot, whose transfer is not modelled. */
  datatype Outgoing = Append(args: AppendArgs) | SnapshotOffer(term: int, lastIncludedIndex: int, lastIncludedTerm: int)

  /** What an accepted append does, given how many of its entries are there already. */
  lemma OverwriteIs(n: Node, a: AppendArgs, at: int, changed: bool, j: int)
    requires WellFormed(n) && 0 <= at < |n.log| && j == Agreement(n.log, at + 1, a.entries, 0)
    ensures Spliced(n.log, at, a.entries) == n.log[..at + 1 + j] + a.entries[j..]
    ensures var log := n.log[..at + 1 + j] + a.entries[j..];
            var saves := changed || at + 1 + j < |n.log| || j < |a.entries|;
            Overwrite(n, a, at, changed) ==
            n.(log := log,
               disk := if saves then Saved(n.term, n.votedFor, log, n.snap) else n.disk,
               commitIndex := if a.commit > n.commitIndex then Min(a.commit, n.snap + |log| - 1) else n.commitIndex)
  {
    hide Agreement;
  }

  class Raft {
    const me: nat
    const peers: nat
    var currentTerm: int
    var votedFor: int
    var log: seq<Entry>
    var lastSnapshotIndex: nat
    var commitIndex: int
    var nextIndex: array<int>
    var matchIndex: array<int>
    var state: Role
    var voteCount: nat
    var persister: Disk
    ghost var answered: set<nat>
    ghost var won: bool

    /** The fields as a value. */
    ghost function State(): Node
      reads this, nextIndex, matchIndex
    {
      Node(me, peers, currentTerm, votedFor, log, lastSnapshotIndex, commitIndex, nextIndex[..], matchIndex[..],
           state, voteCount, answered, won, persister)
    }

    ghost predicate Valid()
      reads this, nextIndex, matchIndex
    {
      WellFormed(State()) && nextIndex != matchIndex
    }

    /** Make: a peer on what its persister holds, for a first start and for every restart. */
    constructor (id: nat, n: nat, disk: Disk)
      requires id < n && (disk.Saved? ==> |disk.log| >= 1)
      ensures Valid() && State() == Boot(id, n, disk) && fresh(nextIndex) && fresh(matchIndex)
    {
      var term, vote, entries, trimmed: nat := 0, -1, [SENTINEL], 0;
      if disk.Saved? {
        term, vote, entries, trimmed := disk.term, disk.votedFor, disk.log, disk.snap;
      }
      me, peers, persister := id, n, disk;
      currentTerm, votedFor, log, lastSnapshotIndex := term, vote, entries, trimmed;
      commitIndex := trimmed;
      nextIndex := new int[n](_ => trimmed + |entries|);
      matchIndex := new int[n](_ => 0);
      state, voteCount, answered, won := Follower, 0, {}, false;
      new;
      assert nextIndex[..] == seq(n, _ => trimmed + |entries|);
      assert matchIndex[..] == seq(n, _ => 0);
    }

    method Persist()
      requires Valid()
      modifies this`persister
      ensures Valid() && State() == RaftNode.Persist(old(State()))
    {
      persister := Saved(currentTerm, votedFor, log, lastSnapshotIndex);
    }

    method ConvertToFollower(term: int)
      requires Valid()
      modifies this`state, this`currentTerm, this`votedFor, this`voteCount
      ensures Valid() && State() == ToFollower(old(State()), term)
    {
      state, currentTerm, votedFor, voteCount := Follower, term, -1, 0;
    }

    function GetLastIndex(): (r: int)
      reads this, nextIndex, matchIndex
      requires Valid()
      ensures r == LastIndex(State())
    {
      lastSnapshotIndex + |log| - 1
    }

    // -------------------------------------------------------------- elections

    method ConvertToCandidate()
      requires Valid()
      modifies this
      ensures Valid() && State() == Campaign(old(State())) && nextIndex == old(nextIndex)
              && matchIndex == old(matchIndex)
    {
      if state == Leader {
        return;
      }
      state, currentTerm, votedFor, voteCount := Candidate, currentTerm + 1, me, 1;
      answered := {me};
      Persist();
    }

    /** One set of arguments for every other peer. */
    method BroadcastRequestVote() returns (out: map<nat, VoteArgs>)
      requires Valid()
      ensures forall i: nat :: i in out <==> state == Candidate && i < peers && i != me
      ensures forall i: nat :: i in out ==> out[i] == VoteRequestOf(State())
    {
      out := map[];
      if state != Candidate {
        return;
      }
      var args := VoteArgs(currentTerm, me, lastSnapshotIndex + |log| - 1, log[|log| - 1].term);
      for i := 0 to peers
        invariant forall k: nat :: k in out <==> k < i && k != me
        invariant forall k: nat :: k in out ==> out[k] == args
      {
        if i != me {
          out := out[i := args];
        }
      }
    }

    method RequestVote(a: VoteArgs) returns (reply: VoteReply)
      requires Valid()
      modifies this
      ensures Valid() && (State(), reply) == RaftNode.RequestVote(old(State()), a)
      ensures nextIndex == old(nextIndex) && matchIndex == old(matchIndex)
    {
      if a.term < currentTerm {
        return VoteReply(currentTerm, false);
      }
      var changed := false;
      if a.term > currentTerm {
        ConvertToFollower(a.term);
        changed := true;
      }
      var granted := false;
      var myTerm, myIndex := log[|log| - 1].term, lastSnapshotIndex + |log| - 1;
      var upToDate := a.lastTerm > myTerm || (a.lastTerm == myTerm && a.lastIndex >= myIndex);
      if (votedFor == -1 || votedFor == a.candidate) && upToDate {
        granted := true;
        votedFor := a.candidate;
        changed := true;
      }
      if changed {
        Persist();
      }
      return VoteReply(currentTerm, granted);
    }

    /** The end of sendRequestVote. */
    method HandleVoteReply(peer: nat, a: VoteArgs, r: VoteReply, ticking: bool)
      requires Valid()
      modifies this
      ensures Valid() && State() == VoteReplied(old(State()), peer, a, r, ticking)
      ensures nextIndex == old(nextIndex) && matchIndex == old(matchIndex)
    {
      if state != Candidate || a.term != currentTerm {
        return;
      }
      if r.term > currentTerm {
        ConvertToFollower(r.term);
        Persist();
        return;
      }
      answered := answered + {peer};
      if r.granted {
        voteCount := voteCount + 1;
        if voteCount > peers / 2 {
          won := won || ticking;
        }
      }
    }

    /** Makes new index slices and fills them in. */
    method ConvertToLeader()
      requires Valid()
      modifies this
      ensures Valid() && State() == TakeOffice(old(State()))
      ensures state == Leader && old(state) == Candidate ==> fresh(nextIndex) && fresh(matchIndex)
    {
      won := false;
      if state != Candidate {
        return;
      }
      state := Leader;
      nextIndex, matchIndex := NewIndexes(lastSnapshotIndex + |log|);
    }

    /** The two slices a new leader makes, filled in by one loop over the peers. */
    method NewIndexes(lastIndex: int) returns (next: array<int>, mtch: array<int>)
      ensures fresh(next) && fresh(mtch) && next != mtch
      ensures next[..] == seq(peers, _ => lastIndex) && mtch[..] == seq(peers, _ => 0)
    {
      next := new int[peers];
      mtch := new int[peers];
      for i := 0 to peers
        invariant forall k :: 0 <= k < i ==> next[k] == lastIndex && mtch[k] == 0
      {
        next[i] := lastIndex;
        mtch[i] := 0;
      }
    }

    // -------------------------------------------------------------- replication

    method Start(command: Command) returns (index: int, term: int, isLeader: bool)
      requires Valid()
      modifies this
      ensures Valid() && (State(), (index, term, isLeader)) == RaftNode.Start(old(State()), command)
      ensures nextIndex == old(nextIndex) && matchIndex == old(matchIndex)
    {
      if state != Leader {
        return -1, -1, false;
      }
      log := log + [Entry(currentTerm, command)];
      Persist();
      return lastSnapshotIndex + |log| - 1, currentTerm, true;
    }

    /** An append for every other peer, or the snapshot for one that needs entries already trimmed. */
    method BroadcastHeartbeat() returns (out: map<nat, Outgoing>)
      requires Valid()
      requires forall i :: 0 <= i < peers && i != me ==> nextIndex[i] <= LastIndex(State()) + 1
      ensures forall i: nat :: i in out <==> state == Leader && i < peers && i != me
      ensures forall i: nat :: i in out ==>
                out[i] == if nextIndex[i] <= lastSnapshotIndex
                    then SnapshotOffer(currentTerm, lastSnapshotIndex, log[0].term)
                          else Append(AppendRequestFor(State(), i))
    {
      out := map[];
      if state != Leader {
        return;
      }
      for i := 0 to peers
        invariant forall k: nat :: k in out <==> k < i && k != me
        invariant forall k: nat :: k in out ==>
                    out[k] == if nextIndex[k] <= lastSnapshotIndex
                        then SnapshotOffer(currentTerm, lastSnapshotIndex, log[0].term)
                              else Append(AppendRequestFor(State(), k))
      {
        if i != me {
          if nextIndex[i] <= lastSnapshotIndex {
            out := out[i := SnapshotOffer(currentTerm, lastSnapshotIndex, log[0].term)];
          } else {
            var at := nextIndex[i] - lastSnapshotIndex;
            out := out[i := Append(AppendArgs(currentTerm, me, nextIndex[i] - 1, log[at - 1].term, log[at..],
                                              commitIndex))];
          }
        }
      }
    }

    method AppendEntries(a: AppendArgs) returns (reply: AppendReply)
      requires Valid()
      modifies this
      ensures Valid() && (State(), reply) == RaftNode.AppendEntries(old(State()), a)
      ensures nextIndex == old(nextIndex) && matchIndex == old(matchIndex)
    {
      if a.term < currentTerm {
        return AppendReply(currentTerm, 0, 0, false);
      }
      var changed := false;
      if a.term > currentTerm {
        ConvertToFollower(a.term);
        changed := true;
      }
      reply := MergeEntries(a, changed);
    }

    /** The handler from the consistency check on. */
    method MergeEntries(a: AppendArgs, changed: bool) returns (reply: AppendReply)
      requires Valid()
      modifies this
      ensures Valid() && (State(), reply) == Merge(old(State()), a, changed)
      ensures nextIndex == old(nextIndex) && matchIndex == old(matchIndex)
    {
      hide Overwrite, Spliced, ScanBack;
      var lastIndex := GetLastIndex();
      var logIndex := ToLogIndexHere(a.prevIndex);
      if a.prevIndex > lastIndex || logIndex < 0 || log[logIndex].term != a.prevTerm {
        if a.prevIndex > lastIndex {
          reply := AppendReply(currentTerm, lastIndex + 1, -1, false);
        } else if logIndex <= 0 {
          reply := AppendReply(currentTerm, 0, -1, false);
        } else {
          var cfTerm := log[logIndex].term;
          var stop := ConflictStart(logIndex, cfTerm);
          reply := AppendReply(currentTerm, lastSnapshotIndex + stop + 1, cfTerm, false);
        }
        if changed {
          Persist();
        }
        return;
      }
      ReplaceSuffix(a, logIndex, changed);
      reply := AppendReply(currentTerm, lastSnapshotIndex + |log|, -1, true);
    }

    function ToLogIndexHere(index: int): (r: int)
      reads this, nextIndex, matchIndex
      requires Valid()
      ensures r == ToLogIndex(State(), index)
    {
      if index < lastSnapshotIndex then -1 else index - lastSnapshotIndex
    }

    function ToOriginalIndexHere(index: int): (r: int)
      reads this, nextIndex, matchIndex
      requires Valid()
      ensures r == ToOriginalIndex(State(), index)
    {
      if index < 0 then -1 else lastSnapshotIndex + index
    }

    method ConflictStart(at: int, cfTerm: int) returns (logIndex: int)
      requires 0 <= at < |log|
      ensures logIndex == ScanBack(log, at, cfTerm)
    {
      logIndex := at;
      while logIndex > 0 && log[logIndex].term == cfTerm
        invariant 0 <= logIndex <= at
        invariant ScanBack(log, logIndex, cfTerm) == ScanBack(log, at, cfTerm)
      {
        logIndex := logIndex - 1;
      }
    }

    /** The loop over the log from `at` on and the entries side by side. */
    method CountAgreeing(at: int, entries: seq<Entry>) returns (j: int)
      requires 0 <= at < |log|
      ensures j == Agreement(log, at + 1, entries, 0)
    {
      var i := at + 1;
      j := 0;
      while i < |log| && j < |entries|
        invariant i == at + 1 + j && j <= |entries| && i <= |log|
        invariant Agreement(log, at + 1, entries, j) == Agreement(log, at + 1, entries, 0)
      {
        if log[i].term != entries[j].term {
          break;
        }
        i, j := i + 1, j + 1;
      }
    }

    /** Keeps the entries that agree, replaces the rest, and raises the commit index. */
    method ReplaceSuffix(a: AppendArgs, at: int, changed: bool)
      requires Valid() && 0 <= at < |log|
      modifies this
      ensures Valid() && State() == Overwrite(old(State()), a, at, changed)
      ensures nextIndex == old(nextIndex) && matchIndex == old(matchIndex)
      ensures log == Spliced(old(log), at, a.entries) && lastSnapshotIndex == old(lastSnapshotIndex)
              && currentTerm == old(currentTerm)
    {
      hide Overwrite, Spliced;
      var j := CountAgreeing(at, a.entries);
      var i := at + 1 + j;
      OverwriteIs(State(), a, at, changed, j);
      var persisting := changed || i < |log| || j < |a.entries|;
      log := log[..i];
      log := log + a.entries[j..];
      if persisting {
        Persist();
      }
      if a.commit > commitIndex {
        commitIndex := if a.commit < GetLastIndex() then a.commit else GetLastIndex();
      }
    }

    /** The end of sendAppendEntries. */
    method HandleAppendReply(peer: nat, a: AppendArgs, r: AppendReply)
      requires Valid() && (TakesReply(State(), a, r) ==> CanProgress(State(), peer, a, r))
      modifies this, nextIndex, matchIndex
      ensures Valid() && State() == AppendReplied(old(State()), peer, a, r)
      ensures nextIndex == old(nextIndex) && matchIndex == old(matchIndex)
    {
      hide Progress, CommitScan;
      if state != Leader || a.term < currentTerm || r.term < currentTerm {
        return;
      }
      if r.term > currentTerm {
        ConvertToFollower(r.term);
        Persist();
        return;
      }
      StoreProgress(peer, a, r);
      AdvanceCommit();
    }

    /** Sets the peer's slots of nextIndex and matchIndex. */
    method StoreProgress(peer: nat, a: AppendArgs, r: AppendReply)
      requires Valid() && CanProgress(State(), peer, a, r)
      modifies nextIndex, matchIndex
      ensures Valid()
      ensures var (next, mtch) := Progress(old(State()), peer, a, r);
              State() == old(State()).(nextIndex := old(nextIndex[..])[peer := next],
                                       matchIndex := old(matchIndex[..])[peer := mtch])
    {
      if r.success {
        nextIndex[peer] := r.xIndex;
        matchIndex[peer] := r.xIndex - 1;
      } else if r.xTerm == -1 {
        nextIndex[peer] := r.xIndex;
      } else {
        var idx := ToLogIndexHere(a.prevIndex);
        while idx > 0 && log[idx].term != r.xTerm
          invariant idx < |log| && idx <= ToLogIndexHere(a.prevIndex)
          invariant FindTerm(log, idx, r.xTerm) == FindTerm(log, ToLogIndexHere(a.prevIndex), r.xTerm)
        {
          idx := idx - 1;
        }
        if idx == 0 || ToOriginalIndexHere(idx) < r.xIndex {
          nextIndex[peer] := r.xIndex;
        } else {
          nextIndex[peer] := ToOriginalIndexHere(idx + 1);
          matchIndex[peer] := ToOriginalIndexHere(idx);
        }
      }
      assert matchIndex[..] == old(matchIndex[..])[peer := Progress(old(State()), peer, a, r).1];
    }

    /** Looks for the last entry of the current term that a majority matches. */
    method AdvanceCommit()
      requires Valid()
      modifies this`commitIndex
      ensures Valid() && State() == old(State()).(commitIndex := CommitScan(old(State()), |log| - 1))
    {
      var commitIdx := ToLogIndexHere(commitIndex);
      var n := |log| - 1;
      while n > commitIdx
        invariant n < |log| && -1 <= commitIdx == ToLogIndex(State(), commitIndex)
        invariant State() == old(State())
        invariant CommitScan(State(), n) == CommitScan(State(), |log| - 1)
      {
        if log[n].term < currentTerm {
          return;
        }
        var count := 1;
        if log[n].term == currentTerm {
          var matches := CountPeers(lastSnapshotIndex + n);
          count := count + matches;
        }
        if count > peers / 2 {
          commitIndex := lastSnapshotIndex + n;
          return;
        }
        n := n - 1;
      }
    }

    /** The counting loop over the other peers. */
    method CountPeers(idx: int) returns (count: nat)
      requires Valid()
      ensures count == CountMatches(matchIndex[..], me, idx, peers)
    {
      count := 0;
      for i := 0 to peers
        invariant count == CountMatches(matchIndex[..], me, idx, i)
      {
        if i != me && matchIndex[i] >= idx {
          count := count + 1;
        }
      }
    }

    // -------------------------------------------------------------- compaction

    method Snapshot(index: int)
      requires Valid()
      modifies this
      ensures Valid() && State() == RaftNode.Snapshot(old(State()), index)
      ensures nextIndex == old(nextIndex) && matchIndex == old(matchIndex)
    {
      if index <= lastSnapshotIndex || index > GetLastIndex() {
        return;
      }
      var trimLen := index - lastSnapshotIndex;
      lastSnapshotIndex := index;
      log := log[trimLen..];
      log := log[0 := log[0].(command := Nil)];
      Persist();
    }
  }
}
