/** The MapReduce coordinator: task states and counters, the handlers that change them, and the timers. */
module Coordinator {

  datatype TaskState = Pending | InProgress | Done

  /** The two slices of tasks and the two counters. The number of reduce tasks is that of the second slice. */
  datatype Tasks = Tasks(maps: seq<TaskState>, reduces: seq<TaskState>, done1: int, done2: int)

  datatype Kind = Map | Reduce

  /** What GetTask finds at one scan of the tasks; `Wait` means it goes on scanning. */
  datatype Offer = Task(kind: Kind, id: nat) | None | Wait

  function NewTasks(nMap: nat, nReduce: nat): Tasks {
    Tasks(seq(nMap, _ => Pending), seq(nReduce, _ => Pending), 0, 0)
  }

  function States(t: Tasks, kind: Kind): seq<TaskState> {
    if kind == Map then t.maps else t.reduces
  }

  function WithState(t: Tasks, kind: Kind, id: nat, s: TaskState): Tasks
    requires id < |States(t, kind)|
  {
    if kind == Map then t.(maps := t.maps[id := s]) else t.(reduces := t.reduces[id := s])
  }

  /** The critical section of GetTask: a task that is still pending is taken. */
  function Claim(t: Tasks, kind: Kind, id: nat): Tasks {
    if id < |States(t, kind)| && States(t, kind)[id] == Pending then WithState(t, kind, id, InProgress) else t
  }

  /** CompleteTask: only a task in progress becomes done and is counted. */
  function Complete(t: Tasks, kind: Kind, id: nat): Tasks {
    if id < |States(t, kind)| && States(t, kind)[id] == InProgress then
      var t' := WithState(t, kind, id, Done);
      if kind == Map then t'.(done1 := t.done1 + 1) else t'.(done2 := t.done2 + 1)
    else t
  }

  /** The end of startTimer. */
  function TimedOut(t: Tasks, kind: Kind, id: nat): Tasks {
    if id < |States(t, kind)| && States(t, kind)[id] == InProgress then WithState(t, kind, id, Pending) else t
  }

  predicate MapsOver(t: Tasks) {
    t.done1 >= |t.maps|
  }

  predicate ReducesOver(t: Tasks) {
    t.done2 >= |t.reduces|
  }

  /** Done. */
  predicate JobDone(t: Tasks) {
    t.done2 == |t.reduces|
  }

  function FirstPending(states: seq<TaskState>, i: nat): (r: nat)
    requires i <= |states|
    ensures i <= r <= |states|
    ensures forall k :: i <= k < r ==> states[k] != Pending
    ensures r < |states| ==> states[r] == Pending
    decreases |states| - i
  {
    if i < |states| && states[i] != Pending then FirstPending(states, i + 1) else i
  }

  /** What one pass of GetTask does when nothing else moves: maps first, reduces only once every map is counted. */
  function Offered(t: Tasks): Offer {
    if !MapsOver(t) then
      var i := FirstPending(t.maps, 0);
      if i < |t.maps| then Task(Map, i) else Wait
    else if !ReducesOver(t) then
      var i := FirstPending(t.reduces, 0);
      if i < |t.reduces| then Task(Reduce, i) else Wait
    else None
  }

  // ---------------------------------------------------------------- the counters

  function CountDone(states: seq<TaskState>): (r: nat)
    ensures r <= |states|
  {
    if states == [] then 0
    else CountDone(states[..|states| - 1]) + if states[|states| - 1] == Done then 1 else 0
  }

  /** done1 and done2 are the numbers of tasks in state "done". */
  predicate Counted(t: Tasks) {
    t.done1 == CountDone(t.maps) && t.done2 == CountDone(t.reduces)
  }

  lemma {:induction false} CountDoneUpdate(states: seq<TaskState>, i: nat, s: TaskState)
    requires i < |states|
    ensures CountDone(states[i := s]) ==
            CountDone(states) + (if s == Done then 1 else 0) - (if states[i] == Done then 1 else 0)
  {
    var n := |states| - 1;
    if i < n {
      CountDoneUpdate(states[..n], i, s);
      assert states[i := s][..n] == states[..n][i := s];
    } else {
      assert states[i := s][..n] == states[..n];
    }
  }

  lemma {:induction false} CountDoneAll(states: seq<TaskState>)
    ensures CountDone(states) == |states| <==> forall i :: 0 <= i < |states| ==> states[i] == Done
  {
    if states != [] {
      var front := states[..|states| - 1];
      CountDoneAll(front);
      if CountDone(states) == |states| {
        assert forall i :: 0 <= i < |front| ==> states[i] == front[i];
      }
      if forall i :: 0 <= i < |states| ==> states[i] == Done {
        assert states[|states| - 1] == Done;
      }
    }
  }

  lemma {:induction false} NewCounted(n: nat)
    ensures CountDone(seq(n, _ => Pending)) == 0
  {
    if n > 0 {
      NewCounted(n - 1);
      assert seq(n, _ => Pending)[..n - 1] == seq(n - 1, _ => Pending);
    }
  }

  /**
   Whatever happens to the tasks, the counters stay right, no task is undone, and a claim takes only a pending task.
   */
  lemma ActionsKeepCount(t: Tasks, kind: Kind, id: nat, t': Tasks)
    requires Counted(t) && t' in [Claim(t, kind, id), Complete(t, kind, id), TimedOut(t, kind, id)]
    ensures Counted(t') && |t'.maps| == |t.maps| && |t'.reduces| == |t.reduces|
    ensures forall i :: 0 <= i < |t.maps| && t.maps[i] == Done ==> t'.maps[i] == Done
    ensures forall i :: 0 <= i < |t.reduces| && t.reduces[i] == Done ==> t'.reduces[i] == Done
    ensures t'.done1 >= t.done1 && t'.done2 >= t.done2
  {
    if id < |States(t, kind)| {
      var s := States(t', kind)[id];
      CountDoneUpdate(States(t, kind), id, s);
      assert States(t, kind)[id := States(t, kind)[id]] == States(t, kind);
    }
  }

  /**
   The job is over exactly when every reduce task is done; GetTask passes on to reduce tasks exactly when every map
   task is.
   */
  lemma OverIffAllDone(t: Tasks)
    requires Counted(t)
    ensures JobDone(t) <==> ReducesOver(t)
    ensures JobDone(t) <==> forall i :: 0 <= i < |t.reduces| ==> t.reduces[i] == Done
    ensures MapsOver(t) <==> forall i :: 0 <= i < |t.maps| ==> t.maps[i] == Done
  {
    CountDoneAll(t.maps);
    CountDoneAll(t.reduces);
  }

  // ---------------------------------------------------------------- what GetTask may answer, and what the actions do

  predicate AllDone(states: seq<TaskState>) {
    forall i :: 0 <= i < |states| ==> states[i] == Done
  }

  predicate NonePending(states: seq<TaskState>) {
    forall i :: 0 <= i < |states| ==> states[i] != Pending
  }

  /**
   A task is offered if it is the first pending one of the current phase, which is that of the reduce tasks once every
   map task is done; a worker waits if the phase has unfinished tasks but none pending, and is dismissed if all are
   done.
   */
  predicate Fitting(t: Tasks, o: Offer) {
    match o
    case Task(kind, id) =>
      && id < |States(t, kind)| && States(t, kind)[id] == Pending && NonePending(States(t, kind)[..id])
      && (kind == Reduce ==> AllDone(t.maps))
    case Wait =>
      var states := if AllDone(t.maps) then t.reduces else t.maps;
      !AllDone(states) && NonePending(states)
    case None => AllDone(t.maps) && AllDone(t.reduces)
  }

  /** With the counters right, the fitting answer is the one GetTask gives, and the only one. */
  lemma OfferedFits(t: Tasks, o: Offer)
    requires Counted(t)
    ensures o == Offered(t) <==> Fitting(t, o)
  {
    OverIffAllDone(t);
    var i, j := FirstPending(t.maps, 0), FirstPending(t.reduces, 0);
    if o.Task? && Fitting(t, o) {
      var states := States(t, o.kind);
      FirstIs(states, o.id);
      assert o.kind == Map ==> !AllDone(t.maps);
    }
  }

  lemma FirstIs(states: seq<TaskState>, i: nat)
    requires i < |states| && states[i] == Pending && NonePending(states[..i])
    ensures FirstPending(states, 0) == i
  {
    assert forall k :: 0 <= k < i ==> states[k] == states[..i][k];
  }

  /**
   The three actions, task by task: each moves the one task it names, from the one state it expects, and only a
   completion moves a counter.
   */
  lemma ActionEffects(t: Tasks, kind: Kind, id: nat, other: Kind, i: nat)
    requires i < |States(t, other)|
    ensures var was, hit := States(t, other)[i], other == kind && i == id;
            var t1, t2, t3 := Claim(t, kind, id), Complete(t, kind, id), TimedOut(t, kind, id);
            && |States(t1, other)| == |States(t2, other)| == |States(t3, other)| == |States(t, other)|
            && States(t1, other)[i] == (if hit && was == Pending then InProgress else was)
            && States(t2, other)[i] == (if hit && was == InProgress then Done else was)
            && States(t3, other)[i] == (if hit && was == InProgress then Pending else was)
            && (t1.done1, t1.done2) == (t3.done1, t3.done2) == (t.done1, t.done2)
            && (hit ==> (t2.done1 - t.done1, t2.done2 - t.done2) ==
                        if was != InProgress then (0, 0) else if kind == Map then (1, 0) else (0, 1))
  {
  }

  // ---------------------------------------------------------------- the coordinator

  class Coordinator {
    const maptasks: array<TaskState>
    const reducetasks: array<TaskState>
    var done1: int
    var done2: int

    /** MakeCoordinator makes two separate slices. */
    ghost predicate Valid() {
      maptasks != reducetasks
    }

    ghost function State(): Tasks
      reads this, maptasks, reducetasks
    {
      Tasks(maptasks[..], reducetasks[..], done1, done2)
    }

    constructor (nMap: nat, nReduce: nat)
      ensures Valid() && fresh(maptasks) && fresh(reducetasks) && State() == NewTasks(nMap, nReduce)
    {
      var ms := new TaskState[nMap](_ => Pending);
      var rs := new TaskState[nReduce](_ => Pending);
      maptasks, reducetasks, done1, done2 := ms, rs, 0, 0;
      new;
      assert maptasks[..] == seq(nMap, _ => Pending) && reducetasks[..] == seq(nReduce, _ => Pending);
    }

    /** One pass of GetTask over the tasks, with nothing else going on meanwhile. */
    method GetTask() returns (reply: Offer)
      requires Valid()
      modifies maptasks, reducetasks
      ensures reply == Offered(old(State()))
      ensures State() == if reply.Task? then Claim(old(State()), reply.kind, reply.id) else old(State())
      ensures Counted(old(State())) ==> Fitting(old(State()), reply)
    {
      if done1 == CountDone(maptasks[..]) && done2 == CountDone(reducetasks[..]) {
        OfferedFits(State(), Offered(State()));
      }
      if done1 < maptasks.Length {
        var i := 0;
        while i < maptasks.Length
          invariant 0 <= i <= maptasks.Length
          invariant State() == old(State())
          invariant FirstPending(maptasks[..], i) == FirstPending(maptasks[..], 0)
        {
          if maptasks[i] == Pending {
            maptasks[i] := InProgress;
            assert maptasks[..] == old(maptasks[..])[i := InProgress];
            return Task(Map, i);
          }
          i := i + 1;
        }
        return Wait;
      }
      if done2 < reducetasks.Length {
        var i := 0;
        while i < reducetasks.Length
          invariant 0 <= i <= reducetasks.Length
          invariant State() == old(State())
          invariant FirstPending(reducetasks[..], i) == FirstPending(reducetasks[..], 0)
        {
          if reducetasks[i] == Pending {
            reducetasks[i] := InProgress;
            assert reducetasks[..] == old(reducetasks[..])[i := InProgress];
            return Task(Reduce, i);
          }
          i := i + 1;
        }
        return Wait;
      }
      return None;
    }

    method CompleteTask(kind: Kind, id: nat)
      requires Valid()
      modifies this, maptasks, reducetasks
      ensures State() == Complete(old(State()), kind, id)
    {
      if kind == Map {
        if id < maptasks.Length && maptasks[id] == InProgress {
          maptasks[id] := Done;
          done1 := done1 + 1;
        }
      } else {
        if id < reducetasks.Length && reducetasks[id] == InProgress {
          reducetasks[id] := Done;
          done2 := done2 + 1;
        }
      }
      assert maptasks[..] == Complete(old(State()), kind, id).maps;
      assert reducetasks[..] == Complete(old(State()), kind, id).reduces;
    }

    method Timer(kind: Kind, id: nat)
      requires Valid()
      modifies maptasks, reducetasks
      ensures State() == TimedOut(old(State()), kind, id)
    {
      var tasks := if kind == Map then maptasks else reducetasks;
      if id < tasks.Length && tasks[id] == InProgress {
        tasks[id] := Pending;
      }
      assert maptasks[..] == TimedOut(old(State()), kind, id).maps;
      assert reducetasks[..] == TimedOut(old(State()), kind, id).reduces;
    }

    method IsDone() returns (ret: bool)
      ensures ret == JobDone(State())
    {
      ret := done2 == reducetasks.Length;
    }
  }
}
