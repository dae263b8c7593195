/**
 What a worker gets from GetTask in the runs of MapReduce, and that whatever has happened to a job, it can still be
 finished: tasks of stopped workers time out and a new worker can run them.
 */
module MapReduceProgress {
  import opened Grouping
  import opened Coordinator
  import opened MapReduce

  lemma RunNext(job: Job, events: seq<Event>, e: Event)
    requires Runnable(job)
    ensures Run(job, events + [e]) == Next(job, Run(job, events), e) && events <= events + [e]
  {
    assert (events + [e])[..|events|] == events;
  }

  // ---------------------------------------------------------------- GetTask in the runs

  /**
   The answer that fits the tasks is what the events of a GetTask call do: the task goes to the worker and is in
   progress, or the worker is dismissed; and no other event of the call can happen when it has to wait.
   */
  lemma {:induction false} GetTaskIsEvents(job: Job, events: seq<Event>, k: nat, o: Offer)
    requires Runnable(job) && WorkerOf(Run(job, events), k).AtMaps? && Fitting(Run(job, events).tasks, o)
    ensures var s, past := Run(job, events), Next(job, Run(job, events), PassOn(k));
            match o
            case Task(Map, id) =>
              && id < |job.inputs|
              && (forall pairs | multiset(pairs) == multiset(MapOutput(job, id)) ::
                    Next(job, s, TakeMap(k, id, pairs))
                    == With(s.(tasks := Claim(s.tasks, Map, id)), k, Mapping(id, pairs, 0)))
            case Task(Reduce, id) =>
              id < job.nReduce && Next(job, past, TakeReduce(k, id))
              == With(s.(tasks := Claim(s.tasks, Reduce, id)), k, Reducing(id, 0, []))
            case None => Next(job, past, PassOn(k)) == With(s, k, Stopped)
            case Wait =>
              && past == (if AllDone(s.tasks.maps) then With(s, k, AtReduces) else s)
              && Next(job, past, PassOn(k)) == past
              && (forall id, pairs :: Next(job, past, TakeMap(k, id, pairs)) == past)
              && (forall id :: Next(job, past, TakeReduce(k, id)) == past)
  {
    RunOk(job, events);
    var s := Run(job, events);
    OverIffAllDone(s.tasks);
    assert With(With(s, k, AtReduces), k, Stopped) == With(s, k, Stopped);
  }

  /**
   In every run a task is taken only while it is pending, and a reduce task only when every map task is done; a worker
   is dismissed only when all tasks are.
   */
  lemma {:induction false} TakesFit(job: Job, events: seq<Event>, e: Event)
    requires Runnable(job)
    ensures var s, s' := Run(job, events), Next(job, Run(job, events), e);
            && (e.TakeMap? && s' != s ==> e.id < |s.tasks.maps| && s.tasks.maps[e.id] == Pending)
            && (e.TakeReduce? && s' != s ==>
                  e.id < |s.tasks.reduces| && s.tasks.reduces[e.id] == Pending && AllDone(s.tasks.maps))
            && (e.PassOn? && s' != s ==>
                  AllDone(s.tasks.maps) && (WorkerOf(s', e.k).Stopped? ==> AllDone(s.tasks.reduces)))
  {
    RunOk(job, events);
    var s := Run(job, events);
    OverIffAllDone(s.tasks);
    if e.TakeReduce? && e.k in s.workers { assert WorkerOk(job, s, s.workers[e.k]); }
    if e.PassOn? && e.k in s.workers { assert WorkerOk(job, s, s.workers[e.k]); }
  }

  // ---------------------------------------------------------------- one task by a new worker

  lemma {:induction false} Above(s: set<nat>) returns (k: nat)
    ensures forall x :: x in s ==> x < k
  {
    if s == {} {
      k := 0;
    } else {
      var x :| x in s;
      var k' := Above(s - {x});
      k := if x < k' then k' else x + 1;
      forall y | y in s ensures y < k {
        if y != x { assert y in s - {x}; }
      }
    }
  }

  /** A task that is not done times out, if it is in progress, and a new worker asks for one. */
  lemma NewWorkerAsks(job: Job, events: seq<Event>, kind: Kind, id: nat) returns (later: seq<Event>, k: nat)
    requires Runnable(job)
    requires var t := Run(job, events).tasks; id < |States(t, kind)| && States(t, kind)[id] != Done
    ensures events <= later
    ensures var s := Run(job, events);
            Run(job, later) == With(s.(tasks := WithState(s.tasks, kind, id, Pending)), k, AtMaps)
  {
    var s := Run(job, events);
    k := Above(s.workers.Keys);
    RunNext(job, events, Timer(kind, id));
    RunNext(job, events + [Timer(kind, id)], Ask(k));
    later := events + [Timer(kind, id)] + [Ask(k)];
    assert States(s.tasks, kind)[id := States(s.tasks, kind)[id]] == States(s.tasks, kind);
  }

  lemma {:induction false} WriteAll(job: Job, events: seq<Event>, k: nat) returns (later: seq<Event>)
    requires Runnable(job)
    requires WorkerOf(Run(job, events), k).Mapping? && WorkerOf(Run(job, events), k).b <= job.nReduce
    ensures events <= later && Run(job, later).tasks == Run(job, events).tasks
    ensures WorkerOf(Run(job, later), k) == WorkerOf(Run(job, events), k).(b := job.nReduce)
    decreases job.nReduce - WorkerOf(Run(job, events), k).b
  {
    hide Run, Bucket;
    var worker := WorkerOf(Run(job, events), k);
    if worker.b == job.nReduce {
      later := events;
    } else {
      RunNext(job, events, WriteBucket(k));
      later := WriteAll(job, events + [WriteBucket(k)], k);
    }
  }

  lemma {:induction false} ReadAll(job: Job, events: seq<Event>, k: nat) returns (later: seq<Event>)
    requires Runnable(job)
    requires var s := Run(job, events);
             var worker := WorkerOf(s, k);
             && worker.Reducing? && worker.i <= |job.inputs|
             && forall i: nat :: i < |job.inputs| ==> (i, worker.id) in s.files
    ensures events <= later && Run(job, later).tasks == Run(job, events).tasks
    ensures var worker := WorkerOf(Run(job, later), k);
            worker.Reducing? && worker.id == WorkerOf(Run(job, events), k).id && worker.i == |job.inputs|
    decreases |job.inputs| - WorkerOf(Run(job, events), k).i
  {
    hide Run;
    var worker := WorkerOf(Run(job, events), k);
    if worker.i == |job.inputs| {
      later := events;
    } else {
      RunNext(job, events, ReadFile(k));
      later := ReadAll(job, events + [ReadFile(k)], k);
    }
  }

  lemma {:induction false} MapTaskDone(job: Job, events: seq<Event>, id: nat) returns (later: seq<Event>)
    requires Runnable(job) && id < |job.inputs|
    requires var t := Run(job, events).tasks; |t.maps| == |job.inputs| && t.maps[id] != Done
    ensures events <= later
    ensures var t := Run(job, events).tasks;
            Run(job, later).tasks == t.(maps := t.maps[id := Done], done1 := t.done1 + 1)
  {
    hide Run;
    var asked, k := NewWorkerAsks(job, events, Map, id);
    var take := TakeMap(k, id, MapOutput(job, id));
    RunNext(job, asked, take);
    var written := WriteAll(job, asked + [take], k);
    RunNext(job, written, Report(k));
    later := written + [Report(k)];
    var t := Run(job, events).tasks;
    assert t.maps[id := Pending][id := InProgress][id := Done] == t.maps[id := Done];
  }

  lemma {:induction false} ReduceTaskDone(job: Job, events: seq<Event>, id: nat) returns (later: seq<Event>)
    requires Runnable(job) && id < job.nReduce && Inv(job, Run(job, events)) && !JobDone(Run(job, events).tasks)
    requires var t := Run(job, events).tasks; AllDone(t.maps) && t.reduces[id] != Done
    ensures events <= later
    ensures var t := Run(job, events).tasks;
            Run(job, later).tasks == t.(reduces := t.reduces[id := Done], done2 := t.done2 + 1)
  {
    hide Run, SortOf, Grouped;
    var s := Run(job, events);
    FilesThere(job, s, id);
    var asked, k := NewWorkerAsks(job, events, Reduce, id);
    OverIffAllDone(s.tasks);
    RunNext(job, asked, PassOn(k));
    RunNext(job, asked + [PassOn(k)], TakeReduce(k, id));
    var read := ReadAll(job, asked + [PassOn(k)] + [TakeReduce(k, id)], k);
    var order := SortExists(WorkerOf(Run(job, read), k).pairs);
    RunNext(job, read, WriteOutput(k, order));
    RunNext(job, read + [WriteOutput(k, order)], Report(k));
    later := read + [WriteOutput(k, order)] + [Report(k)];
    var rs := s.tasks.reduces;
    assert rs[id := Pending][id := InProgress][id := Done] == rs[id := Done];
  }

  /** The files a reduce task reads are there. */
  lemma FilesThere(job: Job, s: System, id: nat)
    requires Runnable(job) && Inv(job, s) && id < job.nReduce && AllDone(s.tasks.maps) && !JobDone(s.tasks)
    ensures forall i: nat :: i < |job.inputs| ==> (i, id) in s.files
  {
    hide IsBucket, OutputOk, Counted, OrderIndependent;
    forall i: nat | i < |job.inputs| ensures (i, id) in s.files {
      assert Written(s, i, job.nReduce);
    }
  }

  // ---------------------------------------------------------------- the whole job

  function Unfinished(t: Tasks): nat {
    |t.maps| - CountDone(t.maps) + |t.reduces| - CountDone(t.reduces)
  }

  /**
   From every reachable state, whatever tasks were lost, timed out or run twice, some continuation finishes the job; by
   SameAsSequential its outputs are then right.
   */
  lemma {:induction false} CanAlwaysFinish(job: Job, events: seq<Event>) returns (later: seq<Event>)
    requires Runnable(job)
    ensures events <= later && JobDone(Run(job, later).tasks)
    decreases Unfinished(Run(job, events).tasks)
  {
    hide Run;
    RunOk(job, events);
    var t := Run(job, events).tasks;
    OverIffAllDone(t);
    if JobDone(t) {
      later := events;
    } else if id: nat :| id < |t.maps| && t.maps[id] != Done {
      var next := MapTaskDone(job, events, id);
      CountDoneUpdate(t.maps, id, Done);
      later := CanAlwaysFinish(job, next);
    } else {
      var id: nat :| id < |t.reduces| && t.reduces[id] != Done;
      var next := ReduceTaskDone(job, events, id);
      CountDoneUpdate(t.reduces, id, Done);
      later := CanAlwaysFinish(job, next);
    }
  }
}
