/**
 MapReduce: workers ask the coordinator for tasks, run them, and report them, while tasks time out, are run several
 times, and finish late. When the job is done its output is that of the sequential program.
 */
module MapReduce {
  import opened Grouping
  import opened Coordinator

  /** The files by name and content, the application's two functions, and the hash that picks a bucket. */
  datatype Job = Job(inputs: seq<(string, string)>, mapf: (string, string) -> seq<KeyValue>, reducef: Reducer,
                     hash: string -> nat, nReduce: nat)

  /**
   Where a worker is: between tasks, inside a GetTask call (at map tasks or past them), writing the buckets of a map
   task (`b` of them written), reading the files of a reduce task (`i` of them read), with its output written, or
   stopped.
   */
  datatype Worker =
    | Free | AtMaps | AtReduces
    | Mapping(id: nat, pairs: seq<KeyValue>, b: nat)
    | Reducing(id: nat, i: nat, pairs: seq<KeyValue>)
    | Reduced(id: nat)
    | Stopped

  /** Intermediate files by map task and bucket, and output files by reduce task. */
  datatype System = System(tasks: Tasks, workers: map<nat, Worker>, files: map<(nat, nat), seq<KeyValue>>,
                           outs: map<nat, seq<Line>>, cleaned: bool)

  datatype Event =
    | Ask(k: nat)
    | PassOn(k: nat)
    | TakeMap(k: nat, id: nat, pairs: seq<KeyValue>)
    | TakeReduce(k: nat, id: nat)
    | WriteBucket(k: nat)
    | ReadFile(k: nat)
    | WriteOutput(k: nat, order: seq<KeyValue>)
    | Report(k: nat)
    | Crash(k: nat)
    | Timer(kind: Kind, id: nat)
    | CheckDone

  predicate Runnable(job: Job) {
    job.nReduce > 0
  }

  function Home(job: Job, key: string): nat
    requires Runnable(job)
  {
    job.hash(key) % job.nReduce
  }

  function MapOutput(job: Job, i: nat): seq<KeyValue>
    requires i < |job.inputs|
  {
    job.mapf(job.inputs[i].0, job.inputs[i].1)
  }

  /** What the first `n` inputs map to, in the order the sequential program collects it. */
  function Intermediate(job: Job, n: nat): seq<KeyValue>
    requires n <= |job.inputs|
  {
    if n == 0 then [] else Intermediate(job, n - 1) + MapOutput(job, n - 1)
  }

  function Begin(job: Job): System {
    System(NewTasks(|job.inputs|, job.nReduce), map[], map[], map[], false)
  }

  function WorkerOf(s: System, k: nat): Worker {
    if k in s.workers then s.workers[k] else Free
  }

  function With(s: System, k: nat, worker: Worker): System {
    s.(workers := s.workers[k := worker])
  }

  function Reported(s: System, k: nat, kind: Kind, id: nat): System {
    With(s.(tasks := Complete(s.tasks, kind, id)), k, Free)
  }

  predicate IsPending(s: System, kind: Kind, id: nat) {
    id < |States(s.tasks, kind)| && States(s.tasks, kind)[id] == Pending
  }

  /**
   One event. A run of the map function may give its pairs in any order, and a sort may leave pairs of one key in any
   order; renaming a finished file into place is one step. An event that cannot happen changes nothing.
   */
  function Next(job: Job, s: System, e: Event): System
    requires Runnable(job)
  {
    match e
    case Ask(k) => if WorkerOf(s, k).Free? then With(s, k, AtMaps) else s
    case PassOn(k) =>
      if WorkerOf(s, k).AtMaps? && MapsOver(s.tasks) then With(s, k, AtReduces)
      else if WorkerOf(s, k).AtReduces? && ReducesOver(s.tasks) then With(s, k, Stopped)
      else s
    case TakeMap(k, id, pairs) =>
      if WorkerOf(s, k).AtMaps? && IsPending(s, Map, id) && id < |job.inputs|
          && multiset(pairs) == multiset(MapOutput(job, id))
      then With(s.(tasks := Claim(s.tasks, Map, id)), k, Mapping(id, pairs, 0))
      else s
    case TakeReduce(k, id) =>
      if WorkerOf(s, k).AtReduces? && IsPending(s, Reduce, id)
      then With(s.(tasks := Claim(s.tasks, Reduce, id)), k, Reducing(id, 0, []))
      else s
    case WriteBucket(k) => BucketWritten(job, s, k)
    case ReadFile(k) => FileRead(job, s, k)
    case WriteOutput(k, order) =>
      var worker := WorkerOf(s, k);
      if worker.Reducing? && worker.i >= |job.inputs| && SortOf(order, worker.pairs)
      then With(s.(outs := s.outs[worker.id := Grouped(order, job.reducef)]), k, Reduced(worker.id))
      else s
    case Report(k) =>
      var worker := WorkerOf(s, k);
      if worker.Mapping? && worker.b >= job.nReduce then Reported(s, k, Map, worker.id)
      else if worker.Reduced? then Reported(s, k, Reduce, worker.id)
      else s
    case Crash(k) => With(s, k, Stopped)
    case Timer(kind, id) => s.(tasks := TimedOut(s.tasks, kind, id))
    case CheckDone => if JobDone(s.tasks) then s.(files := map[], cleaned := true) else s
  }

  function BucketWritten(job: Job, s: System, k: nat): System
    requires Runnable(job)
  {
    var worker := WorkerOf(s, k);
    if worker.Mapping? && worker.b < job.nReduce then
      With(s.(files := s.files[(worker.id, worker.b) := Bucket(worker.pairs, job.hash, job.nReduce, worker.b)]),
           k, worker.(b := worker.b + 1))
    else s
  }

  /** A worker that cannot open an intermediate file stops. */
  function FileRead(job: Job, s: System, k: nat): System {
    var worker := WorkerOf(s, k);
    if worker.Reducing? && worker.i < |job.inputs| then
      if (worker.i, worker.id) in s.files
      then With(s, k, Reducing(worker.id, worker.i + 1, worker.pairs + s.files[(worker.i, worker.id)]))
      else With(s, k, Stopped)
    else s
  }

  function Run(job: Job, events: seq<Event>): System
    requires Runnable(job)
  {
    if events == [] then Begin(job) else Next(job, Run(job, events[..|events| - 1]), events[|events| - 1])
  }

  // ---------------------------------------------------------------- the invariant

  /** `part` holds exactly the pairs of `all` that belong to bucket `b`. */
  ghost predicate IsBucket(job: Job, part: seq<KeyValue>, all: seq<KeyValue>, b: nat)
    requires Runnable(job)
  {
    forall p: KeyValue :: multiset(part)[p] == if Home(job, p.key) == b then multiset(all)[p] else 0
  }

  ghost predicate FileOk(job: Job, s: System, i: nat, b: nat)
    requires Runnable(job)
  {
    i < |job.inputs| && b < job.nReduce && (i, b) in s.files && IsBucket(job, s.files[(i, b)], MapOutput(job, i), b)
  }

  /** The first `b` files of map task `i` are there, unless the job is over and they have been removed. */
  predicate Written(s: System, i: nat, b: nat) {
    s.cleaned || forall c: nat :: c < b ==> (i, c) in s.files
  }

  /** Exactly the lines of the whole input whose keys belong to bucket `b`, in ascending order. */
  ghost predicate OutputOk(job: Job, out: seq<Line>, b: nat)
    requires Runnable(job)
  {
    && (forall line :: line in out <==>
        Home(job, line.key) == b && LineFor(Intermediate(job, |job.inputs|), job.reducef, line))
    && (forall i, j :: 0 <= i < j < |out| ==> Less(out[i].key, out[j].key))
  }

  ghost predicate WorkerOk(job: Job, s: System, worker: Worker)
    requires Runnable(job)
  {
    match worker
    case AtReduces => MapsOver(s.tasks)
    case Mapping(id, pairs, b) =>
      id < |job.inputs| && b <= job.nReduce && multiset(pairs) == multiset(MapOutput(job, id)) && Written(s, id, b)
    case Reducing(id, i, pairs) =>
      MapsOver(s.tasks) && id < job.nReduce && i <= |job.inputs| && IsBucket(job, pairs, Intermediate(job, i), id)
    case Reduced(id) => id < job.nReduce && id in s.outs
    case _ => true
  }

  ghost predicate Inv(job: Job, s: System)
    requires Runnable(job)
  {
    && Counted(s.tasks) && |s.tasks.maps| == |job.inputs| && |s.tasks.reduces| == job.nReduce
    && (s.cleaned ==> JobDone(s.tasks))
    && (forall i, b :: (i, b) in s.files ==> FileOk(job, s, i, b))
    && (forall i: nat :: i < |job.inputs| && s.tasks.maps[i] == Done ==> Written(s, i, job.nReduce))
    && (forall k :: k in s.workers ==> WorkerOk(job, s, s.workers[k]))
    && (forall b :: b in s.outs ==> b < job.nReduce && (OrderIndependent(job.reducef) ==> OutputOk(job, s.outs[b], b)))
    && (forall b: nat :: b < job.nReduce && s.tasks.reduces[b] == Done ==> b in s.outs)
  }

  // ---------------------------------------------------------------- every event keeps the invariant

  lemma BucketOk(job: Job, pairs: seq<KeyValue>, all: seq<KeyValue>, b: nat)
    requires Runnable(job) && multiset(pairs) == multiset(all)
    ensures IsBucket(job, Bucket(pairs, job.hash, job.nReduce, b), all, b)
  {
    forall p: KeyValue
      ensures multiset(Bucket(pairs, job.hash, job.nReduce, b))[p]
              == if Home(job, p.key) == b then multiset(all)[p] else 0
    {
      BucketCounts(pairs, job.hash, job.nReduce, b, p);
    }
  }

  lemma BucketAppends(job: Job, a: seq<KeyValue>, b: seq<KeyValue>, all: seq<KeyValue>, more: seq<KeyValue>, id: nat)
    requires Runnable(job) && IsBucket(job, a, all, id) && IsBucket(job, b, more, id)
    ensures IsBucket(job, a + b, all + more, id)
  {
    forall p: KeyValue ensures multiset(a + b)[p] == if Home(job, p.key) == id then multiset(all + more)[p] else 0 {
      assert multiset(a + b) == multiset(a) + multiset(b) && multiset(all + more) == multiset(all) + multiset(more);
    }
  }

  /** Reducing a whole bucket gives its output, whatever order the sort leaves. */
  lemma ReduceOk(job: Job, pairs: seq<KeyValue>, order: seq<KeyValue>, b: nat)
    requires Runnable(job) && OrderIndependent(job.reducef)
    requires IsBucket(job, pairs, Intermediate(job, |job.inputs|), b) && SortOf(order, pairs)
    ensures OutputOk(job, Grouped(order, job.reducef), b)
  {
    var all := Intermediate(job, |job.inputs|);
    GroupedLines(order, job.reducef);
    forall line ensures LineFor(order, job.reducef, line) <==>
          Home(job, line.key) == b && LineFor(all, job.reducef, line) {
      if Home(job, line.key) == b {
        assert forall p: KeyValue :: p.key == line.key ==> multiset(order)[p] == multiset(all)[p];
        SameLine(order, all, job.reducef, line);
      } else {
        HasKeyCounted(order, line.key);
      }
    }
  }

  /** What a worker's place depends on only grows. */
  lemma WorkersStay(job: Job, s: System, s': System)
    requires Runnable(job) && Inv(job, s)
    requires |s'.tasks.maps| == |s.tasks.maps| && s'.tasks.done1 >= s.tasks.done1
    requires s'.cleaned || (!s.cleaned && s.files.Keys <= s'.files.Keys)
    requires s.outs.Keys <= s'.outs.Keys
    ensures forall k :: k in s.workers ==> WorkerOk(job, s', s.workers[k])
    ensures forall i, b :: Written(s, i, b) ==> Written(s', i, b)
  {
    hide IsBucket, OutputOk, FileOk, Counted, Intermediate, OrderIndependent;
  }

  /** A change of the tasks alone. */
  lemma TasksOk(job: Job, s: System, kind: Kind, id: nat, t: Tasks)
    requires Runnable(job) && Inv(job, s)
    requires t in [Claim(s.tasks, kind, id), Complete(s.tasks, kind, id), TimedOut(s.tasks, kind, id)]
    requires t != s.tasks && t == Complete(s.tasks, Map, id) && kind == Map && id < |job.inputs| ==>
               Written(s, id, job.nReduce)
    requires t != s.tasks && t == Complete(s.tasks, Reduce, id) && kind == Reduce && id < job.nReduce ==> id in s.outs
    ensures Inv(job, s.(tasks := t))
    ensures MapsOver(s.tasks) ==> MapsOver(t)
  {
    hide IsBucket, OutputOk, Counted, Written, Intermediate, WorkerOk, OrderIndependent;
    ActionsKeepCount(s.tasks, kind, id, t);
    OverIffAllDone(s.tasks);
    OverIffAllDone(t);
    var s' := s.(tasks := t);
    WorkersStayTasks(job, s, s');
    forall i, b | (i, b) in s'.files ensures FileOk(job, s', i, b) { assert FileOk(job, s, i, b); }
  }

  lemma WorkersStayTasks(job: Job, s: System, s': System)
    requires Runnable(job) && Inv(job, s)
    requires s' == s.(tasks := s'.tasks) && |s'.tasks.maps| == |s.tasks.maps| && s'.tasks.done1 >= s.tasks.done1
    ensures forall k :: k in s.workers ==> WorkerOk(job, s', s.workers[k])
    ensures forall i, b :: Written(s, i, b) <==> Written(s', i, b)
  {
    hide IsBucket, OutputOk, FileOk, Counted, Intermediate, OrderIndependent;
  }

  /** A change of one worker alone. */
  lemma WorkerMoves(job: Job, s: System, k: nat, worker: Worker)
    requires Runnable(job) && Inv(job, s) && WorkerOk(job, s, worker)
    ensures Inv(job, With(s, k, worker))
  {
    hide IsBucket, OutputOk, Counted, Intermediate, OrderIndependent;
    var s' := With(s, k, worker);
    forall i, b | (i, b) in s'.files ensures FileOk(job, s', i, b) { assert FileOk(job, s, i, b); }
    forall j | j in s'.workers ensures WorkerOk(job, s', s'.workers[j]) {
      if j != k { assert WorkerOk(job, s, s.workers[j]); }
    }
  }

  lemma BucketWrittenOk(job: Job, s: System, k: nat)
    requires Runnable(job) && Inv(job, s)
    ensures Inv(job, BucketWritten(job, s, k))
  {
    hide IsBucket, OutputOk, Counted, Intermediate, OrderIndependent, Bucket, FileOk;
    var worker := WorkerOf(s, k);
    if worker.Mapping? && worker.b < job.nReduce {
      var file := Bucket(worker.pairs, job.hash, job.nReduce, worker.b);
      BucketOk(job, worker.pairs, MapOutput(job, worker.id), worker.b);
      FileAdded(job, s, worker.id, worker.b, file);
      WorkerMoves(job, s.(files := s.files[(worker.id, worker.b) := file]), k, worker.(b := worker.b + 1));
    }
  }

  lemma FileAdded(job: Job, s: System, i: nat, b: nat, file: seq<KeyValue>)
    requires Runnable(job) && Inv(job, s)
    requires i < |job.inputs| && b < job.nReduce && IsBucket(job, file, MapOutput(job, i), b)
    ensures Inv(job, s.(files := s.files[(i, b) := file]))
    ensures Written(s, i, b) ==> Written(s.(files := s.files[(i, b) := file]), i, b + 1)
  {
    hide IsBucket, OutputOk, Counted, Intermediate, OrderIndependent;
    var s' := s.(files := s.files[(i, b) := file]);
    if s.cleaned || s.files.Keys <= s'.files.Keys { WorkersStay(job, s, s'); }
    forall j, c | (j, c) in s'.files ensures FileOk(job, s', j, c) {
      if (j, c) != (i, b) { assert FileOk(job, s, j, c); }
    }
  }

  lemma FileReadOk(job: Job, s: System, k: nat)
    requires Runnable(job) && Inv(job, s)
    ensures Inv(job, FileRead(job, s, k))
  {
    hide IsBucket, OutputOk, Counted, OrderIndependent;
    var worker := WorkerOf(s, k);
    if worker.Reducing? && worker.i < |job.inputs| {
      if (worker.i, worker.id) in s.files {
        var file := s.files[(worker.i, worker.id)];
        assert FileOk(job, s, worker.i, worker.id);
        BucketAppends(job, worker.pairs, file, Intermediate(job, worker.i), MapOutput(job, worker.i), worker.id);
        WorkerMoves(job, s, k, Reducing(worker.id, worker.i + 1, worker.pairs + file));
      } else {
        WorkerMoves(job, s, k, Stopped);
      }
    }
  }

  lemma OutputAdded(job: Job, s: System, b: nat, out: seq<Line>)
    requires Runnable(job) && Inv(job, s) && b < job.nReduce
             && (OrderIndependent(job.reducef) ==> OutputOk(job, out, b))
    ensures Inv(job, s.(outs := s.outs[b := out]))
  {
    hide IsBucket, OutputOk, Counted, Intermediate, OrderIndependent;
    var s' := s.(outs := s.outs[b := out]);
    WorkersStay(job, s, s');
    forall i, c | (i, c) in s'.files ensures FileOk(job, s', i, c) { assert FileOk(job, s, i, c); }
  }

  lemma WriteOutputOk(job: Job, s: System, k: nat, order: seq<KeyValue>)
    requires Runnable(job) && Inv(job, s)
    ensures Inv(job, Next(job, s, WriteOutput(k, order)))
  {
    hide OutputOk, Counted, IsBucket, OrderIndependent;
    var worker := WorkerOf(s, k);
    if worker.Reducing? && worker.i >= |job.inputs| && SortOf(order, worker.pairs) {
      if OrderIndependent(job.reducef) { ReduceOk(job, worker.pairs, order, worker.id); }
      OutputAdded(job, s, worker.id, Grouped(order, job.reducef));
      WorkerMoves(job, s.(outs := s.outs[worker.id := Grouped(order, job.reducef)]), k, Reduced(worker.id));
    }
  }

  lemma TakeOk(job: Job, s: System, e: Event)
    requires Runnable(job) && Inv(job, s) && (e.TakeMap? || e.TakeReduce? || e.Timer?)
    ensures Inv(job, Next(job, s, e))
  {
    hide OutputOk, Counted, FileOk, OrderIndependent;
    match e {
      case TakeMap(k, id, pairs) =>
        if WorkerOf(s, k).AtMaps? && IsPending(s, Map, id) && id < |job.inputs|
            && multiset(pairs) == multiset(MapOutput(job, id)) {
          TasksOk(job, s, Map, id, Claim(s.tasks, Map, id));
          WorkerMoves(job, s.(tasks := Claim(s.tasks, Map, id)), k, Mapping(id, pairs, 0));
        }
      case TakeReduce(k, id) =>
        if WorkerOf(s, k).AtReduces? && IsPending(s, Reduce, id) {
          TasksOk(job, s, Reduce, id, Claim(s.tasks, Reduce, id));
          WorkerMoves(job, s.(tasks := Claim(s.tasks, Reduce, id)), k, Reducing(id, 0, []));
        }
      case Timer(kind, id) => TasksOk(job, s, kind, id, TimedOut(s.tasks, kind, id));
    }
  }

  lemma ReportOk(job: Job, s: System, k: nat)
    requires Runnable(job) && Inv(job, s)
    ensures Inv(job, Next(job, s, Report(k)))
  {
    hide OutputOk, Counted, FileOk, IsBucket, Intermediate, OrderIndependent;
    var worker := WorkerOf(s, k);
    if worker.Mapping? && worker.b >= job.nReduce {
      TasksOk(job, s, Map, worker.id, Complete(s.tasks, Map, worker.id));
      WorkerMoves(job, s.(tasks := Complete(s.tasks, Map, worker.id)), k, Free);
    } else if worker.Reduced? {
      TasksOk(job, s, Reduce, worker.id, Complete(s.tasks, Reduce, worker.id));
      WorkerMoves(job, s.(tasks := Complete(s.tasks, Reduce, worker.id)), k, Free);
    }
  }

  lemma CheckDoneOk(job: Job, s: System)
    requires Runnable(job) && Inv(job, s)
    ensures Inv(job, Next(job, s, CheckDone))
  {
    hide OutputOk, Counted, IsBucket, Intermediate, OrderIndependent;
    if JobDone(s.tasks) {
      WorkersStay(job, s, s.(files := map[], cleaned := true));
    }
  }

  lemma NextOk(job: Job, s: System, e: Event)
    requires Runnable(job) && Inv(job, s)
    ensures Inv(job, Next(job, s, e))
  {
    hide Inv, OutputOk, OrderIndependent;
    match e {
      case Ask(k) => if WorkerOf(s, k).Free? { WorkerMoves(job, s, k, AtMaps); }
      case PassOn(k) =>
        if WorkerOf(s, k).AtMaps? && MapsOver(s.tasks) {
          WorkerMoves(job, s, k, AtReduces);
        } else if WorkerOf(s, k).AtReduces? && ReducesOver(s.tasks) {
          WorkerMoves(job, s, k, Stopped);
        }
      case WriteBucket(k) => BucketWrittenOk(job, s, k);
      case ReadFile(k) => FileReadOk(job, s, k);
      case WriteOutput(k, order) => WriteOutputOk(job, s, k, order);
      case Report(k) => ReportOk(job, s, k);
      case Crash(k) => WorkerMoves(job, s, k, Stopped);
      case CheckDone => CheckDoneOk(job, s);
      case _ => TakeOk(job, s, e);
    }
  }

  lemma {:induction false} RunOk(job: Job, events: seq<Event>)
    requires Runnable(job)
    ensures Inv(job, Run(job, events))
  {
    if events == [] {
      NewCounted(|job.inputs|);
      NewCounted(job.nReduce);
    } else {
      hide Inv, OrderIndependent;
      RunOk(job, events[..|events| - 1]);
      NextOk(job, Run(job, events[..|events| - 1]), events[|events| - 1]);
    }
  }

  // ---------------------------------------------------------------- theorems

  /**
   When the job is done, the output files together hold exactly the lines the sequential program prints, for any order
   its sort leaves; and each file is in ascending order of keys.
   */
  lemma {:induction false} SameAsSequential(job: Job, events: seq<Event>, order: seq<KeyValue>)
    requires Runnable(job) && OrderIndependent(job.reducef) && JobDone(Run(job, events).tasks)
    requires SortOf(order, Intermediate(job, |job.inputs|))
    ensures var outs := Run(job, events).outs;
            && (forall b: nat :: b < job.nReduce ==> b in outs)
            && (forall b, line :: b in outs ==>
                (line in outs[b] <==> line in Grouped(order, job.reducef) && Home(job, line.key) == b))
            && (forall line :: line in Grouped(order, job.reducef) ==> Home(job, line.key) in outs)
  {
    RunOk(job, events);
    var s, all := Run(job, events), Intermediate(job, |job.inputs|);
    OverIffAllDone(s.tasks);
    GroupedLines(order, job.reducef);
    forall line ensures LineFor(order, job.reducef, line) <==> LineFor(all, job.reducef, line) {
      SameLine(order, all, job.reducef, line);
    }
  }

  /** No key has two lines, in one output file or in two. */
  lemma {:induction false} EachKeyOnce(job: Job, events: seq<Event>, b: nat, i: nat, c: nat, j: nat)
    requires Runnable(job) && OrderIndependent(job.reducef)
    requires var outs := Run(job, events).outs;
             b in outs && c in outs && i < |outs[b]| && j < |outs[c]| && outs[b][i].key == outs[c][j].key
    ensures b == c && i == j
  {
    RunOk(job, events);
    var outs: map<nat, seq<Line>> := Run(job, events).outs;
    assert outs[b][i] in outs[b] && outs[c][j] in outs[c];
    LessTotal(outs[b][i].key, outs[c][j].key);
  }

  /**
   The phase barrier: a worker has a reduce task, or has gone on to ask for one, only when every map task is done; and
   until the coordinator removes the intermediate files no reduce task finds one missing.
   */
  lemma {:induction false} PhaseBarrier(job: Job, events: seq<Event>, k: nat)
    requires Runnable(job)
    requires var worker := WorkerOf(Run(job, events), k); worker.AtReduces? || worker.Reducing?
    ensures var s := Run(job, events);
            var worker := WorkerOf(s, k);
            && |s.tasks.maps| == |job.inputs|
            && (forall i :: 0 <= i < |job.inputs| ==> s.tasks.maps[i] == Done)
            && (worker.Reducing? && worker.i < |job.inputs| && !s.cleaned ==> (worker.i, worker.id) in s.files)
  {
    RunOk(job, events);
    var s := Run(job, events);
    OverIffAllDone(s.tasks);
    var worker := WorkerOf(s, k);
    assert WorkerOk(job, s, worker);
    if worker.Reducing? && worker.i < |job.inputs| {
      assert Written(s, worker.i, job.nReduce);
    }
  }

  /** In every run the counters count the done tasks, and the job is over only when every reduce task is done. */
  lemma {:induction false} CountersRight(job: Job, events: seq<Event>)
    requires Runnable(job)
    ensures var t := Run(job, events).tasks;
            && t.done1 == CountDone(t.maps) && t.done2 == CountDone(t.reduces)
            && (JobDone(t) <==> |t.reduces| == job.nReduce && forall b :: 0 <= b < job.nReduce ==> t.reduces[b] == Done)
  {
    RunOk(job, events);
    OverIffAllDone(Run(job, events).tasks);
  }

  /** A task that is done is never undone, whatever happens next. */
  lemma NeverUndone(job: Job, events: seq<Event>, e: Event, kind: Kind, id: nat)
    requires Runnable(job)
    requires var t := Run(job, events).tasks; id < |States(t, kind)| && States(t, kind)[id] == Done
    ensures var t' := Next(job, Run(job, events), e).tasks; id < |States(t', kind)| && States(t', kind)[id] == Done
  {
  }

  // ---------------------------------------------------------------- the programs' loops

  /** The sequential program, with the sort it uses. */
  method Sequential(job: Job, sort: seq<KeyValue> -> seq<KeyValue>) returns (out: seq<Line>)
    requires forall s :: SortOf(sort(s), s)
    ensures out == Grouped(sort(Intermediate(job, |job.inputs|)), job.reducef)
    ensures OrderIndependent(job.reducef) ==>
              forall line :: line in out <==> LineFor(Intermediate(job, |job.inputs|), job.reducef, line)
  {
    var intermediate: seq<KeyValue> := [];
    for i := 0 to |job.inputs|
      invariant intermediate == Intermediate(job, i)
    {
      intermediate := intermediate + job.mapf(job.inputs[i].0, job.inputs[i].1);
    }
    var order := sort(intermediate);
    out := ReduceRuns(order, job.reducef);
    GroupedLines(order, job.reducef);
    if OrderIndependent(job.reducef) {
      forall line ensures LineFor(order, job.reducef, line) <==> LineFor(intermediate, job.reducef, line) {
        SameLine(order, intermediate, job.reducef, line);
      }
    }
  }

  lemma NothingRead(job: Job, b: nat)
    requires Runnable(job)
    ensures IsBucket(job, [], Intermediate(job, 0), b)
  {
  }

  /** handleReduceTask: reads the files of one bucket, sorts them and reduces each run. */
  method HandleReduceTask(job: Job, files: seq<seq<KeyValue>>, b: nat, sort: seq<KeyValue> -> seq<KeyValue>)
    returns (out: seq<Line>)
    requires Runnable(job) && OrderIndependent(job.reducef) && |files| == |job.inputs|
    requires forall s :: SortOf(sort(s), s)
    requires forall i :: 0 <= i < |files| ==> IsBucket(job, files[i], MapOutput(job, i), b)
    ensures OutputOk(job, out, b)
  {
    hide IsBucket, OrderIndependent, OutputOk, Sorted;
    var kva: seq<KeyValue> := [];
    NothingRead(job, b);
    for i := 0 to |files|
      invariant IsBucket(job, kva, Intermediate(job, i), b)
    {
      BucketAppends(job, kva, files[i], Intermediate(job, i), MapOutput(job, i), b);
      kva := kva + files[i];
    }
    var order := sort(kva);
    out := ReduceRuns(order, job.reducef);
    ReduceOk(job, kva, order, b);
  }
}
