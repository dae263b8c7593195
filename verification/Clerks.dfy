/**
 Any number of clerks calling one key/value server over a network that may lose a request or a reply. Every run is
 linearizable against KvModel, and every Put takes effect at most once.
 */
module Clerks {
  import opened KvServer

  /** What the network does to one attempt: the server may never see it, or may serve it and the reply be lost. */
  datatype Fate = RequestLost | ReplyLost | Delivered

  /**
   A clerk's call in progress. `retry` is the flag of Clerk.Put. `id` and `effects` are records for the specification:
   the moment of the call and how often the server has changed a key for it.
   */
  datatype Call = Call(op: Op, retry: bool, id: nat, effects: nat)

  /** A moment at which an operation is taken to happen, with the result it has or, if it returns, will have. */
  datatype Point = Point(at: nat, id: nat, op: Op, out: Result)

  datatype Completed = Completed(id: nat, returned: nat, op: Op, out: Result, effects: nat)

  /**
   The server's data and the calls in progress, by clerk; and the records: the clock, the points, the completed
   calls.
   */
  datatype System = System(data: Store, calls: map<nat, Call>, now: nat, points: seq<Point>, done: seq<Completed>)

  datatype Event = Invoke(clerk: nat, op: Op) | Attempt(clerk: nat, fate: Fate)

  const START := System(map[], map[], 0, [], [])

  /** What the clerk returns for a reply: Put reports ErrMaybe when a resent request meets ErrVersion. */
  function Report(op: Op, retry: bool, r: Result): Result {
    if op.Put? && retry && r.err == ErrVersion then r.(err := ErrMaybe) else r
  }

  /** Did serving the operation change the store? */
  predicate Effective(op: Op, r: Result) {
    op.Put? && r.err == OK
  }

  /** One event: a clerk with no call in progress starts one, or a clerk makes an attempt at its call. */
  function Next(s: System, e: Event): System {
    match e
    case Invoke(clerk, op) =>
      if clerk in s.calls then s.(now := s.now + 1)
      else s.(calls := s.calls[clerk := Call(op, false, s.now, 0)], now := s.now + 1)
    case Attempt(clerk, fate) =>
      if clerk !in s.calls then s.(now := s.now + 1)
      else if fate == RequestLost then
        s.(calls := s.calls[clerk := s.calls[clerk].(retry := true)], now := s.now + 1)
      else
        var c := s.calls[clerk];
        var (data', r) := Serve(s.data, c.op);
        var effects := c.effects + if Effective(c.op, r) then 1 else 0;
        if fate == ReplyLost then
          s.(data := data', now := s.now + 1,
             calls := s.calls[clerk := c.(retry := true, effects := effects)],
             points := if Effective(c.op, r) then s.points + [Point(s.now, c.id, c.op, r.(err := ErrMaybe))]
                 else s.points)
        else
          s.(data := data', now := s.now + 1, calls := s.calls - {clerk},
             points := if c.effects > 0 then s.points
                 else s.points + [Point(s.now, c.id, c.op, Report(c.op, c.retry, r))],
             done := s.done + [Completed(c.id, s.now, c.op, Report(c.op, c.retry, r), effects)])
  }

  function Run(events: seq<Event>): System {
    if events == [] then START else Next(Run(events[..|events| - 1]), events[|events| - 1])
  }

  // ---------------------------------------------------------------- replaying the points through KvModel

  /** Whether KvModel accepts the operations on one key in this order, and the state they lead to. */
  function Replay(points: seq<Point>, key: string): (bool, KvState) {
    if points == [] then (true, INIT)
    else
      var (ok, st) := Replay(points[..|points| - 1], key);
      var p := points[|points| - 1];
      if p.op.key != key then (ok, st)
      else
        var (good, st') := Step(st, p.op, p.out);
        (ok && good, st')
  }

  /** No Put of the key was answered ErrNoKey, which is what a Put with a nonzero version to an absent key gets. */
  predicate NoneMissing(points: seq<Point>, key: string) {
    forall j :: 0 <= j < |points| && points[j].op.Put? && points[j].op.key == key ==> points[j].out.err != ErrNoKey
  }

  function StateOf(data: Store, key: string): KvState {
    if key in data then KvState(data[key].value, data[key].version) else INIT
  }

  predicate Stamps(points: seq<Point>, now: nat) {
    && (forall j :: 0 <= j < |points| ==> points[j].id < points[j].at < now)
    && (forall i, j :: 0 <= i < j < |points| ==> points[i].at < points[j].at && points[i].id != points[j].id)
  }

  /** The operation called at `id` has a point, between its call and `end`, with this result. */
  predicate HasPoint(points: seq<Point>, id: nat, op: Op, out: Result, end: nat) {
    exists j :: 0 <= j < |points| && points[j].id == id && points[j].op == op && points[j].out == out
        && points[j].at <= end
  }

  predicate NoPoint(points: seq<Point>, id: nat) {
    forall j :: 0 <= j < |points| ==> points[j].id != id
  }

  /** A Put that has taken effect can only meet a newer version from then on. */
  predicate CallOk(s: System, c: Call) {
    && c.id < s.now && c.effects <= 1
    && (c.effects == 0 ==> NoPoint(s.points, c.id))
    && (c.effects == 1 ==>
          && c.op.Put? && c.retry && c.op.key in s.data && c.op.version < s.data[c.op.key].version
          && HasPoint(s.points, c.id, c.op, Result("", 0, ErrMaybe), s.now))
  }

  predicate DoneOk(s: System, d: Completed) {
    && HasPoint(s.points, d.id, d.op, d.out, d.returned) && d.id < d.returned < s.now
    && (d.op.Put? ==> match d.out.err
                      case OK => d.effects == 1
                      case ErrMaybe => d.effects <= 1
                      case _ => d.effects == 0)
    && (d.op.Get? ==> d.effects == 0 && d.out.err != ErrMaybe)
  }

  predicate DonePoint(done: seq<Completed>, p: Point, i: int) {
    0 <= i < |done| && done[i].id == p.id && done[i].op == p.op && done[i].out == p.out
  }

  predicate LivePoint(calls: map<nat, Call>, p: Point, k: nat) {
    k in calls && calls[k].id == p.id && calls[k].op == p.op && calls[k].effects == 1
        && p.out == Result("", 0, ErrMaybe)
  }

  /** A point belongs to a completed call with that result, or to a Put that has taken effect and not yet returned. */
  ghost predicate PointOk(s: System, p: Point) {
    (exists i :: DonePoint(s.done, p, i)) || (exists k :: LivePoint(s.calls, p, k))
  }

  /** No two calls, completed or in progress, were made at the same moment. */
  predicate IdsDistinct(calls: map<nat, Call>, done: seq<Completed>) {
    && (forall k, l :: k in calls && l in calls && k != l ==> calls[k].id != calls[l].id)
    && (forall i, j :: 0 <= i < j < |done| ==> done[i].id != done[j].id)
    && (forall k, i :: k in calls && 0 <= i < |done| ==> calls[k].id != done[i].id)
  }

  ghost predicate Inv(s: System) {
    && Stamps(s.points, s.now)
    && (forall k :: k in s.calls ==> CallOk(s, s.calls[k]))
    && IdsDistinct(s.calls, s.done)
    && (forall i :: 0 <= i < |s.done| ==> DoneOk(s, s.done[i]))
    && (forall j :: 0 <= j < |s.points| ==> PointOk(s, s.points[j]))
    && (forall key :: Replay(s.points, key) == (NoneMissing(s.points, key), StateOf(s.data, key)))
  }

  // ---------------------------------------------------------------- every event keeps the invariant

  lemma ReplayNext(points: seq<Point>, p: Point, key: string)
    ensures Replay(points + [p], key) ==
            (var (ok, st) := Replay(points, key);
             if p.op.key != key then (ok, st) else var (good, st') := Step(st, p.op, p.out); (ok && good, st'))
    ensures NoneMissing(points + [p], key) <==>
              NoneMissing(points, key) && !(p.op.Put? && p.op.key == key && p.out.err == ErrNoKey)
  {
    assert (points + [p])[..|points|] == points;
    if NoneMissing(points + [p], key) {
      forall j | 0 <= j < |points| && points[j].op.Put? && points[j].op.key == key
        ensures points[j].out.err != ErrNoKey {
        assert (points + [p])[j] == points[j];
      }
      assert (points + [p])[|points|] == p;
    }
  }

  lemma HasPointStays(points: seq<Point>, p: Point, id: nat, op: Op, out: Result, end: nat, end': nat)
    requires HasPoint(points, id, op, out, end) && end <= end'
    ensures HasPoint(points + [p], id, op, out, end')
  {
    var j :| 0 <= j < |points| && points[j].id == id && points[j].op == op && points[j].out == out
        && points[j].at <= end;
    assert (points + [p])[j] == points[j];
  }

  /** Serving an operation in the store is a step of KvModel on its key and leaves the other keys alone. */
  lemma ServeIsStep(data: Store, op: Op, key: string)
    ensures var (data', r) := Serve(data, op);
            && (key != op.key ==> StateOf(data', key) == StateOf(data, key))
            && (key == op.key && op.Get? ==> Step(StateOf(data, key), op, r) == (true, StateOf(data', key)))
            && (key == op.key && op.Put? ==>
                  && Step(StateOf(data, key), op, r) == (r.err != ErrNoKey, StateOf(data', key))
                  && (r.err == OK || r.err == ErrVersion ==>
                      Step(StateOf(data, key), op, r.(err := ErrMaybe)) == (true, StateOf(data', key))))
  {
  }

  /**
   KvModel accepts no other answers: to a Get only the server's value, to a Put only the server's error or that the
   clerk does not know; to a Put with a nonzero version of an absent key, ErrVersion in place of the server's ErrNoKey.
   */
  lemma AcceptsOnlyServed(data: Store, op: Op, out: Result)
    requires op.key in data ==> data[op.key].version >= 1
    ensures var r := Serve(data, op).1;
            Step(StateOf(data, op.key), op, out).0 <==>
              if op.Get? then out.value == r.value
              else out.err == ErrMaybe || out.err == if r.err == ErrNoKey then ErrVersion else r.err
  {
  }

  /** Keys are never removed and versions never fall. */
  lemma StoreGrows(data: Store, op: Op, key: string)
    requires key in data
    ensures key in Serve(data, op).0 && data[key].version <= Serve(data, op).0[key].version
  {
  }

  /** Points stay accounted for while completed calls stay completed and live points stay live. */
  lemma PointsStay(s: System, s': System)
    requires forall j :: 0 <= j < |s.points| ==> PointOk(s, s.points[j])
    requires s.done <= s'.done
    requires forall p, k :: LivePoint(s.calls, p, k) ==> PointOk(s', p)
    ensures forall j :: 0 <= j < |s.points| ==> PointOk(s', s.points[j])
  {
    forall j | 0 <= j < |s.points| ensures PointOk(s', s.points[j]) {
      if i :| DonePoint(s.done, s.points[j], i) {
        assert DonePoint(s'.done, s.points[j], i);
      }
    }
  }

  lemma InvokeOk(s: System, clerk: nat, op: Op)
    requires Inv(s)
    ensures Inv(Next(s, Invoke(clerk, op)))
  {
    hide Replay, NoneMissing, StateOf, HasPoint;
    var s' := Next(s, Invoke(clerk, op));
    forall k | k in s'.calls ensures CallOk(s', s'.calls[k]) {
      if k in s.calls { CallWaits(s, s', s.calls[k]); }
    }
    forall i | 0 <= i < |s'.done| ensures DoneOk(s', s'.done[i]) { DoneStays(s, s', s.done[i]); }
    forall p, k | LivePoint(s.calls, p, k) ensures PointOk(s', p) { assert LivePoint(s'.calls, p, k); }
    PointsStay(s, s');
  }

  lemma CallWaits(s: System, s': System, c: Call)
    requires CallOk(s, c) && s'.now == s.now + 1 && s'.points == s.points && s'.data == s.data
    ensures CallOk(s', c) && CallOk(s', c.(retry := true))
  {
  }

  /** An attempt after which the call goes on, and which changes neither store nor points. */
  lemma IdleOk(s: System, s': System, clerk: nat)
    requires Inv(s) && clerk in s.calls
    requires s' == s.(now := s.now + 1, calls := s.calls[clerk := s.calls[clerk].(retry := true)])
    ensures Inv(s')
  {
    hide Replay, NoneMissing, StateOf, HasPoint;
    forall k | k in s'.calls ensures CallOk(s', s'.calls[k]) { CallWaits(s, s', s.calls[k]); }
    forall i | 0 <= i < |s'.done| ensures DoneOk(s', s'.done[i]) { DoneStays(s, s', s.done[i]); }
    forall p, k | LivePoint(s.calls, p, k) ensures PointOk(s', p) { assert LivePoint(s'.calls, p, k); }
    PointsStay(s, s');
  }

  /** A point is added for clerk `clerk`'s call; the other calls and the completed ones keep what they had. */
  lemma PointAdded(s: System, data': Store, op: Op, p: Point)
    requires Inv(s) && data' == Serve(s.data, op).0 && p.at == s.now && p.id < s.now && NoPoint(s.points, p.id)
             && p.op == op
    requires var r := Serve(s.data, op).1;
             p.out == r || (op.Put? && (r.err == OK || r.err == ErrVersion) && p.out == r.(err := ErrMaybe))
    ensures Stamps(s.points + [p], s.now + 1)
    ensures forall key :: Replay(s.points + [p], key) == (NoneMissing(s.points + [p], key), StateOf(data', key))
  {
    forall key ensures Replay(s.points + [p], key) == (NoneMissing(s.points + [p], key), StateOf(data', key)) {
      ReplayNext(s.points, p, key);
      ServeIsStep(s.data, op, key);
    }
  }

  lemma OtherCallStays(s: System, s': System, c: Call, p: Point, op: Op)
    requires CallOk(s, c) && s'.now == s.now + 1 && s'.points == s.points + [p] && p.id != c.id
             && s'.data == Serve(s.data, op).0
    ensures CallOk(s', c)
  {
    if c.effects == 1 {
      HasPointStays(s.points, p, c.id, c.op, Result("", 0, ErrMaybe), s.now, s'.now);
      StoreGrows(s.data, op, c.op.key);
    }
  }

  lemma DoneStays(s: System, s': System, d: Completed)
    requires DoneOk(s, d) && s'.now == s.now + 1
             && (s'.points == s.points || (|s'.points| == |s.points| + 1 && s.points <= s'.points))
    ensures DoneOk(s', d)
  {
    if s'.points != s.points {
      var p := s'.points[|s.points|];
      assert s'.points == s.points + [p];
      HasPointStays(s.points, p, d.id, d.op, d.out, d.returned, d.returned);
    }
  }

  /** A Put that has already taken effect finds a newer version. */
  lemma AppliedMeetsNewer(s: System, c: Call)
    requires CallOk(s, c) && c.effects == 1
    ensures Serve(s.data, c.op) == (s.data, Result("", 0, ErrVersion))
  {
  }

  /** The server applies a Put and the reply is lost. */
  lemma LostReplyOk(s: System, clerk: nat)
    requires Inv(s) && clerk in s.calls && Effective(s.calls[clerk].op, Serve(s.data, s.calls[clerk].op).1)
    ensures Inv(Next(s, Attempt(clerk, ReplyLost)))
  {
    hide Replay, NoneMissing, StateOf, HasPoint, Serve;
    var s', c := Next(s, Attempt(clerk, ReplyLost)), s.calls[clerk];
    assert CallOk(s, c);
    if c.effects == 1 { AppliedMeetsNewer(s, c); }
    var p := Point(s.now, c.id, c.op, Serve(s.data, c.op).1.(err := ErrMaybe));
    PointAdded(s, s'.data, c.op, p);
    EffectIsNewer(s, s', c, p);
    forall k | k in s'.calls && k != clerk
      ensures CallOk(s', s'.calls[k]) { OtherCallStays(s, s', s.calls[k], p, c.op); }
    forall i | 0 <= i < |s'.done| ensures DoneOk(s', s'.done[i]) { DoneStays(s, s', s.done[i]); }
    forall q, k | LivePoint(s.calls, q, k) ensures PointOk(s', q) { assert LivePoint(s'.calls, q, k); }
    PointsStay(s, s');
    assert LivePoint(s'.calls, p, clerk);
  }

  lemma EffectIsNewer(s: System, s': System, c: Call, p: Point)
    requires Effective(c.op, Serve(s.data, c.op).1) && s'.data == Serve(s.data, c.op).0 && c.id < s.now
    requires p == Point(s.now, c.id, c.op, Serve(s.data, c.op).1.(err := ErrMaybe)) && s'.points == s.points + [p]
             && s'.now == s.now + 1
    ensures CallOk(s', c.(retry := true, effects := 1)) && p.out == Result("", 0, ErrMaybe)
  {
    assert s'.points[|s.points|] == p;
  }

  /** The reply arrives and the call returns. */
  lemma ReturnOk(s: System, clerk: nat)
    requires Inv(s) && clerk in s.calls
    ensures Inv(Next(s, Attempt(clerk, Delivered)))
  {
    hide Replay, NoneMissing, StateOf, HasPoint, Serve, IdsDistinct;
    var s', c := Next(s, Attempt(clerk, Delivered)), s.calls[clerk];
    var r := Serve(s.data, c.op).1;
    var d := s'.done[|s.done|];
    assert CallOk(s, c);
    ReturnIds(s.calls, s.done, clerk, d);
    if c.effects == 1 {
      AppliedMeetsNewer(s, c);
      LateReturn(s, s', c, d);
      forall k | k in s'.calls ensures CallOk(s', s'.calls[k]) { CallWaits(s, s', s.calls[k]); }
    } else {
      var p := Point(s.now, c.id, c.op, Report(c.op, c.retry, r));
      ReportFits(s.data, c);
      PointAdded(s, s'.data, c.op, p);
      assert s'.points[|s.points|] == p;
      FirstReturn(s, s', c, d, p);
      forall k | k in s'.calls ensures CallOk(s', s'.calls[k]) { OtherCallStays(s, s', s.calls[k], p, c.op); }
      assert DonePoint(s'.done, p, |s.done|);
    }
    forall i | 0 <= i < |s.done| ensures DoneOk(s', s'.done[i]) { DoneStays(s, s', s.done[i]); }
    forall q, k | LivePoint(s.calls, q, k) ensures PointOk(s', q) {
      if k == clerk { assert DonePoint(s'.done, q, |s.done|); } else { assert LivePoint(s'.calls, q, k); }
    }
    PointsStay(s, s');
  }

  lemma ReturnIds(calls: map<nat, Call>, done: seq<Completed>, clerk: nat, d: Completed)
    requires IdsDistinct(calls, done) && clerk in calls && d.id == calls[clerk].id
    ensures IdsDistinct(calls - {clerk}, done + [d])
    ensures forall k :: k in calls && k != clerk ==> calls[k].id != d.id
  {
  }

  lemma ReportFits(data: Store, c: Call)
    ensures var r := Serve(data, c.op).1;
            Report(c.op, c.retry, r) == r
                || (c.op.Put? && r.err == ErrVersion && Report(c.op, c.retry, r) == r.(err := ErrMaybe))
    ensures c.op.Get? ==> Serve(data, c.op).1.err != ErrMaybe
    ensures c.op.Put? ==>
              Serve(data, c.op).1.err != ErrMaybe && Serve(data, c.op).1 == Result("", 0, Serve(data, c.op).1.err)
  {
  }

  lemma LateReturn(s: System, s': System, c: Call, d: Completed)
    requires CallOk(s, c) && c.effects == 1 && s'.points == s.points && s'.now == s.now + 1
    requires d == Completed(c.id, s.now, c.op, Result("", 0, ErrMaybe), 1)
    ensures DoneOk(s', d)
  {
  }

  lemma FirstReturn(s: System, s': System, c: Call, d: Completed, p: Point)
    requires CallOk(s, c) && c.effects == 0 && s'.points == s.points + [p] && s'.now == s.now + 1
    requires var r := Serve(s.data, c.op).1;
             p == Point(s.now, c.id, c.op, Report(c.op, c.retry, r))
             && d == Completed(c.id, s.now, c.op, Report(c.op, c.retry, r), if Effective(c.op, r) then 1 else 0)
    ensures DoneOk(s', d)
  {
    assert s'.points[|s.points|] == p;
  }

  lemma EventOk(s: System, e: Event)
    requires Inv(s)
    ensures Inv(Next(s, e))
  {
    hide Inv;
    match e {
      case Invoke(clerk, op) => InvokeOk(s, clerk, op);
      case Attempt(clerk, fate) =>
        if clerk !in s.calls {
          TickOk(s);
        } else if fate == Delivered {
          ReturnOk(s, clerk);
        } else if fate == ReplyLost && Effective(s.calls[clerk].op, Serve(s.data, s.calls[clerk].op).1) {
          LostReplyOk(s, clerk);
        } else {
          IdleOk(s, Next(s, e), clerk);
        }
    }
  }

  lemma TickOk(s: System)
    requires Inv(s)
    ensures Inv(s.(now := s.now + 1))
  {
    hide Replay, NoneMissing, StateOf, HasPoint;
    var s' := s.(now := s.now + 1);
    forall k | k in s'.calls ensures CallOk(s', s'.calls[k]) { CallWaits(s, s', s.calls[k]); }
    forall i | 0 <= i < |s'.done| ensures DoneOk(s', s'.done[i]) { DoneStays(s, s', s.done[i]); }
    forall p, k | LivePoint(s.calls, p, k) ensures PointOk(s', p) { assert LivePoint(s'.calls, p, k); }
    PointsStay(s, s');
  }

  lemma {:induction false} RunOk(events: seq<Event>)
    ensures Inv(Run(events)) && Run(events).now == |events|
  {
    if events != [] {
      RunOk(events[..|events| - 1]);
      EventOk(Run(events[..|events| - 1]), events[|events| - 1]);
    }
  }

  // ---------------------------------------------------------------- theorems

  /** Each completed operation has exactly one point, inside its call, with the result it returned. */
  predicate Explains(points: seq<Point>, d: Completed) {
    exists j :: 0 <= j < |points| && points[j].id == d.id && points[j].op == d.op && points[j].out == d.out
                && d.id < points[j].at <= d.returned
  }

  /** A Put with a nonzero version is about to be served and answered while its key does not exist. */
  predicate MissesNow(s: System, e: Event, key: string) {
    && e.Attempt? && e.fate == Delivered && e.clerk in s.calls
    && var op := s.calls[e.clerk].op; op.Put? && op.key == key && op.version != 0 && key !in s.data
  }

  /** No such event occurs in the run. */
  predicate NeverMisses(events: seq<Event>, key: string) {
    forall i :: 0 <= i < |events| ==> !MissesNow(Run(events[..i]), events[i], key)
  }

  lemma MissesStep(s: System, e: Event, key: string)
    requires Inv(s)
    ensures NoneMissing(Next(s, e).points, key) <==> NoneMissing(s.points, key) && !MissesNow(s, e, key)
  {
    hide Replay, HasPoint, StateOf;
    if e.Attempt? && e.clerk in s.calls && Next(s, e).points != s.points {
      var c, p := s.calls[e.clerk], Next(s, e).points[|s.points|];
      ReplayNext(s.points, p, key);
    }
  }

  /** Answers of ErrNoKey to a Put come from exactly those events. */
  lemma {:induction false} NoneMissingIff(events: seq<Event>, key: string)
    ensures NoneMissing(Run(events).points, key) <==>
            NeverMisses(events, key)
  {
    hide NoneMissing, MissesNow, Next;
    if events == [] {
      NothingMissing(key);
    } else {
      var before, e := events[..|events| - 1], events[|events| - 1];
      RunOk(before);
      NoneMissingIff(before, key);
      MissesStep(Run(before), e, key);
      forall i | 0 <= i < |before| ensures before[..i] == events[..i] && before[i] == events[i] {
      }
    }
  }

  lemma NothingMissing(key: string)
    ensures NoneMissing(START.points, key)
  {
  }

  /**
   Linearizability against KvModel. In every run no two calls share their moment of call, the points are ordered in time
   and no call has two; every completed call has one inside the call with the result it returned; every point is that of
   a completed call or of a Put in progress that has taken effect; and KvModel accepts the operations on a key, in the
   order of their points, if and only if no Put with a nonzero version was answered while the key did not exist.
   */
  lemma {:induction false} Linearizability(events: seq<Event>)
    ensures var s := Run(events);
            && IdsDistinct(s.calls, s.done)
            && Stamps(s.points, s.now)
            && (forall i :: 0 <= i < |s.done| ==> Explains(s.points, s.done[i]))
            && (forall j :: 0 <= j < |s.points| ==> PointOk(s, s.points[j]))
            && (forall key :: Replay(s.points, key).0 <==> NeverMisses(events, key))
  {
    hide Replay, NoneMissing, NeverMisses, StateOf;
    RunOk(events);
    var s := Run(events);
    forall i | 0 <= i < |s.done| ensures Explains(s.points, s.done[i]) {
      assert DoneOk(s, s.done[i]);
    }
    forall key ensures Replay(s.points, key).0 <==> NeverMisses(events, key) {
      NoneMissingIff(events, key);
    }
  }

  /** KvModel refuses every sequence of operations in which a Put of the key was answered ErrNoKey. */
  lemma {:induction false} ReplayRefuses(points: seq<Point>, key: string)
    requires !NoneMissing(points, key)
    ensures !Replay(points, key).0
  {
    var front := points[..|points| - 1];
    assert points == front + [points[|points| - 1]];
    ReplayNext(front, points[|points| - 1], key);
    if !NoneMissing(front, key) { ReplayRefuses(front, key); }
  }

  /** Each completed call is among the points, with the result it returned. */
  predicate Contains(points: seq<Point>, done: seq<Completed>) {
    forall i :: 0 <= i < |done| ==>
          exists j :: 0 <= j < |points| && points[j].op == done[i].op && points[j].out == done[i].out
  }

  /**
   When such an event occurs, KvModel refuses the completed calls in every order, whatever else is put between them.
   */
  lemma {:induction false} NoOrderAccepted(events: seq<Event>, key: string, points: seq<Point>)
    requires !NeverMisses(events, key) && Contains(points, Run(events).done)
    ensures !Replay(points, key).0
  {
    hide Replay, NeverMisses, StateOf, HasPoint;
    RunOk(events);
    NoneMissingIff(events, key);
    var s := Run(events);
    var j :| 0 <= j < |s.points| && s.points[j].op.Put? && s.points[j].op.key == key && s.points[j].out.err == ErrNoKey;
    assert PointOk(s, s.points[j]);
    var i :| DonePoint(s.done, s.points[j], i);
    var l :| 0 <= l < |points| && points[l].op == s.done[i].op && points[l].out == s.done[i].out;
    assert !NoneMissing(points, key);
    ReplayRefuses(points, key);
  }

  /** KvModel does reject a run: a clerk Puts version 5 of a key that does not exist. */
  lemma ModelRejects() returns (events: seq<Event>)
    ensures events == [Invoke(0, Put("k", "v", 5)), Attempt(0, Delivered)]
    ensures |Run(events).done| == 1 && Run(events).done[0].out.err == ErrNoKey && !Replay(Run(events).points, "k").0
  {
    var call := Invoke(0, Put("k", "v", 5));
    events := [call, Attempt(0, Delivered)];
    assert events[..1] == [call] && [call][..0] == [];
    assert Run([]) == START;
    var s := Run([call]);
    assert s == Next(START, call);
    assert s.calls == map[0 := Call(Put("k", "v", 5), false, 0, 0)];
    var p := Point(1, 0, Put("k", "v", 5), Result("", 0, ErrNoKey));
    assert Run(events).points == [p];
    assert [p][..0] == [];
  }

  /** Every Put takes effect at most once: exactly once if it returns OK, never if it returns ErrVersion or ErrNoKey. */
  lemma {:induction false} PutAtMostOnce(events: seq<Event>, i: nat)
    requires i < |Run(events).done| && Run(events).done[i].op.Put?
    ensures var d := Run(events).done[i];
            && d.effects <= 1
            && (d.out.err == OK ==> d.effects == 1)
            && (d.out.err == ErrVersion || d.out.err == ErrNoKey ==> d.effects == 0)
  {
    RunOk(events);
    assert DoneOk(Run(events), Run(events).done[i]);
  }

  // ---------------------------------------------------------------- what a call returns, on the events

  /** At event `e` an attempt of the clerk is lost, or its reply is. */
  predicate LostAt(events: seq<Event>, clerk: nat, e: int) {
    0 <= e < |events| && events[e].Attempt? && events[e].clerk == clerk && events[e].fate != Delivered
  }

  predicate LostBetween(events: seq<Event>, clerk: nat, a: int, b: int) {
    exists e :: a < e < b && LostAt(events, clerk, e)
  }

  /** How one event moves a clerk's call. */
  lemma CallStep(s: System, e: Event, clerk: nat)
    requires clerk in Next(s, e).calls
    ensures var c' := Next(s, e).calls[clerk];
            if clerk in s.calls then
              && c'.id == s.calls[clerk].id && c'.op == s.calls[clerk].op
              && (c'.retry <==> s.calls[clerk].retry || (e.Attempt? && e.clerk == clerk && e.fate != Delivered))
            else e == Invoke(clerk, c'.op) && c'.id == s.now && !c'.retry
  {
    hide Serve, Report;
  }

  /** Only a delivered attempt at a call in progress completes one. */
  lemma DoneStep(s: System, e: Event)
    ensures var done' := Next(s, e).done;
            if e.Attempt? && e.fate == Delivered && e.clerk in s.calls then
              var c := s.calls[e.clerk];
              && |done'| == |s.done| + 1 && done'[..|s.done|] == s.done
              && var d := done'[|s.done|];
                 d.id == c.id && d.returned == s.now && d.op == c.op
                 && d.out == Report(c.op, c.retry, Serve(s.data, c.op).1)
            else done' == s.done
  {
    hide Serve, Report;
  }

  /** A call in progress was made at event `id`; its flag says whether an attempt of it was not delivered. */
  lemma {:induction false} CallTraced(events: seq<Event>, clerk: nat)
    requires clerk in Run(events).calls
    ensures var c := Run(events).calls[clerk];
            && c.id < |events| && events[c.id] == Invoke(clerk, c.op)
            && (c.retry <==> LostBetween(events, clerk, c.id, |events|))
  {
    hide Next, LostBetween;
    if events == [] {
      assert false;
    } else {
      var before, e := events[..|events| - 1], events[|events| - 1];
      RunOk(before);
      CallStep(Run(before), e, clerk);
      assert events == before + [e];
      if clerk in Run(before).calls {
        CallTraced(before, clerk);
        LostExtends(before, e, clerk, Run(before).calls[clerk].id);
      } else {
        NothingBetween(events, clerk, |before|);
      }
    }
  }

  lemma NothingBetween(events: seq<Event>, clerk: nat, a: int)
    requires a == |events| - 1
    ensures !LostBetween(events, clerk, a, |events|)
  {
  }

  lemma LostExtends(before: seq<Event>, e: Event, clerk: nat, a: int)
    requires a < |before|
    ensures var events := before + [e];
            LostBetween(events, clerk, a, |events|) <==>
              LostBetween(before, clerk, a, |before|) || LostAt(events, clerk, |before|)
  {
    var events := before + [e];
    if i :| a < i < |before| && LostAt(before, clerk, i) { assert LostAt(events, clerk, i); }
    if i :| a < i < |events| && LostAt(events, clerk, i) { assert i < |before| ==> LostAt(before, clerk, i); }
    if LostAt(events, clerk, |before|) { assert a < |before| < |events|; }
  }

  /**
   What a completed call returns: it was made at event `id` and ended by a delivered attempt at event `returned`; it
   returns the server's answer to that attempt, but that ErrVersion becomes ErrMaybe exactly for a Put of which an
   earlier attempt was not delivered.
   */
  lemma {:induction false} CompletedAnswers(events: seq<Event>, i: nat) returns (clerk: nat)
    requires i < |Run(events).done|
    ensures var d := Run(events).done[i];
            && d.id < d.returned < |events|
            && events[d.id] == Invoke(clerk, d.op) && events[d.returned] == Attempt(clerk, Delivered)
            && var answer := Serve(Run(events[..d.returned]).data, d.op).1;
               if d.op.Put? && answer.err == ErrVersion && LostBetween(events, clerk, d.id, d.returned)
               then d.out == Result(answer.value, answer.version, ErrMaybe)
               else d.out == answer
  {
    hide Serve, Next, LostBetween, Inv;
    if events == [] {
      assert false;
    } else {
      var before, e := events[..|events| - 1], events[|events| - 1];
      RunOk(before);
      var s := Run(before);
      DoneStep(s, e);
      if i < |s.done| {
        assert Run(events).done[i] == s.done[i];
        clerk := CompletedAnswers(before, i);
        var d := s.done[i];
        assert before[..d.returned] == events[..d.returned];
        LostBefore(before, events, clerk, d.id, d.returned);
      } else {
        clerk := e.clerk;
        CallTraced(before, clerk);
        assert events[..|before|] == before;
        LostBefore(before, events, clerk, s.calls[clerk].id, |before|);
      }
    }
  }

  lemma LostBefore(before: seq<Event>, events: seq<Event>, clerk: nat, a: int, b: int)
    requires before <= events && b <= |before|
    ensures LostBetween(before, clerk, a, b) <==> LostBetween(events, clerk, a, b)
  {
    if i :| a < i < b && LostAt(before, clerk, i) { assert LostAt(events, clerk, i); }
    if i :| a < i < b && LostAt(events, clerk, i) { assert 0 <= i ==> LostAt(before, clerk, i); }
  }

  /** The server never answers ErrMaybe, so a clerk that returns it had an earlier attempt that was not delivered. */
  lemma MaybeHadLoss(events: seq<Event>, i: nat) returns (clerk: nat, e: nat)
    requires i < |Run(events).done| && Run(events).done[i].out.err == ErrMaybe
    ensures var d := Run(events).done[i];
            && d.id < e < d.returned < |events| && events[d.id] == Invoke(clerk, d.op)
            && events[e].Attempt? && events[e].clerk == clerk && events[e].fate != Delivered
  {
    clerk := CompletedAnswers(events, i);
    var d := Run(events).done[i];
    e :| d.id < e < d.returned && LostAt(events, clerk, e);
  }

  /** A call whose first attempt is delivered returns exactly the server's answer. */
  lemma {:induction false} FirstDelivered(events: seq<Event>, clerk: nat, op: Op)
    requires clerk !in Run(events).calls
    ensures var s, s' := Run(events), Run(events + [Invoke(clerk, op), Attempt(clerk, Delivered)]);
            && clerk !in s'.calls && |s'.done| == |s.done| + 1
            && s'.done[|s.done|].op == op && s'.done[|s.done|].out == Serve(s.data, op).1
            && s'.data == Serve(s.data, op).0
  {
    hide Serve;
    var one, two := events + [Invoke(clerk, op)], events + [Invoke(clerk, op), Attempt(clerk, Delivered)];
    assert one[..|events|] == events && two[..|one|] == one;
  }
}
