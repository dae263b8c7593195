/**
 Clerk.Get and Clerk.Put as the loops they are. A script says what the network does to each attempt and which other
 clerks' requests the server handles first; a real call goes on until some attempt is answered. Each loop does what the
 events of the clerk system do, so the results about all runs of that system hold of the loops.
 */
module ClerkLoop {
  import opened KvServer
  import opened Clerks

  datatype Round = Round(others: seq<Op>, fate: Fate)

  datatype Option<T> = None | Some(value: T)

  function ServeAll(data: Store, ops: seq<Op>): Store
    decreases |ops|
  {
    if ops == [] then data else ServeAll(Serve(data, ops[0]).0, ops[1..])
  }

  /** The store when the call ends or the script does, what the call returns if it ends, and the rounds not used. */
  datatype Ending = Ending(data: Store, result: Option<Result>, rest: seq<Round>)

  /** The first answered attempt ends the call. */
  function Outcome(data: Store, op: Op, retry: bool, script: seq<Round>): Ending
    decreases |script|
  {
    if script == [] then Ending(data, None, [])
    else
      var now := ServeAll(data, script[0].others);
      match script[0].fate
      case RequestLost => Outcome(now, op, true, script[1..])
      case ReplyLost => Outcome(Serve(now, op).0, op, true, script[1..])
      case Delivered => Ending(Serve(now, op).0, Some(Report(op, retry, Serve(now, op).1)), script[1..])
  }

  class Clerk {
    const server: KVServer

    constructor (srv: KVServer)
      ensures server == srv
    {
      server := srv;
    }

    /** Requests of other clerks. */
    method Interfere(ops: seq<Op>)
      modifies server
      ensures server.data == ServeAll(old(server.data), ops)
    {
      for i := 0 to |ops|
        invariant ServeAll(server.data, ops[i..]) == ServeAll(old(server.data), ops)
      {
        assert ops[i..][1..] == ops[i + 1..];
        if ops[i].Put? {
          var _ := server.Put(ops[i].key, ops[i].value, ops[i].version);
        } else {
          var _, _, _ := server.Get(ops[i].key);
        }
      }
    }

    method Get(key: string, script: seq<Round>) returns (r: Option<Result>, rest: seq<Round>)
      modifies server
      ensures Ending(server.data, r, rest) == Outcome(old(server.data), Op.Get(key), false, script)
    {
      ghost var retry := false;
      for i := 0 to |script|
        invariant Outcome(server.data, Op.Get(key), retry, script[i..])
                  == Outcome(old(server.data), Op.Get(key), false, script)
      {
        assert script[i..][1..] == script[i + 1..];
        Interfere(script[i].others);
        if script[i].fate != RequestLost {
          var value, version, err := server.Get(key);
          if script[i].fate == Delivered {
            return Some(Result(value, version, err)), script[i + 1..];
          }
        }
        retry := true;
      }
      return None, [];
    }

    method Put(key: string, value: string, version: nat, script: seq<Round>) returns (r: Option<Err>, rest: seq<Round>)
      modifies server
      ensures var end := Outcome(old(server.data), Op.Put(key, value, version), false, script);
              && server.data == end.data && rest == end.rest
              && end.result == if r.Some? then Some(Result("", 0, r.value)) else None
    {
      ghost var op := Op.Put(key, value, version);
      var retry := false;
      for i := 0 to |script|
        invariant Outcome(server.data, op, retry, script[i..]) == Outcome(old(server.data), op, false, script)
      {
        assert script[i..][1..] == script[i + 1..];
        Interfere(script[i].others);
        if script[i].fate != RequestLost {
          var err := server.Put(key, value, version);
          if script[i].fate == Delivered {
            if retry && err == ErrVersion {
              return Some(ErrMaybe), script[i + 1..];
            }
            return Some(err), script[i + 1..];
          }
        }
        retry := true;
      }
      return None, [];
    }
  }

  // ---------------------------------------------------------------- the loops are runs of the clerk system

  function After(s: System, events: seq<Event>): System
    decreases |events|
  {
    if events == [] then s else After(Next(s, events[0]), events[1..])
  }

  /** Clerk `other` calls each operation and is answered at once. */
  function Calls(other: nat, ops: seq<Op>): seq<Event> {
    if ops == [] then [] else [Invoke(other, ops[0]), Attempt(other, Delivered)] + Calls(other, ops[1..])
  }

  function Events(me: nat, other: nat, script: seq<Round>): seq<Event> {
    if script == [] then []
    else
      var later := if script[0].fate == Delivered then [] else Events(me, other, script[1..]);
      Calls(other, script[0].others) + [Attempt(me, script[0].fate)] + later
  }

  /** The call `d` ended last. */
  predicate EndedLast(s: System, id: nat, op: Op, r: Result) {
    s.done != [] && var d := s.done[|s.done| - 1]; d.op == op && d.id == id && d.out == r
  }

  lemma {:induction false} AfterAppend(s: System, a: seq<Event>, b: seq<Event>)
    ensures After(s, a + b) == After(After(s, a), b)
    decreases |a|
  {
    if a == [] {
      assert a + b == b;
    } else {
      assert (a + b)[1..] == a[1..] + b;
      AfterAppend(Next(s, a[0]), a[1..], b);
    }
  }

  lemma {:induction false} CallsServe(s: System, other: nat, ops: seq<Op>)
    requires other !in s.calls
    ensures var s' := After(s, Calls(other, ops));
            s'.data == ServeAll(s.data, ops) && s'.calls == s.calls
    decreases |ops|
  {
    if ops != [] {
      var e1, e2 := Invoke(other, ops[0]), Attempt(other, Delivered);
      var s1 := Next(s, e1);
      var s2 := Next(s1, e2);
      assert s2.calls == s.calls;
      CallsServe(s2, other, ops[1..]);
      AfterTwo(s, e1, e2, Calls(other, ops[1..]));
    }
  }

  lemma AfterTwo(s: System, e1: Event, e2: Event, rest: seq<Event>)
    ensures After(s, [e1, e2] + rest) == After(Next(Next(s, e1), e2), rest)
  {
    assert ([e1, e2] + rest)[1..] == [e2] + rest && ([e2] + rest)[1..] == rest;
  }

  lemma AfterOne(s: System, e: Event)
    ensures After(s, [e]) == Next(s, e)
  {
    assert [e][1..] == [];
  }

  lemma AttemptIsRound(s: System, me: nat, fate: Fate)
    requires me in s.calls
    ensures var c, s' := s.calls[me], Next(s, Attempt(me, fate));
            var (data', r) := Serve(s.data, c.op);
            && s'.data == (if fate == RequestLost then s.data else data')
            && (forall k :: k in s'.calls <==> k in s.calls && (k != me || fate != Delivered))
            && (fate != Delivered ==> s'.calls[me].op == c.op && s'.calls[me].id == c.id && s'.calls[me].retry)
            && (fate == Delivered ==> EndedLast(s', c.id, c.op, Report(c.op, c.retry, r)))
  {
  }

  /**
   A loop that has not returned leaves the clerk's call in progress in the system; one that returns `r` is the completed
   call with result `r`; and the store is the same throughout.
   */
  lemma {:induction false} LoopIsRun(s: System, me: nat, other: nat, script: seq<Round>)
    requires me in s.calls && other !in s.calls
    ensures var c := s.calls[me];
            var s' := After(s, Events(me, other, script));
            var Ending(data', r, _) := Outcome(s.data, c.op, c.retry, script);
            && s'.data == data'
            && (r.None? ==> me in s'.calls && s'.calls[me].op == c.op && s'.calls[me].id == c.id)
            && (r.Some? ==> me !in s'.calls && EndedLast(s', c.id, c.op, r.value))
    decreases |script|
  {
    hide Next, Serve, Calls;
    if script != [] {
      var first, e := Calls(other, script[0].others), Attempt(me, script[0].fate);
      var s1 := After(s, first);
      var s2 := Next(s1, e);
      CallsServe(s, other, script[0].others);
      AttemptIsRound(s1, me, script[0].fate);
      var rest := if script[0].fate == Delivered then [] else Events(me, other, script[1..]);
      AfterAppend(s, first + [e], rest);
      AfterAppend(s, first, [e]);
      AfterOne(s1, e);
      assert After(s, Events(me, other, script)) == After(s2, rest);
      if script[0].fate != Delivered {
        LoopIsRun(s2, me, other, script[1..]);
      }
    }
  }
}
