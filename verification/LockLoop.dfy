/**
 MakeLock, Acquire and Release as the loops they are, over the clerk's loops. Each method does to the lock's fields
 and to the store what the attempts of Lock do one by one, so the results about all runs there hold of the loops.
 */
module LockLoop {
  import opened KvServer
  import opened ClerkLoop
  import Clerks
  import L = Lock

  /** How a call ends: it returns, it stops the program with log.Fatal, or the script is over first. */
  datatype End = Returned | Fatal | Unfinished

  /** The attempts of one client, each after other requests of the round. */
  function Tries(key: string, data: Store, c: L.Client, script: seq<Round>): (Store, L.Client)
    decreases |script|
  {
    if script == [] || !L.Waiting(c) then (data, c)
    else
      var (data', c') := L.Try(key, ServeAll(data, script[0].others), c, script[0].fate);
      Tries(key, data', c', script[1..])
  }

  /** One call of the clerk is the attempts up to its return. */
  lemma {:induction false} CallIsTries(key: string, data: Store, c: L.Client, script: seq<Round>)
    requires L.Waiting(c)
    ensures var end := Outcome(data, L.Request(c, key), c.resent, script);
            && (end.result.Some? ==>
                  && |end.rest| < |script|
                  && Tries(key, data, c, script)
                       == Tries(key, end.data, L.Return(c, end.result.value).(resent := false), end.rest))
            && (end.result.None? ==>
                  Tries(key, data, c, script).0 == end.data
                      && Tries(key, data, c, script).1 == c.(resent := c.resent || script != []))
    decreases |script|
  {
    if script != [] {
      var now := ServeAll(data, script[0].others);
      var (data', c') := L.Try(key, now, c, script[0].fate);
      if !script[0].fate.Delivered? {
        assert c' == c.(resent := true) && L.Request(c', key) == L.Request(c, key);
        CallIsTries(key, data', c', script[1..]);
        Flagged(key, c, script[1..], data');
      }
    }
  }

  /** What the clerk returns does not depend on its flag's earlier value once an attempt has failed. */
  lemma Flagged(key: string, c: L.Client, script: seq<Round>, data: Store)
    requires L.Waiting(c)
    ensures var end := Outcome(data, L.Request(c, key), true, script);
            end.result.Some? ==>
              L.Return(c.(resent := true), end.result.value).(resent := false)
              == L.Return(c, end.result.value).(resent := false)
  {
  }

  /** Every attempt is delivered and no other request comes between. */
  predicate Quiet(script: seq<Round>) {
    forall k :: 0 <= k < |script| ==> script[k] == Round([], Clerks.Delivered)
  }

  lemma {:induction false} QuietAlone(key: string, data: Store, c: L.Client, script: seq<Round>)
    requires Quiet(script)
    ensures Tries(key, data, c, script) == L.Alone(key, data, c, |script|)
    decreases |script|
  {
    if script != [] && L.Waiting(c) {
      var (data', c') := L.Try(key, data, c, Clerks.Delivered);
      assert ServeAll(data, []) == data;
      QuietAlone(key, data', c', script[1..]);
    }
  }

  /** What a quiet Acquire does: it stops without the key, takes a free lock, keeps its own and waits for another's. */
  predicate QuietAcquire(key: string, data: Store, c: L.Client, script: seq<Round>) {
    var (data', c') := Tries(key, data, c, script);
    && (script != [] && key !in data ==> data' == data && c'.pc.Dead?)
    && (|script| >= 2 && key in data && data[key].value == L.FREE ==>
          && data' == data[key := Value(c.id, data[key].version + 1)]
          && c'.pc.Ready? && c'.ver == data[key].version + 1)
    && (script != [] && key in data && data[key].value == c.id != L.FREE ==>
          data' == data && c'.pc.Ready? && c'.ver == c.ver)
    && (key in data && data[key].value != c.id && data[key].value != L.FREE ==> data' == data && c' == c)
  }

  lemma AcquiresQuietly(key: string, data: Store, c: L.Client, script: seq<Round>)
    requires Quiet(script) && c.pc.AcquireGet? && !c.resent
    ensures QuietAcquire(key, data, c, script)
  {
    QuietAlone(key, data, c, script);
    if key in data && data[key].value == L.FREE {
      if |script| >= 2 { L.TakesFree(key, data, c, |script|); }
    } else if key in data && data[key].value != c.id {
      L.Waits(key, data, c, |script|);
    } else if script != [] {
      var (data1, c1) := L.Try(key, data, c, Clerks.Delivered);
      assert L.Alone(key, data, c, |script|) == L.Alone(key, data1, c1, |script| - 1);
    }
  }

  lemma ReleasesQuietly(key: string, data: Store, c: L.Client, script: seq<Round>)
    requires Quiet(script) && script != [] && c.pc == L.ReleasePut(false) && key in data
    requires L.Owns(c, data[key])
    ensures Tries(key, data, c, script)
            == (data[key := Value(L.FREE, c.ver + 1)], c.(pc := L.Ready, ver := 0, resent := false))
  {
    QuietAlone(key, data, c, script);
    var (data1, c1) := L.Try(key, data, c, Clerks.Delivered);
    assert L.Alone(key, data, c, |script|) == L.Alone(key, data1, c1, |script| - 1);
  }

  lemma MakesQuietly(key: string, data: Store, c: L.Client, script: seq<Round>)
    requires Quiet(script) && |script| >= 2 && c.pc.MakeGet? && (key in data ==> data[key].version >= 1)
    ensures Tries(key, data, c, script)
            == (if key in data then data else data[key := Value(L.FREE, 1)], c.(pc := L.Ready, resent := false))
  {
    QuietAlone(key, data, c, script);
    L.Makes(key, data, c, |script|);
  }

  class Lock {
    const ck: Clerk
    const key: string
    const identifier: string
    var ver: nat

    constructor (clerk: Clerk, l: string, id: string)
      ensures ck == clerk && key == l && identifier == id && ver == 0
    {
      ck, key, identifier, ver := clerk, l, id, 0;
    }

    /** The lock as the client of the protocol that is at `pc`. */
    ghost function At(pc: L.Pc, inside: bool): L.Client
      reads this
    {
      L.Client(identifier, ver, pc, false, inside)
    }

    /** The rest of the calls from place `c` on are the attempts of the whole call. */
    twostate predicate Follows(c: L.Client, rest: seq<Round>, c0: L.Client, script: seq<Round>)
      reads ck.server
    {
      Tries(key, ck.server.data, c, rest) == Tries(key, old(ck.server.data), c0, script)
    }

    /** How the call ended, as the attempts of the protocol say. */
    twostate predicate Ends(end: End, c0: L.Client, script: seq<Round>)
      reads this, ck.server
    {
      var (data', c') := Tries(key, old(ck.server.data), c0, script);
      && ck.server.data == data' && ver == c'.ver
      && (end.Returned? <==> c'.pc.Ready?) && (end.Fatal? <==> c'.pc.Dead?)
    }

    /** The requests of MakeLock. */
    method Make(script: seq<Round>) returns (end: End)
      modifies ck.server
      ensures Ends(end, At(L.MakeGet, false), script)
      ensures Quiet(script) && |script| >= 2 && (key in old(ck.server.data) ==> old(ck.server.data)[key].version >= 1)
              ==> end == Returned && ck.server.data == if key in old(ck.server.data) then old(ck.server.data)
                                                       else old(ck.server.data)[key := Value(L.FREE, 1)]
    {
      if Quiet(script) && |script| >= 2 && (key in ck.server.data ==> ck.server.data[key].version >= 1) {
        MakesQuietly(key, ck.server.data, At(L.MakeGet, false), script);
      }
      var r, rest := Ask(L.MakeGet, false, script);
      if r.None? {
        return Unfinished;
      }
      if r.value.err != ErrNoKey {
        return Returned;
      }
      while true
        invariant Follows(At(L.MakePut, false), rest, At(L.MakeGet, false), script)
        decreases |rest|
      {
        CallIsTries(key, ck.server.data, At(L.MakePut, false), rest);
        var err;
        err, rest := ck.Put(key, L.FREE, 0, rest);
        if err.None? {
          return Unfinished;
        }
        if err.value == OK {
          return Returned;
        }
        r, rest := Ask(L.MakeCheck, false, rest);
        if r.None? {
          return Unfinished;
        }
        if r.value.err == OK {
          return Returned;
        }
      }
    }

    /** A Get of the lock's key, at a place of the protocol that makes one. */
    method Ask(ghost pc: L.Pc, ghost inside: bool, script: seq<Round>) returns (r: Option<Result>, rest: seq<Round>)
      requires pc.MakeGet? || pc.MakeCheck? || pc.AcquireGet? || pc.AcquireCheck?
      modifies ck.server
      ensures r.Some? ==> |rest| < |script| && Follows(L.Return(At(pc, inside), r.value), rest, At(pc, inside), script)
      ensures r.None? ==> Tries(key, old(ck.server.data), At(pc, inside), script) ==
                          (ck.server.data, At(pc, inside).(resent := script != []))
    {
      CallIsTries(key, ck.server.data, At(pc, inside), script);
      r, rest := ck.Get(key, script);
    }

    method Acquire(ghost inside: bool, script: seq<Round>) returns (end: End)
      modifies this`ver, ck.server
      ensures Ends(end, old(At(L.AcquireGet, inside)), script)
      ensures Quiet(script) && script != [] && key !in old(ck.server.data) ==>
                end == Fatal && ck.server.data == old(ck.server.data)
      ensures Quiet(script) && |script| >= 2 && key in old(ck.server.data)
              && old(ck.server.data)[key].value == L.FREE ==>
                && end == Returned && ver == old(ck.server.data)[key].version + 1
                && ck.server.data == old(ck.server.data)[key := Value(identifier, ver)]
      ensures Quiet(script) && key in old(ck.server.data) && old(ck.server.data)[key].value != L.FREE ==>
                && ver == old(ver) && ck.server.data == old(ck.server.data)
                && (old(ck.server.data)[key].value != identifier ==> end == Unfinished)
                && (old(ck.server.data)[key].value == identifier && script != [] ==> end == Returned)
    {
      if Quiet(script) {
        AcquiresQuietly(key, ck.server.data, At(L.AcquireGet, inside), script);
      }
      var rest := script;
      while true
        invariant ver == old(ver)
        invariant Follows(At(L.AcquireGet, inside), rest, old(At(L.AcquireGet, inside)), script)
        decreases |rest|
      {
        var r;
        r, rest := Ask(L.AcquireGet, inside, rest);
        if r.None? {
          return Unfinished;
        }
        if r.value.err == ErrNoKey {
          return Fatal;
        }
        if r.value.err == OK {
          if r.value.value == L.FREE {
            var over;
            over, rest := PutOwn(inside, r.value.version, rest);
            if over.Some? {
              return over.value;
            }
          } else if r.value.value == identifier {
            return Returned;
          }
        }
      }
    }

    /** The part of Acquire that follows a free state: nothing when the loop goes on. */
    method PutOwn(ghost inside: bool, version: nat, script: seq<Round>) returns (over: Option<End>, rest: seq<Round>)
      modifies this`ver, ck.server
      ensures over.Some? ==> Ends(over.value, old(At(L.AcquirePut(version), inside)), script)
      ensures over.None? ==>
                && ver == old(ver) && |rest| < |script|
                && Follows(At(L.AcquireGet, inside), rest, old(At(L.AcquirePut(version), inside)), script)
    {
      CallIsTries(key, ck.server.data, At(L.AcquirePut(version), inside), script);
      var err;
      err, rest := ck.Put(key, identifier, version, script);
      if err.None? {
        return Some(Unfinished), [];
      }
      if err.value == OK {
        ver := version + 1;
        return Some(Returned), rest;
      }
      if err.value == ErrMaybe {
        var r;
        r, rest := Ask(L.AcquireCheck, inside, rest);
        if r.None? {
          return Some(Unfinished), [];
        }
        if r.value.value == identifier {
          ver := r.value.version;
          return Some(Returned), rest;
        }
      }
      over := None;
    }

    /** Release of a lock that is held; with `ver` 0 the source returns at once. */
    method Release(script: seq<Round>) returns (end: End)
      modifies this`ver, ck.server
      ensures old(ver) == 0 ==> end == Returned && ver == 0 && ck.server.data == old(ck.server.data)
      ensures old(ver) != 0 ==> Ends(end, old(At(L.ReleasePut(false), false)), script)
      ensures Quiet(script) && script != [] && old(ver) != 0 && key in old(ck.server.data)
              && old(ck.server.data)[key] == Value(identifier, old(ver)) ==>
                && end == Returned && ver == 0
                && ck.server.data == old(ck.server.data)[key := Value(L.FREE, old(ver) + 1)]
    {
      if Quiet(script) && script != [] && key in ck.server.data && ck.server.data[key] == Value(identifier, ver) {
        ReleasesQuietly(key, ck.server.data, At(L.ReleasePut(false), false), script);
      }
      if ver == 0 {
        return Returned;
      }
      var retry, rest := false, script;
      while true
        invariant ver == old(ver)
        invariant Follows(At(L.ReleasePut(retry), false), rest, old(At(L.ReleasePut(false), false)), script)
        decreases |rest|
      {
        CallIsTries(key, ck.server.data, At(L.ReleasePut(retry), false), rest);
        var err;
        err, rest := ck.Put(key, L.FREE, ver, rest);
        if err.None? {
          return Unfinished;
        }
        if err.value == OK {
          break;
        }
        if err.value == ErrMaybe {
          retry := true;
        } else if retry {
          break;
        } else {
          return Fatal;
        }
      }
      ver := 0;
      return Returned;
    }
  }
}
