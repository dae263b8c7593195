/**
 The lock built on the key/value clerk: MakeLock, Acquire and Release by any number of clients, one request attempt at
 a time, while other traffic uses other keys of the same server. The lock state is one key that holds "unlocked" or the
 identifier of the client that has the lock.
 */
module Lock {
  import opened KvServer
  import Clerks

  const FREE := "unlocked"

  /** Where a client is: outside any call, waiting for a reply in one of them, or stopped by log.Fatal. */
  datatype Pc =
    | Unmade | MakeGet | MakePut | MakeCheck
    | Ready
    | AcquireGet | AcquirePut(version: nat) | AcquireCheck
    | ReleasePut(retry: bool)
    | Dead

  /**
   A client: the fields of Lock, its place, the flag of the clerk's Put loop (`resent`), and whether it is between a
   return from Acquire and its next call of Release (`inside`).
   */
  datatype Client = Client(id: string, ver: nat, pc: Pc, resent: bool, inside: bool)

  datatype System = System(key: string, data: Store, clients: seq<Client>)

  datatype Call = Make | Acquire | Release

  datatype Event = Begin(client: nat, call: Call) | Attempt(client: nat, fate: Clerks.Fate) | Other(op: Op)

  function Start(key: string, ids: seq<string>): System {
    System(key, map[], seq(|ids|, i requires 0 <= i < |ids| => Client(ids[i], 0, Unmade, false, false)))
  }

  /** The request a client is waiting on. */
  predicate Waiting(c: Client) {
    !c.pc.Unmade? && !c.pc.Ready? && !c.pc.Dead?
  }

  function Request(c: Client, key: string): Op
    requires Waiting(c)
  {
    match c.pc
    case MakePut => Put(key, FREE, 0)
    case AcquirePut(version) => Put(key, c.id, version)
    case ReleasePut(_) => Put(key, FREE, c.ver)
    case _ => Get(key)
  }

  /** What the client does when the clerk returns `r`. */
  function Return(c: Client, r: Result): Client
    requires Waiting(c)
  {
    match c.pc
    case MakeGet => c.(pc := if r.err == ErrNoKey then MakePut else Ready)
    case MakePut => c.(pc := if r.err == OK then Ready else MakeCheck)
    case MakeCheck => c.(pc := if r.err == OK then Ready else MakePut)
    case AcquireGet =>
      if r.err == ErrNoKey then c.(pc := Dead)
      else if r.err == OK && r.value == FREE then c.(pc := AcquirePut(r.version))
      else if r.err == OK && r.value == c.id then c.(pc := Ready, inside := true)
      else c
    case AcquirePut(version) =>
      if r.err == OK then c.(pc := Ready, inside := true, ver := version + 1)
      else if r.err == ErrMaybe then c.(pc := AcquireCheck)
      else c.(pc := AcquireGet)
    case AcquireCheck =>
      if r.value == c.id then c.(pc := Ready, inside := true, ver := r.version) else c.(pc := AcquireGet)
    case ReleasePut(retry) =>
      if r.err == OK then c.(pc := Ready, ver := 0)
      else if r.err == ErrMaybe then c.(pc := ReleasePut(true))
      else if retry then c.(pc := Ready, ver := 0)
      else c.(pc := Dead)
  }

  /** One attempt at the client's request: the store and the client afterwards. */
  function Try(key: string, data: Store, c: Client, fate: Clerks.Fate): (Store, Client)
    requires Waiting(c)
  {
    if fate == Clerks.RequestLost then (data, c.(resent := true))
    else
      var (data', r) := Serve(data, Request(c, key));
      if fate == Clerks.ReplyLost then (data', c.(resent := true))
      else (data', Return(c, Clerks.Report(Request(c, key), c.resent, r)).(resent := false))
  }

  /** The state of client `i` after a call of MakeLock (once, before the others), Acquire or Release. */
  function Called(c: Client, call: Call): Client {
    match call
    case Make => if c.pc.Unmade? then c.(pc := MakeGet) else c
    case Acquire => if c.pc.Ready? then c.(pc := AcquireGet) else c
    case Release =>
      if !c.pc.Ready? then c
      else c.(inside := false, pc := if c.ver == 0 then Ready else ReleasePut(false))
  }

  /** Each client is in one call at a time. Other traffic leaves the lock's key alone. */
  function Next(s: System, e: Event): System {
    match e
    case Begin(i, call) => if i < |s.clients| then With(s, i, Called(s.clients[i], call)) else s
    case Attempt(i, fate) =>
      if i < |s.clients| && Waiting(s.clients[i]) then
        var (data', c) := Try(s.key, s.data, s.clients[i], fate);
        With(s.(data := data'), i, c)
      else s
    case Other(op) => if op.key == s.key then s else s.(data := Serve(s.data, op).0)
  }

  function With(s: System, i: nat, c: Client): System
    requires i < |s.clients|
  {
    s.(clients := s.clients[i := c])
  }

  function Run(key: string, ids: seq<string>, events: seq<Event>): System {
    if events == [] then Start(key, ids) else Next(Run(key, ids, events[..|events| - 1]), events[|events| - 1])
  }

  /** The identifiers RandValue gave are distinct, and none of them is "unlocked". */
  predicate Distinct(ids: seq<string>) {
    && (forall i :: 0 <= i < |ids| ==> ids[i] != FREE)
    && (forall i, j :: 0 <= i < j < |ids| ==> ids[i] != ids[j])
  }

  // ---------------------------------------------------------------- the invariant

  /** Nothing is stored for the lock yet. */
  predicate Early(c: Client) {
    c.ver == 0 && !c.inside && (c.pc.Unmade? || c.pc.MakeGet? || c.pc.MakePut? || c.pc.MakeCheck?)
  }

  /**
   How a client's place relates to the stored lock state `v`. A client with a nonzero `ver` that is not releasing owns
   the state. An acquiring client's version is that of a free state. A releasing client still owns the state, or has
   sent its Put before and the state has moved on.
   */
  predicate Fits(c: Client, v: Value) {
    && !c.pc.Dead?
    && (c.inside <==> c.ver > 0 && !c.pc.ReleasePut?)
    && (c.inside ==> v == Value(c.id, c.ver) && (c.pc.Ready? || c.pc.AcquireGet?))
    && (c.ver == 0 && v.value == c.id ==>
          c.pc.AcquireCheck? || (c.pc.AcquirePut? && c.resent && v.version == c.pc.version + 1))
    && (c.pc.AcquirePut? ==> 1 <= c.pc.version <= v.version && (v.version == c.pc.version ==> v.value == FREE))
    && (c.pc.ReleasePut? ==> c.ver > 0 && (Owns(c, v) || (Moved(c, v) && (c.resent || c.pc.retry))))
    && (c.pc.ReleasePut? && c.pc.retry ==> Moved(c, v))
  }

  predicate Owns(c: Client, v: Value) {
    v == Value(c.id, c.ver)
  }

  predicate Moved(c: Client, v: Value) {
    v.value != c.id && v.version > c.ver
  }

  predicate ClientOk(c: Client, key: string, data: Store) {
    if key in data then Fits(c, data[key]) else Early(c)
  }

  predicate Inv(s: System, ids: seq<string>) {
    && |s.clients| == |ids|
    && (s.key in s.data ==> s.data[s.key].version >= 1)
    && (forall i :: 0 <= i < |ids| ==> s.clients[i].id == ids[i] && ClientOk(s.clients[i], s.key, s.data))
  }

  /** What an attempt of another client may do to the lock state, seen by `c`. */
  predicate Undisturbed(c: Client, v: Value, v': Value) {
    v' == v || (v.value != c.id && v'.value != c.id && v'.version == v.version + 1)
  }

  lemma OtherFits(c: Client, v: Value, v': Value)
    requires Fits(c, v) && Undisturbed(c, v, v')
    ensures Fits(c, v')
  {
  }

  /**
   The attempting client keeps its relation to the lock state, and changes that state only as free -> own or own ->
   free.
   */
  lemma TryFits(key: string, data: Store, c: Client, fate: Clerks.Fate)
    requires Waiting(c) && c.id != FREE && ClientOk(c, key, data) && (key in data ==> data[key].version >= 1)
    ensures var (data', c') := Try(key, data, c, fate);
            && ClientOk(c', key, data') && c'.id == c.id
            && (key in data' ==> data'[key].version >= 1)
            && (key in data && data'[key] != data[key] ==>
                  || (c.pc.AcquirePut? && data[key].value == FREE && data'[key] == Value(c.id, data[key].version + 1))
                  || (c.pc.ReleasePut? && data[key] == Value(c.id, c.ver) && data'[key] == Value(FREE, c.ver + 1)))
            && (key !in data && key in data' ==> data'[key] == Value(FREE, 1))
            && (key in data ==> key in data')
  {
  }

  lemma NextKeepsInv(s: System, ids: seq<string>, e: Event)
    requires Inv(s, ids) && Distinct(ids)
    ensures Inv(Next(s, e), ids)
  {
    var s' := Next(s, e);
    if e.Attempt? && e.client < |s.clients| && Waiting(s.clients[e.client]) {
      hide Try, Fits;
      var c := s.clients[e.client];
      TryFits(s.key, s.data, c, e.fate);
      forall i | 0 <= i < |ids| && i != e.client ensures ClientOk(s'.clients[i], s.key, s'.data) {
        BystanderOk(s, ids, e.client, e.fate, i);
      }
    }
  }

  lemma BystanderOk(s: System, ids: seq<string>, k: nat, fate: Clerks.Fate, i: nat)
    requires Inv(s, ids) && Distinct(ids) && k < |ids| && i < |ids| && i != k && Waiting(s.clients[k])
    ensures ClientOk(s.clients[i], s.key, Try(s.key, s.data, s.clients[k], fate).0)
  {
    hide Try, Fits;
    var c, d := s.clients[k], s.clients[i];
    var data' := Try(s.key, s.data, c, fate).0;
    TryFits(s.key, s.data, c, fate);
    assert d.id == ids[i] && c.id == ids[k] && ids[i] != FREE && ids[i] != ids[k];
    if s.key in s.data {
      OtherFits(d, s.data[s.key], data'[s.key]);
    } else if s.key in data' {
      EarlyFits(d);
    }
  }

  lemma EarlyFits(c: Client)
    requires Early(c) && c.id != FREE
    ensures Fits(c, Value(FREE, 1))
  {
  }

  lemma {:induction false} RunKeepsInv(key: string, ids: seq<string>, events: seq<Event>)
    requires Distinct(ids)
    ensures Inv(Run(key, ids, events), ids) && Run(key, ids, events).key == key
  {
    if events != [] {
      RunKeepsInv(key, ids, events[..|events| - 1]);
      NextKeepsInv(Run(key, ids, events[..|events| - 1]), ids, events[|events| - 1]);
    }
  }

  // ---------------------------------------------------------------- theorems

  /** In every run a client inside the lock finds its identifier and its `ver` stored at the server. */
  lemma {:induction false} HolderIsStored(key: string, ids: seq<string>, events: seq<Event>, i: nat)
    requires Distinct(ids) && i < |ids|
    ensures var s := Run(key, ids, events);
            |s.clients| == |ids|
                && (s.clients[i].inside ==> key in s.data && s.data[key] == Value(ids[i], s.clients[i].ver))
  {
    RunKeepsInv(key, ids, events);
  }

  /** In every run at most one client is between Acquire and Release. */
  lemma {:induction false} MutualExclusion(key: string, ids: seq<string>, events: seq<Event>, i: nat, j: nat)
    requires Distinct(ids) && i < j < |ids|
    ensures var s := Run(key, ids, events);
            |s.clients| == |ids| && !(s.clients[i].inside && s.clients[j].inside)
  {
    HolderIsStored(key, ids, events, i);
    HolderIsStored(key, ids, events, j);
  }

  /** Neither log.Fatal is ever reached. */
  lemma {:induction false} NoFatal(key: string, ids: seq<string>, events: seq<Event>, i: nat)
    requires Distinct(ids) && i < |ids|
    ensures var s := Run(key, ids, events); |s.clients| == |ids| && !s.clients[i].pc.Dead?
  {
    RunKeepsInv(key, ids, events);
  }

  /**
   Only its holder frees the lock: whatever event comes next, the lock state stops being client i's only by an attempt
   of client i's own Release, which makes it free. So a Put that another client resends never frees client i's lock.
   */
  lemma {:induction false} OnlyHolderFrees(key: string, ids: seq<string>, events: seq<Event>, e: Event, i: nat)
    requires Distinct(ids) && i < |ids|
    requires var s := Run(key, ids, events); key in s.data && s.data[key].value == ids[i]
    ensures var s, s' := Run(key, ids, events), Next(Run(key, ids, events), e);
            && key in s'.data && |s.clients| == |ids|
            && (s'.data[key] != s.data[key] ==>
                  && e.Attempt? && e.client == i && s.clients[i].pc.ReleasePut? && !s.clients[i].inside
                  && s'.data[key] == Value(FREE, s.data[key].version + 1))
  {
    RunKeepsInv(key, ids, events);
    var s := Run(key, ids, events);
    if e.Attempt? && e.client < |s.clients| && Waiting(s.clients[e.client]) {
      hide Try;
      TryFits(key, s.data, s.clients[e.client], e.fate);
    }
  }

  /**
   A client that has returned from Release, or has never acquired, does not own the lock: a returned Release has
   freed it.
   */
  lemma {:induction false} ReleaseReturnsFreed(key: string, ids: seq<string>, events: seq<Event>, i: nat)
    requires Distinct(ids) && i < |ids|
    ensures var s := Run(key, ids, events);
            |s.clients| == |ids|
                && (s.clients[i].pc.Ready? && !s.clients[i].inside && key in s.data ==> s.data[key].value != ids[i])
  {
    RunKeepsInv(key, ids, events);
  }

  // ---------------------------------------------------------------- progress

  /** `n` attempts, all delivered, with nothing else in between; none once the call has returned. */
  function Alone(key: string, data: Store, c: Client, n: nat): (Store, Client)
    decreases n
  {
    if n == 0 || !Waiting(c) then (data, c)
    else var (data', c') := Try(key, data, c, Clerks.Delivered); Alone(key, data', c', n - 1)
  }

  function Delivered(i: nat, n: nat): seq<Event> {
    seq(n, _ => Attempt(i, Clerks.Delivered))
  }

  lemma {:induction false} DeliveredAlone(key: string, ids: seq<string>, events: seq<Event>, i: nat, n: nat)
    requires i < |Run(key, ids, events).clients| && Run(key, ids, events).key == key
    ensures var s := Run(key, ids, events);
            var (data', c) := Alone(key, s.data, s.clients[i], n);
            Run(key, ids, events + Delivered(i, n)) == With(s.(data := data'), i, c)
    decreases n
  {
    hide Try;
    var s := Run(key, ids, events);
    if n == 0 {
      assert events + Delivered(i, 0) == events;
    } else {
      var e := Attempt(i, Clerks.Delivered);
      assert (events + [e])[..|events|] == events;
      assert events + Delivered(i, n) == events + [e] + Delivered(i, n - 1);
      DeliveredAlone(key, ids, events + [e], i, n - 1);
    }
  }

  lemma BeginRun(key: string, ids: seq<string>, events: seq<Event>, e: Event)
    ensures Run(key, ids, events + [e]) == Next(Run(key, ids, events), e)
  {
    assert (events + [e])[..|events|] == events;
  }

  /** In Acquire, wherever the last attempts have left it. */
  predicate Acquiring(c: Client) {
    c.pc.AcquireGet? || c.pc.AcquirePut? || c.pc.AcquireCheck?
  }

  /** Two attempts take a free lock: one reads it, one writes the client's identifier with the next version. */
  lemma TakesFree(key: string, data: Store, c: Client, n: nat)
    requires c.pc.AcquireGet? && n >= 2 && key in data && data[key].value == FREE
    ensures var w := data[key].version + 1;
            Alone(key, data, c, n) == (data[key := Value(c.id, w)], Client(c.id, w, Ready, false, true))
  {
    var (data1, c1) := Try(key, data, c, Clerks.Delivered);
    assert data1 == data && c1 == c.(pc := AcquirePut(data[key].version), resent := false);
    var (data2, c2) := Try(key, data1, c1, Clerks.Delivered);
    assert data2 == data[key := Value(c.id, data[key].version + 1)] && c2.pc.Ready?;
    assert Alone(key, data, c, n) == Alone(key, data1, c1, n - 1) == Alone(key, data2, c2, n - 2);
  }

  /** A client in Acquire that finds its own identifier returns with the version stored there. */
  lemma TakesOwn(key: string, data: Store, c: Client, n: nat)
    requires Acquiring(c) && n >= 2 && c.id != FREE && key in data && data[key].value == c.id && Fits(c, data[key])
    ensures Alone(key, data, c, n) == (data, Client(c.id, data[key].version, Ready, false, true))
  {
    var (data1, c1) := Try(key, data, c, Clerks.Delivered);
    assert data1 == data;
    if c.pc.AcquirePut? {
      assert c1 == c.(pc := AcquireCheck, resent := false);
      var (data2, c2) := Try(key, data1, c1, Clerks.Delivered);
      assert c2.pc.Ready?;
      assert Alone(key, data, c, n) == Alone(key, data1, c1, n - 1) == Alone(key, data2, c2, n - 2);
    } else {
      assert Alone(key, data, c, n) == Alone(key, data1, c1, n - 1);
    }
  }

  /** From any place in Acquire four attempts are enough. */
  lemma Takes(key: string, data: Store, c: Client)
    requires Acquiring(c) && c.id != FREE && key in data && Fits(c, data[key])
    requires data[key].value == FREE || data[key].value == c.id
    ensures var w := data[key].version + if data[key].value == FREE then 1 else 0;
            Alone(key, data, c, 4) == (data[key := Value(c.id, w)], Client(c.id, w, Ready, false, true))
  {
    if data[key].value == c.id {
      TakesOwn(key, data, c, 4);
      assert data[key := Value(c.id, data[key].version)] == data;
    } else if c.pc.AcquireGet? {
      TakesFree(key, data, c, 4);
    } else {
      TakesLater(key, data, c);
    }
  }

  /** A free lock met by a client whose last Put is open: it goes back to reading. */
  lemma TakesLater(key: string, data: Store, c: Client)
    requires (c.pc.AcquirePut? || c.pc.AcquireCheck?) && c.id != FREE && key in data && Fits(c, data[key])
    requires data[key].value == FREE
    ensures var w := data[key].version + 1;
            Alone(key, data, c, 4) == (data[key := Value(c.id, w)], Client(c.id, w, Ready, false, true))
  {
    var (data1, c1) := Try(key, data, c, Clerks.Delivered);
    assert Alone(key, data, c, 4) == Alone(key, data1, c1, 3);
    if c1.pc.AcquireGet? {
      TakesFree(key, data1, c1, 3);
    } else if c1.pc.AcquireCheck? {
      var (data2, c2) := Try(key, data1, c1, Clerks.Delivered);
      assert data1 == data && data2 == data && c2.pc.AcquireGet? && c2.id == c.id;
      assert Alone(key, data1, c1, 3) == Alone(key, data2, c2, 2);
      TakesFree(key, data2, c2, 2);
    }
  }

  /** Release: a lock still owned becomes free; one already freed by an earlier attempt is left alone. */
  lemma Frees(key: string, data: Store, c: Client, n: nat)
    requires c.pc.ReleasePut? && n >= 2 && c.id != FREE && key in data && Fits(c, data[key])
    ensures Alone(key, data, c, n) ==
            (if data[key].value == c.id then data[key := Value(FREE, c.ver + 1)] else data,
             c.(pc := Ready, ver := 0, resent := false))
  {
    var (data1, c1) := Try(key, data, c, Clerks.Delivered);
    assert Alone(key, data, c, n) == Alone(key, data1, c1, n - 1);
    if c1.pc.ReleasePut? {
      var (data2, c2) := Try(key, data1, c1, Clerks.Delivered);
      assert c2.pc.Ready?;
      assert Alone(key, data1, c1, n - 1) == Alone(key, data2, c2, n - 2);
    }
  }

  /** MakeLock: the key is created free, or left as it is. */
  lemma Makes(key: string, data: Store, c: Client, n: nat)
    requires n >= 2 && (c.pc.MakeGet? || c.pc.MakePut? || c.pc.MakeCheck?) && (key in data ==> data[key].version >= 1)
    ensures Alone(key, data, c, n) ==
            (if key in data then data else data[key := Value(FREE, 1)], c.(pc := Ready, resent := false))
  {
    var (data1, c1) := Try(key, data, c, Clerks.Delivered);
    assert Alone(key, data, c, n) == Alone(key, data1, c1, n - 1);
    if !c1.pc.Ready? {
      var (data2, c2) := Try(key, data1, c1, Clerks.Delivered);
      assert c2.pc.Ready?;
      assert Alone(key, data1, c1, n - 1) == Alone(key, data2, c2, n - 2);
    }
  }

  /** While another client has the lock, reading it is all that happens. */
  lemma {:induction false} Waits(key: string, data: Store, c: Client, n: nat)
    requires c.pc.AcquireGet? && !c.resent && key in data && data[key].value != FREE && data[key].value != c.id
    ensures Alone(key, data, c, n) == (data, c)
    decreases n
  {
    if n > 0 {
      var (data', c') := Try(key, data, c, Clerks.Delivered);
      assert data' == data && c' == c;
      Waits(key, data, c, n - 1);
    }
  }

  /**
   A client that asks for a free lock gets it: from every reachable state, two attempts in Acquire that are delivered
   undisturbed leave it inside and its identifier stored with the next version, and nothing else changed.
   */
  lemma {:induction false} FreeLockTaken(key: string, ids: seq<string>, events: seq<Event>, i: nat)
    requires Distinct(ids) && i < |ids| && |Run(key, ids, events).clients| == |ids|
    requires var s := Run(key, ids, events);
             s.clients[i].pc.AcquireGet? && key in s.data && s.data[key].value == FREE
    ensures var s, s' := Run(key, ids, events), Run(key, ids, events + Delivered(i, 2));
            var w := s.data[key].version + 1;
            && s'.data == s.data[key := Value(ids[i], w)]
            && s'.clients == s.clients[i := Client(ids[i], w, Ready, false, true)]
  {
    hide Alone, Run;
    RunKeepsInv(key, ids, events);
    var s := Run(key, ids, events);
    DeliveredAlone(key, ids, events, i, 2);
    TakesFree(key, s.data, s.clients[i], 2);
  }

  /**
   The same from every place in Acquire, whatever was lost before, with four attempts; also when the client finds its
   own identifier, stored by an attempt whose reply was lost or before it called Acquire again.
   */
  lemma {:induction false} AcquireFinishes(key: string, ids: seq<string>, events: seq<Event>, i: nat)
    requires Distinct(ids) && i < |ids| && |Run(key, ids, events).clients| == |ids|
    requires var s := Run(key, ids, events);
             Acquiring(s.clients[i]) && key in s.data && (s.data[key].value == FREE || s.data[key].value == ids[i])
    ensures var s, s' := Run(key, ids, events), Run(key, ids, events + Delivered(i, 4));
            var w := s.data[key].version + if s.data[key].value == FREE then 1 else 0;
            && s'.data == s.data[key := Value(ids[i], w)]
            && s'.clients == s.clients[i := Client(ids[i], w, Ready, false, true)]
  {
    hide Alone, Run;
    RunKeepsInv(key, ids, events);
    var s := Run(key, ids, events);
    DeliveredAlone(key, ids, events, i, 4);
    Takes(key, s.data, s.clients[i]);
  }

  /** Release finishes, with two attempts, from every place in it; a lock it still owned is free then. */
  lemma {:induction false} ReleaseFinishes(key: string, ids: seq<string>, events: seq<Event>, i: nat)
    requires Distinct(ids) && i < |ids| && |Run(key, ids, events).clients| == |ids|
    requires Run(key, ids, events).clients[i].pc.ReleasePut?
    ensures var s, s' := Run(key, ids, events), Run(key, ids, events + Delivered(i, 2));
            && key in s.data
            && s'.data == (if s.data[key].value == ids[i] then s.data[key := Value(FREE, s.data[key].version + 1)]
                           else s.data)
            && s'.clients == s.clients[i := Client(ids[i], 0, Ready, false, false)]
  {
    hide Alone, Run;
    RunKeepsInv(key, ids, events);
    var s := Run(key, ids, events);
    DeliveredAlone(key, ids, events, i, 2);
    Frees(key, s.data, s.clients[i], 2);
  }

  /** MakeLock finishes, with two attempts, from every place in it; the key exists then, and a new one is free. */
  lemma {:induction false} MakeFinishes(key: string, ids: seq<string>, events: seq<Event>, i: nat)
    requires Distinct(ids) && i < |ids| && |Run(key, ids, events).clients| == |ids|
    requires var c := Run(key, ids, events).clients[i]; c.pc.MakeGet? || c.pc.MakePut? || c.pc.MakeCheck?
    ensures var s, s' := Run(key, ids, events), Run(key, ids, events + Delivered(i, 2));
            && s'.data == (if key in s.data then s.data else s.data[key := Value(FREE, 1)])
            && s'.clients == s.clients[i := s.clients[i].(pc := Ready, resent := false)]
  {
    hide Alone, Run;
    RunKeepsInv(key, ids, events);
    var s := Run(key, ids, events);
    DeliveredAlone(key, ids, events, i, 2);
    Makes(key, s.data, s.clients[i], 2);
  }

  /**
   A whole turn: a client that is outside and calls Acquire on a free lock is inside after two delivered attempts, and
   its Release then takes one more to make the lock free again, two versions on.
   */
  lemma {:induction false} Turn(key: string, ids: seq<string>, events: seq<Event>, i: nat)
    requires Distinct(ids) && i < |ids| && |Run(key, ids, events).clients| == |ids|
    requires var s := Run(key, ids, events);
             s.clients[i].pc.Ready? && key in s.data && s.data[key].value == FREE
    ensures var s := Run(key, ids, events);
            var inside := events + [Begin(i, Acquire)] + Delivered(i, 2);
            var s1, s2 := Run(key, ids, inside), Run(key, ids, inside + [Begin(i, Release)] + Delivered(i, 2));
            && |s1.clients| == |ids| && s1.clients[i].inside
            && s1.data == s.data[key := Value(ids[i], s.data[key].version + 1)]
            && s2.data == s.data[key := Value(FREE, s.data[key].version + 2)]
            && s2.clients == s.clients[i := Client(ids[i], 0, Ready, false, false)]
  {
    hide Alone, Run;
    RunKeepsInv(key, ids, events);
    var asked := events + [Begin(i, Acquire)];
    BeginRun(key, ids, events, Begin(i, Acquire));
    FreeLockTaken(key, ids, asked, i);
    var inside := asked + Delivered(i, 2);
    BeginRun(key, ids, inside, Begin(i, Release));
    ReleaseFinishes(key, ids, inside + [Begin(i, Release)], i);
  }
}
