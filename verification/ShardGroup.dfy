/** One shard group's replicated state, and the commands its log applies to it. */
module ShardGroup {
  import opened KvServer

  datatype Shard = Shard(kv: Store, frozen: bool)

  datatype Group = Group(shards: seq<Shard>, maxNum: int)

  /** How a group answers: `Panic` stands for a Go panic in the handler. */
  datatype Verdict = Done | Outdated | WrongGroup | Panic

  /** FreezeShardReply: `num` is filled in only when the request's number is not the known one. */
  datatype Frozen = Frozen(verdict: Verdict, num: int, state: Store)

  const EMPTY := Shard(map[], false)

  function NewGroup(n: nat): Group {
    Group(seq(n, _ => EMPTY), 0)
  }

  function FreezeCmd(g: Group, s: nat, num: int): (Group, Frozen)
    requires s < |g.shards|
  {
    if num < g.maxNum then (g, Frozen(Outdated, g.maxNum, map[]))
    else (Group(g.shards[s := g.shards[s].(frozen := true)], num),
          Frozen(Done, if num > g.maxNum then num else 0, g.shards[s].kv))
  }

  function InstallCmd(g: Group, s: nat, state: Store, num: int): (Group, Verdict)
    requires s < |g.shards|
  {
    if num < g.maxNum then (g, Outdated)
    else (Group(g.shards[s := Shard(g.shards[s].kv + state, false)], num), Done)
  }

  function DeleteCmd(g: Group, s: nat, num: int): (Group, Verdict)
    requires s < |g.shards|
  {
    if num < g.maxNum then (g, Outdated)
    else if !g.shards[s].frozen then (g.(maxNum := num), Panic)
    else (Group(g.shards[s := Shard(map[], true)], num), Done)
  }

  function WithKv(g: Group, s: nat, kv: Store): Group
    requires s < |g.shards|
  {
    g.(shards := g.shards[s := g.shards[s].(kv := kv)])
  }

  /** A client's Get or Put: a frozen shard refuses it, otherwise the shard's map serves it. */
  function ClientCmd(g: Group, s: nat, op: Op): (Group, Verdict, Result)
    requires s < |g.shards|
  {
    if g.shards[s].frozen then (g, WrongGroup, Result("", 0, OK))
    else
      var (kv, r) := Serve(g.shards[s].kv, op);
      (WithKv(g, s, kv), Done, r)
  }

  // ---------------------------------------------------------------- any sequence of commands

  datatype Cmd =
    | FreezeShard(s: nat, num: int)
    | InstallShard(s: nat, state: Store, num: int)
    | DeleteShard(s: nat, num: int)
    | ClientOp(s: nat, op: Op)

  predicate Sized(g: Group, cmds: seq<Cmd>) {
    forall i :: 0 <= i < |cmds| ==> cmds[i].s < |g.shards|
  }

  function Apply(g: Group, c: Cmd): (Group, Verdict)
    requires c.s < |g.shards|
  {
    match c
    case FreezeShard(s, num) => var (g', r) := FreezeCmd(g, s, num); (g', r.verdict)
    case InstallShard(s, state, num) => InstallCmd(g, s, state, num)
    case DeleteShard(s, num) => DeleteCmd(g, s, num)
    case ClientOp(s, op) => var (g', v, _) := ClientCmd(g, s, op); (g', v)
  }

  function ApplyAll(g: Group, cmds: seq<Cmd>): (r: Group)
    requires Sized(g, cmds)
    ensures |r.shards| == |g.shards|
  {
    if cmds == [] then g else Apply(ApplyAll(g, cmds[..|cmds| - 1]), cmds[|cmds| - 1]).0
  }

  /** The controller's commands carry the number of a configuration. */
  predicate Numbered(c: Cmd, num: int) {
    !c.ClientOp? && c.num == num
  }

  /**
   Fencing: after any commands, one of the controller's is outdated, and then changes nothing, if and only if the group
   started above its number or has met a command with a larger one.
   */
  lemma {:induction false} OutdatedIff(g: Group, cmds: seq<Cmd>, d: Cmd)
    requires Sized(g, cmds) && d.s < |g.shards| && !d.ClientOp?
    ensures var g' := ApplyAll(g, cmds);
            && (Apply(g', d).1 == Outdated <==>
                  d.num < g.maxNum || exists i, n :: 0 <= i < |cmds| && Numbered(cmds[i], n) && n > d.num)
            && (Apply(g', d).1 == Outdated ==> Apply(g', d).0 == g')
            && (Apply(g', d).1 != Outdated ==> Apply(g', d).0.maxNum == d.num)
  {
    hide Serve, ApplyAll;
    NumbersGrow(g, cmds, d.num);
  }

  lemma {:induction false} NumbersGrow(g: Group, cmds: seq<Cmd>, num: int)
    requires Sized(g, cmds)
    ensures ApplyAll(g, cmds).maxNum > num <==>
            g.maxNum > num || exists i, n :: 0 <= i < |cmds| && Numbered(cmds[i], n) && n > num
  {
    hide Serve, Apply;
    if cmds != [] {
      var front, last := cmds[..|cmds| - 1], cmds[|cmds| - 1];
      NumbersGrow(g, front, num);
      NumberAfter(ApplyAll(g, front), last);
      if i, n :| 0 <= i < |front| && Numbered(front[i], n) && n > num { assert Numbered(cmds[i], n); }
      if !last.ClientOp? { assert Numbered(last, last.num); }
      if i, n :| 0 <= i < |cmds| && Numbered(cmds[i], n) && n > num {
        assert i < |front| ==> Numbered(front[i], n);
      }
    }
  }

  lemma NumberAfter(g: Group, c: Cmd)
    requires c.s < |g.shards|
    ensures Apply(g, c).0.maxNum == if c.ClientOp? || c.num < g.maxNum then g.maxNum else c.num
  {
  }

  /** Neither installed nor deleted. */
  predicate Standing(cmds: seq<Cmd>, s: nat) {
    forall i :: 0 <= i < |cmds| && cmds[i].s == s ==> cmds[i].FreezeShard? || cmds[i].ClientOp?
  }

  /**
   A frozen shard stands still: until it is installed or deleted, whatever else the group is asked, its pairs stay what
   FreezeShard returned, and a client is refused.
   */
  lemma {:induction false} FrozenStands(g: Group, cmds: seq<Cmd>, s: nat, num: int, op: Op)
    requires s < |g.shards| && num >= g.maxNum && Sized(FreezeCmd(g, s, num).0, cmds) && Standing(cmds, s)
    ensures var (g0, reply) := FreezeCmd(g, s, num);
            var g' := ApplyAll(g0, cmds);
            && g'.shards[s] == Shard(reply.state, true) && reply.state == g.shards[s].kv
            && Apply(g', ClientOp(s, op)) == (g', WrongGroup)
  {
    hide Serve;
    if cmds != [] {
      FrozenStands(g, cmds[..|cmds| - 1], s, num, op);
    }
  }

  /** A client's command reaches one shard, and as the key/value server serves it. */
  lemma ClientReaches(g: Group, s: nat, op: Op, i: nat)
    requires s < |g.shards| && i < |g.shards| && !g.shards[s].frozen
    ensures var (g', v, r) := ClientCmd(g, s, op);
            && v == Done && r == Serve(g.shards[s].kv, op).1 && |g'.shards| == |g.shards| && g'.maxNum == g.maxNum
            && g'.shards[i] == if i == s then Shard(Serve(g.shards[s].kv, op).0, false) else g.shards[i]
  {
  }

  /** A server of the group: the fields the commands update in place. */
  class Server {
    const shards: array<Shard>
    var maxNum: int

    ghost function State(): Group
      reads this, shards
    {
      Group(shards[..], maxNum)
    }

    constructor (n: nat)
      ensures fresh(shards) && State() == NewGroup(n)
    {
      shards := new Shard[n](_ => EMPTY);
      maxNum := 0;
    }

    /** Freezes the shard and copies its pairs one by one. */
    method ExecuteFreeze(s: nat, num: int) returns (reply: Frozen)
      requires s < shards.Length
      modifies this, shards
      ensures (State(), reply) == FreezeCmd(old(State()), s, num)
    {
      if num < maxNum {
        return Frozen(Outdated, maxNum, map[]);
      }
      var known := 0;
      if num > maxNum {
        maxNum, known := num, num;
      }
      shards[s] := shards[s].(frozen := true);
      var kv, pairs, rest := shards[s].kv, map[], shards[s].kv.Keys;
      while rest != {}
        invariant rest <= kv.Keys
        invariant pairs == map k | k in kv.Keys - rest :: kv[k]
        decreases rest
      {
        var k :| k in rest;
        pairs, rest := pairs[k := Value(kv[k].value, kv[k].version)], rest - {k};
      }
      assert pairs == kv;
      return Frozen(Done, known, pairs);
    }

    /** Unfreezes the shard and stores the given pairs over what it holds. */
    method ExecuteInstall(s: nat, state: Store, num: int) returns (v: Verdict)
      requires s < shards.Length
      modifies this, shards
      ensures (State(), v) == InstallCmd(old(State()), s, state, num)
    {
      if num < maxNum {
        return Outdated;
      }
      maxNum := num;
      var kv, rest := shards[s].kv, state.Keys;
      shards[s] := Shard(kv, false);
      while rest != {}
        invariant rest <= state.Keys
        invariant shards[s] == Shard(kv + (map k | k in state.Keys - rest :: state[k]), false)
        invariant forall i :: 0 <= i < shards.Length && i != s ==> shards[i] == old(shards[i])
        invariant maxNum == num
        decreases rest
      {
        var k :| k in rest;
        shards[s] := shards[s].(kv := shards[s].kv[k := state[k]]);
        rest := rest - {k};
        assert shards[s].kv == kv + (map j | j in state.Keys - rest :: state[j]);
      }
      assert (map k | k in state.Keys - rest :: state[k]) == state;
      assert shards[..] == old(shards[..])[s := Shard(kv + state, false)];
      return Done;
    }

    /** Deletes the shard's pairs; it must have been frozen. */
    method ExecuteDelete(s: nat, num: int) returns (v: Verdict)
      requires s < shards.Length
      modifies this, shards
      ensures (State(), v) == DeleteCmd(old(State()), s, num)
    {
      if num < maxNum {
        return Outdated;
      }
      maxNum := num;
      if !shards[s].frozen {
        return Panic;
      }
      var kv, rest := shards[s].kv, shards[s].kv.Keys;
      while rest != {}
        invariant rest <= kv.Keys
        invariant shards[s] == Shard(map k | k in rest :: kv[k], true)
        invariant forall i :: 0 <= i < shards.Length && i != s ==> shards[i] == old(shards[i])
        invariant maxNum == num
        decreases rest
      {
        var k :| k in rest;
        shards[s] := shards[s].(kv := shards[s].kv - {k});
        rest := rest - {k};
      }
      assert shards[..] == old(shards[..])[s := Shard(map[], true)];
      return Done;
    }

    /** ExecutePutCmd, which does not look at the flag. */
    method ExecutePut(s: nat, key: string, value: string, version: nat) returns (err: Err)
      requires s < shards.Length
      modifies shards
      ensures var (kv, r) := Serve(old(shards[s].kv), Op.Put(key, value, version));
              r == Result("", 0, err) && State() == WithKv(old(State()), s, kv)
    {
      var kv := shards[s].kv;
      if key !in kv {
        if version == 0 {
          shards[s] := shards[s].(kv := kv[key := Value(value, 1)]);
          err := OK;
        } else {
          err := ErrNoKey;
        }
      } else if version != kv[key].version {
        err := ErrVersion;
      } else {
        shards[s] := shards[s].(kv := kv[key := Value(value, kv[key].version + 1)]);
        err := OK;
      }
      assert shards[..] == old(shards[..])[s := shards[s]];
    }

    /** ExecuteGetCmd, which does not look at the flag. */
    method ExecuteGet(s: nat, key: string) returns (r: Result)
      requires s < shards.Length
      ensures Serve(shards[s].kv, Op.Get(key)) == (shards[s].kv, r)
    {
      if key !in shards[s].kv {
        r := Result("", 0, ErrNoKey);
      } else {
        r := Result(shards[s].kv[key].value, shards[s].kv[key].version, OK);
      }
    }

    /** The handler: a frozen shard refuses, otherwise the command is applied. */
    method Put(s: nat, key: string, value: string, version: nat) returns (v: Verdict, err: Err)
      requires s < shards.Length
      modifies shards
      ensures (State(), v, Result("", 0, err)) == ClientCmd(old(State()), s, Op.Put(key, value, version))
    {
      if shards[s].frozen {
        return WrongGroup, OK;
      }
      err := ExecutePut(s, key, value, version);
      v := Done;
    }

    /** The handler: a frozen shard refuses, otherwise the command is applied. */
    method Get(s: nat, key: string) returns (v: Verdict, r: Result)
      requires s < shards.Length
      ensures (State(), v, r) == ClientCmd(State(), s, Op.Get(key))
    {
      if shards[s].frozen {
        return WrongGroup, Result("", 0, OK);
      }
      assert shards[..] == shards[..][s := shards[s]];
      r := ExecuteGet(s, key);
      v := Done;
    }
  }
}
