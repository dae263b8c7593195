/**
 An instance of what badly routed operations do. A client that still routes by an older configuration can have a Put
 acknowledged by the group a shard is being moved back to, after the shard is installed there and before it is deleted
 at its old group, which still has the key. If the controller stops in between, the re-run installs the old copy again
 and the acknowledged Put is lost.
 */
module StaleRouting {
  import opened KvServer
  import opened ShardGroup
  import opened Migration

  /** Groups 1 and 2 exist, every key is in shard 0, and only shard 0 ever moves. */
  const GIDS: set<nat> := {1, 2}

  function Zero(key: string): nat {
    0
  }

  function Cfg(num: int, owner: nat): Config {
    Config(num, seq(NSHARDS, _ => 2)[0 := owner], GIDS)
  }

  /** First group 2 has shard 0, then group 1, then group 2 again. */
  const C1 := Cfg(1, 2)
  const C2 := Cfg(2, 1)
  const C3 := Cfg(3, 2)

  const FIRST := Answer(Put("k", "a", 0), Result("", 0, OK))
  const SECOND := Answer(Put("k", "b", 1), Result("", 0, OK))
  const LAST := Answer(Get("k"), Result("a", 1, OK))

  const A: Store := map["k" := Value("a", 1)]
  const B: Store := map["k" := Value("b", 2)]

  function WithShard(shard: Shard, num: int): Group {
    Group(seq(NSHARDS, _ => EMPTY)[0 := shard], num)
  }

  /** A world of the two groups, by their shard 0 and highest number. */
  function Two(one: Shard, num1: int, two: Shard, num2: int, published: Config, changes: nat, backup: Saved, saves: nat,
               ctl: Controller, served: seq<Answer>): World {
    World(map[1 := WithShard(one, num1), 2 := WithShard(two, num2)], published, changes, backup, saves, ctl, served,
          false)
  }

  /** The run so far ends in `w`, and its operations all went to group 2. */
  ghost predicate Reached(events: seq<Event>, w: World) {
    Run(Zero, C1, GIDS, events) == w && forall i :: 0 <= i < |events| && events[i].Ask? ==> events[i].gid == 2
  }

  lemma Then(events: seq<Event>, w: World, e: Event) returns (more: seq<Event>)
    requires Reached(events, w) && (e.Ask? ==> e.gid == 2)
    ensures Shaped(w) && Reached(more, Next(Zero, w, e))
  {
    more := events + [e];
    assert more[..|events|] == events;
  }

  /** Shards that keep their owner are passed over, and the new configuration is published. */
  lemma {:induction false} PassOver(events: seq<Event>, w: World, job: Job, s: nat) returns (more: seq<Event>)
    requires Reached(events, w) && w.ctl == Visit(job, s) && 1 <= s <= NSHARDS && JobShaped(job)
    requires job.version == w.configVersion && job.old_.shards[1..] == job.new_.shards[1..]
    ensures Reached(more, w.(config := job.new_, configVersion := job.version + 1, ctl := Idle))
    decreases NSHARDS - s
  {
    more := Then(events, w, Proceed);
    if s < NSHARDS {
      assert job.old_.shards[1..][s - 1] == job.old_.shards[s] && job.new_.shards[1..][s - 1] == job.new_.shards[s];
      more := PassOver(more, w.(ctl := Visit(job, s + 1)), job, s + 1);
    }
  }

  /** From a read of the published configuration to the first shard. */
  lemma Enter(events: seq<Event>, w: World, cfg: Config) returns (more: seq<Event>)
    requires Reached(events, w) && w.ctl == ReadConfig(cfg) && cfg.num > w.config.num
    ensures Reached(more, w.(backup := Saved(cfg), backupVersion := w.backupVersion + 1,
                             ctl := Visit(Job(w.config, w.configVersion, cfg), 0)))
  {
    hide Run;
    var job := Job(w.config, w.configVersion, cfg);
    more := Then(events, w, Proceed);
    more := Then(more, w.(ctl := ReadBackup(job)), Proceed);
    more := Then(more, w.(ctl := WriteBackup(job, w.backupVersion)), Proceed);
  }

  const JOB2 := Job(C1, 1, C2)
  const JOB3 := Job(C2, 2, C3)

  /** The first Put, and the move of shard 0 from group 2 to group 1. */
  lemma Away() returns (more: seq<Event>)
    ensures Reached(more, Two(Shard(A, false), 2, Shard(map[], true), 2, C2, 2, Saved(C2), 1, Idle, [FIRST]))
  {
    hide Run, Advance;
    more := [];
    StartsEmpty();
    more := Then(more, Two(EMPTY, 0, EMPTY, 0, C1, 1, Nothing, 0, Idle, []), Ask(2, FIRST.op));
    PutServed(EMPTY, 0, map[], 0, C1, 1, Nothing, 0, Idle, [], FIRST);
    var w := Two(EMPTY, 0, Shard(A, false), 0, C1, 1, Nothing, 0, Idle, [FIRST]);
    more := Then(more, w, Change(C2));
    more := Enter(more, w.(ctl := ReadConfig(C2)), C2);
    more := Then(more, Two(EMPTY, 0, Shard(A, false), 0, C1, 1, Saved(C2), 1, Visit(JOB2, 0), [FIRST]), Proceed);
    Freezes2();
    more := Then(more, Two(EMPTY, 0, Shard(A, true), 2, C1, 1, Saved(C2), 1, Install(JOB2, 0, A), [FIRST]), Proceed);
    Installs1();
    more := Then(more, Two(Shard(A, false), 2, Shard(A, true), 2, C1, 1, Saved(C2), 1, Delete(JOB2, 0), [FIRST]),
                 Proceed);
    Deletes2();
    var w' := Two(Shard(A, false), 2, Shard(map[], true), 2, C1, 1, Saved(C2), 1, Visit(JOB2, 1), [FIRST]);
    more := PassOver(more, w', JOB2, 1);
  }

  lemma StartsEmpty()
    ensures Reached([], Two(EMPTY, 0, EMPTY, 0, C1, 1, Nothing, 0, Idle, []))
  {
    var gs := Begin(C1, GIDS).groups;
    assert gs[1].shards == WithShard(EMPTY, 0).shards && gs[2].shards == WithShard(EMPTY, 0).shards;
    assert gs == map[1 := WithShard(EMPTY, 0), 2 := WithShard(EMPTY, 0)];
  }

  /** Group 2 answers an operation on "k". */
  lemma PutServed(one: Shard, n1: int, kv: Store, n2: int, cfg: Config, v: nat, b: Saved, bv: nat, ctl: Controller,
                  served: seq<Answer>, a: Answer)
    requires Shaped(Two(one, n1, Shard(kv, false), n2, cfg, v, b, bv, ctl, served)) && Serve(kv, a.op).1 == a.result
    ensures Asked(Zero, Two(one, n1, Shard(kv, false), n2, cfg, v, b, bv, ctl, served), 2, a.op)
         == Two(one, n1, Shard(Serve(kv, a.op).0, false), n2, cfg, v, b, bv, ctl, served + [a])
  {
    hide Serve;
    var g := WithShard(Shard(kv, false), n2);
    var g' := ClientCmd(g, 0, a.op).0;
    assert g'.shards == WithShard(Shard(Serve(kv, a.op).0, false), n2).shards;
    var w := Two(one, n1, Shard(kv, false), n2, cfg, v, b, bv, ctl, served);
    assert w.groups[2 := g'] == Two(one, n1, Shard(Serve(kv, a.op).0, false), n2, cfg, v, b, bv, ctl, served).groups;
  }

  lemma Freezes2()
    ensures var w := Two(EMPTY, 0, Shard(A, false), 0, C1, 1, Saved(C2), 1, Visit(JOB2, 0), [FIRST]);
            Shaped(w) && Advance(w)
                == Two(EMPTY, 0, Shard(A, true), 2, C1, 1, Saved(C2), 1, Install(JOB2, 0, A), [FIRST])
  {
    var w := Two(EMPTY, 0, Shard(A, false), 0, C1, 1, Saved(C2), 1, Visit(JOB2, 0), [FIRST]);
    assert FreezeCmd(WithShard(Shard(A, false), 0), 0, 2).0.shards == WithShard(Shard(A, true), 2).shards;
    assert w.groups[2 := WithShard(Shard(A, true), 2)]
           == map[1 := WithShard(EMPTY, 0), 2 := WithShard(Shard(A, true), 2)];
  }

  lemma Installs1()
    ensures var w := Two(EMPTY, 0, Shard(A, true), 2, C1, 1, Saved(C2), 1, Install(JOB2, 0, A), [FIRST]);
            Shaped(w) && Advance(w)
                == Two(Shard(A, false), 2, Shard(A, true), 2, C1, 1, Saved(C2), 1, Delete(JOB2, 0), [FIRST])
  {
    var w := Two(EMPTY, 0, Shard(A, true), 2, C1, 1, Saved(C2), 1, Install(JOB2, 0, A), [FIRST]);
    assert EMPTY.kv + A == A;
    assert InstallCmd(WithShard(EMPTY, 0), 0, A, 2).0.shards == WithShard(Shard(A, false), 2).shards;
    assert w.groups[1 := WithShard(Shard(A, false), 2)]
           == map[1 := WithShard(Shard(A, false), 2), 2 := WithShard(Shard(A, true), 2)];
  }

  lemma Deletes2()
    ensures var w := Two(Shard(A, false), 2, Shard(A, true), 2, C1, 1, Saved(C2), 1, Delete(JOB2, 0), [FIRST]);
            Shaped(w) && Advance(w)
                == Two(Shard(A, false), 2, Shard(map[], true), 2, C1, 1, Saved(C2), 1, Visit(JOB2, 1), [FIRST])
  {
    var w := Two(Shard(A, false), 2, Shard(A, true), 2, C1, 1, Saved(C2), 1, Delete(JOB2, 0), [FIRST]);
    assert DeleteCmd(WithShard(Shard(A, true), 2), 0, 2).0.shards == WithShard(Shard(map[], true), 2).shards;
    assert w.groups[2 := WithShard(Shard(map[], true), 2)]
           == map[1 := WithShard(Shard(A, false), 2), 2 := WithShard(Shard(map[], true), 2)];
  }

  /** During the move of shard 0 back from group 1 to group 2. */
  function Back(one: Shard, n1: int, two: Shard, n2: int, saves: nat, ctl: Controller, served: seq<Answer>): World {
    Two(one, n1, two, n2, C2, 2, Saved(C3), saves, ctl, served)
  }

  lemma Freezes1(frozen: bool, n1: int, two: Shard, n2: int, saves: nat, served: seq<Answer>)
    requires n1 <= 3
    ensures var w := Back(Shard(A, frozen), n1, two, n2, saves, Visit(JOB3, 0), served);
            Shaped(w) && Advance(w) == Back(Shard(A, true), 3, two, n2, saves, Install(JOB3, 0, A), served)
  {
    var w := Back(Shard(A, frozen), n1, two, n2, saves, Visit(JOB3, 0), served);
    assert FreezeCmd(WithShard(Shard(A, frozen), n1), 0, 3).0.shards == WithShard(Shard(A, true), 3).shards;
    assert w.groups[1 := WithShard(Shard(A, true), 3)]
           == map[1 := WithShard(Shard(A, true), 3), 2 := WithShard(two, n2)];
  }

  /** Whatever group 2 holds for "k" is overwritten. */
  lemma Installs2(two: Shard, n2: int, saves: nat, served: seq<Answer>)
    requires two.kv.Keys <= {"k"} && n2 <= 3
    ensures var w := Back(Shard(A, true), 3, two, n2, saves, Install(JOB3, 0, A), served);
            Shaped(w) && Advance(w) == Back(Shard(A, true), 3, Shard(A, false), 3, saves, Delete(JOB3, 0), served)
  {
    var w := Back(Shard(A, true), 3, two, n2, saves, Install(JOB3, 0, A), served);
    assert two.kv + A == A;
    assert InstallCmd(WithShard(two, n2), 0, A, 3).0.shards == WithShard(Shard(A, false), 3).shards;
    assert w.groups[2 := WithShard(Shard(A, false), 3)]
           == map[1 := WithShard(Shard(A, true), 3), 2 := WithShard(Shard(A, false), 3)];
  }

  lemma Deletes1(saves: nat, served: seq<Answer>)
    ensures var w := Back(Shard(A, true), 3, Shard(A, false), 3, saves, Delete(JOB3, 0), served);
            Shaped(w) && Advance(w) == Back(Shard(map[], true), 3, Shard(A, false), 3, saves, Visit(JOB3, 1), served)
  {
    var w := Back(Shard(A, true), 3, Shard(A, false), 3, saves, Delete(JOB3, 0), served);
    assert DeleteCmd(WithShard(Shard(A, true), 3), 0, 3).0.shards == WithShard(Shard(map[], true), 3).shards;
    assert w.groups[1 := WithShard(Shard(map[], true), 3)]
           == map[1 := WithShard(Shard(map[], true), 3), 2 := WithShard(Shard(A, false), 3)];
  }

  /** The move back up to its second step, the Put that group 2 acknowledges, and the controller's end. */
  lemma Interrupted() returns (more: seq<Event>)
    ensures Reached(more, Back(Shard(A, true), 3, Shard(B, false), 3, 2, Down, [FIRST, SECOND]))
  {
    hide Run, Advance;
    more := Away();
    var w := Two(Shard(A, false), 2, Shard(map[], true), 2, C2, 2, Saved(C2), 1, Idle, [FIRST]);
    more := Then(more, w, Change(C3));
    more := Enter(more, w.(ctl := ReadConfig(C3)), C3);
    Freezes1(false, 2, Shard(map[], true), 2, 2, [FIRST]);
    more := Then(more, Back(Shard(A, false), 2, Shard(map[], true), 2, 2, Visit(JOB3, 0), [FIRST]), Proceed);
    Installs2(Shard(map[], true), 2, 2, [FIRST]);
    more := Then(more, Back(Shard(A, true), 3, Shard(map[], true), 2, 2, Install(JOB3, 0, A), [FIRST]), Proceed);
    more := Then(more, Back(Shard(A, true), 3, Shard(A, false), 3, 2, Delete(JOB3, 0), [FIRST]), Ask(2, SECOND.op));
    PutServed(Shard(A, true), 3, A, 3, C2, 2, Saved(C3), 2, Delete(JOB3, 0), [FIRST], SECOND);
    assert [FIRST] + [SECOND] == [FIRST, SECOND] && Serve(A, SECOND.op).0 == B;
    more := Then(more, Back(Shard(A, true), 3, Shard(B, false), 3, 2, Delete(JOB3, 0), [FIRST, SECOND]), Crash);
  }

  /** The re-run, and a Get. */
  lemma Rerun() returns (more: seq<Event>)
    ensures Reached(more,
                    Two(Shard(map[], true), 3, Shard(A, false), 3, C3, 3, Saved(C3), 3, Idle, [FIRST, SECOND, LAST]))
  {
    hide Run, Advance;
    var done := [FIRST, SECOND];
    more := Interrupted();
    var w := Back(Shard(A, true), 3, Shard(B, false), 3, 2, Down, done);
    more := Then(more, w, Recover);
    more := Then(more, w.(ctl := Recovering), Proceed);
    assert Advance(w.(ctl := Recovering)) == w.(ctl := ReadConfig(C3)) by { ReadsBackup(w); }
    more := Enter(more, w.(ctl := ReadConfig(C3)), C3);
    Freezes1(true, 3, Shard(B, false), 3, 3, done);
    more := Then(more, Back(Shard(A, true), 3, Shard(B, false), 3, 3, Visit(JOB3, 0), done), Proceed);
    Installs2(Shard(B, false), 3, 3, done);
    more := Then(more, Back(Shard(A, true), 3, Shard(B, false), 3, 3, Install(JOB3, 0, A), done), Proceed);
    Deletes1(3, done);
    more := Then(more, Back(Shard(A, true), 3, Shard(A, false), 3, 3, Delete(JOB3, 0), done), Proceed);
    more := PassOver(more, Back(Shard(map[], true), 3, Shard(A, false), 3, 3, Visit(JOB3, 1), done), JOB3, 1);
    more := Then(more, Two(Shard(map[], true), 3, Shard(A, false), 3, C3, 3, Saved(C3), 3, Idle, done),
                 Ask(2, LAST.op));
    PutServed(Shard(map[], true), 3, A, 3, C3, 3, Saved(C3), 3, Idle, done, LAST);
    assert done + [LAST] == [FIRST, SECOND, LAST];
  }

  lemma ReadsBackup(w: World)
    requires Shaped(w.(ctl := Recovering)) && w.backup == Saved(C3)
    ensures Advance(w.(ctl := Recovering)) == w.(ctl := ReadConfig(C3))
  {
  }

  /**
   An acknowledged update is lost. In this run every operation goes to a group that a published configuration named for
   its shard, and the change is finished; yet the last Get is answered with the value and version of the first Put,
   although the second was acknowledged, so the answers are not those of one key/value server.
   */
  lemma StaleRouteLosesUpdate() returns (events: seq<Event>)
    ensures First(C1)
    ensures forall i :: 0 <= i < |events| && events[i].Ask? ==>
              events[i].gid == C1.shards[ShardOf(Zero, events[i].op.key)]
    ensures var w := Run(Zero, C1, GIDS, events);
            !InFlight(w) && w.served == [FIRST, SECOND, LAST] && !AsOneServer(w.served)
                && !Routed(Zero, C1, GIDS, events)
  {
    events := Rerun();
    var w := Run(Zero, C1, GIDS, events);
    NotOneServer();
    if Routed(Zero, C1, GIDS, events) {
      SameAsOneServer(Zero, C1, GIDS, events);
    }
  }

  lemma NotOneServer()
    ensures !AsOneServer([FIRST, SECOND, LAST])
  {
    var served := [FIRST, SECOND, LAST];
    assert served[..2] == [FIRST, SECOND] && [FIRST, SECOND][..1] == [FIRST] && [FIRST][..0] == [];
    assert StoreAfter([]) == map[];
    assert StoreAfter([FIRST]) == A;
    assert StoreAfter(served[..2]) == B;
    assert served[2].result != Serve(B, served[2].op).1;
  }
}
