/**
 The routing condition of the migration results is exact. An answered operation keeps the invariant if and only if it is
 well routed; and one that is not can be told from outside: after it, some well routed run gives an answer that one
 key/value server would not give.
 */
module ExactRouting {
  import opened KvServer
  import opened ShardGroup
  import opened Migration

  // ---------------------------------------------------------------- one step

  /** A Put that takes effect leaves another pair for its key. */
  lemma EffectShows(kv: Store, op: Op)
    requires Effective(kv, op)
    ensures op.key in Serve(kv, op).0
    ensures op.key in kv ==> Serve(kv, op).0[op.key].version == kv[op.key].version + 1
  {
  }

  /** An operation without effect that does not find a key that is there gets another answer. */
  lemma MissShows(kv: Store, part: Store, op: Op)
    requires !Effective(kv, op) && op.key !in kv && op.key in part
    ensures Serve(kv, op).1 != Serve(part, op).1
  {
  }

  /** Groups other than the published owner have the key as the two owners do, or not at all. */
  lemma CopyOrNone(groups: map<nat, Group>, g: nat, h: nat, gid: nat, s: nat, part: Store, key: string)
    requires Placed(groups, g, h, s, part) && gid in groups && gid != g
    ensures key in KvAt(groups, gid, s) ==> key in part && KvAt(groups, gid, s)[key] == part[key]
  {
  }

  /** On one shard: the right answer and a placed shard afterwards show that the group was the right one. */
  lemma RightGroupShows(groups: map<nat, Group>, g: nat, h: nat, gid: nat, s: nat, part: Store, op: Op)
    requires gid in groups && s < |groups[gid].shards| && !FrozenAt(groups, gid, s) && Placed(groups, g, h, s, part)
    requires Serve(KvAt(groups, gid, s), op).1 == Serve(part, op).1
    requires Placed(groups[gid := ClientCmd(groups[gid], s, op).0], g, h, s, Serve(part, op).0)
    ensures RightGroup(groups, g, h, gid, s, op)
  {
    hide Serve, Effective, Placed;
    var kv := KvAt(groups, gid, s);
    HeldIsPart(groups, g, h, s, part);
    if gid != g {
      CopyOrNone(groups, g, h, gid, s, part, op.key);
      if Effective(kv, op) {
        EffectiveShows(groups, g, h, gid, s, part, op);
      } else if op.key !in kv && op.key in part {
        MissShows(kv, part, op);
      }
    }
  }

  lemma EffectiveShows(groups: map<nat, Group>, g: nat, h: nat, gid: nat, s: nat, part: Store, op: Op)
    requires gid in groups && s < |groups[gid].shards| && !FrozenAt(groups, gid, s) && Placed(groups, g, h, s, part)
    requires gid != g && Effective(KvAt(groups, gid, s), op)
    requires Serve(KvAt(groups, gid, s), op).1 == Serve(part, op).1
    requires Placed(groups[gid := ClientCmd(groups[gid], s, op).0], g, h, s, Serve(part, op).0)
    ensures gid == h && FrozenAt(groups, g, s) && op.key !in KvAt(groups, g, s)
  {
    hide Serve;
    EffectShows(KvAt(groups, gid, s), op);
    EffectShows(part, op);
    var groups' := groups[gid := ClientCmd(groups[gid], s, op).0];
    assert op.key in KvAt(groups', gid, s);
    assert !Bare(groups', gid, s);
    assert Handing(groups', g, h, s, Serve(part, op).0);
    assert KvAt(groups', g, s) == KvAt(groups, g, s);
  }

  /** An answered operation keeps the invariant if and only if it is well routed. */
  lemma KeepsInvIff(hash: string -> nat, w: World, gid: nat, op: Op)
    requires Inv(hash, w) && Answers(hash, w, gid, op)
    ensures WellRouted(hash, w, Ask(gid, op)) <==> Inv(hash, Asked(hash, w, gid, op))
  {
    hide StoreAfter, Part, AsOneServer, Placed, Serve, RightGroup, ControllerOk;
    var s, w', data := ShardOf(hash, op.key), Asked(hash, w, gid, op), StoreAfter(w.served);
    if WellRouted(hash, w, Ask(gid, op)) {
      AskOk(hash, w, gid, op);
    } else if Inv(hash, w') {
      assert PlacedAt(hash, w, s) && PlacedAt(hash, w', s);
      LastAnswer(w.served, w'.served[|w.served|]);
      ServePart(hash, data, op, s);
      RightGroupShows(w.groups, w.config.shards[s], Target(w).shards[s], gid, s, Part(hash, data, s), op);
    }
  }

  lemma LastAnswer(served: seq<Answer>, a: Answer)
    ensures StoreAfter(served + [a]) == Serve(StoreAfter(served), a.op).0
    ensures AsOneServer(served + [a]) ==> a.result == Serve(StoreAfter(served), a.op).1
  {
    var all := served + [a];
    assert all[..|served|] == served;
    if AsOneServer(all) { assert all[|served|].result == Serve(StoreAfter(all[..|served|]), all[|served|].op).1; }
  }

  // ---------------------------------------------------------------- a controller's run on its own

  /** Every shard has an owner, and will have one, that clerks can reach. */
  predicate Complete(w: World)
    requires Shaped(w)
  {
    forall s: nat :: s < NSHARDS ==>
          Served(w, w.config, w.config.shards[s]) && Served(w, Target(w), Target(w).shards[s])
  }

  /** Steps of the controller, crashes and recoveries, from `w` to `w'`; no client is answered. */
  ghost predicate Leads(hash: string -> nat, w: World, events: seq<Event>, w': World)
    requires Shaped(w)
  {
    && (forall i :: 0 <= i < |events| ==> !events[i].Ask?)
    && After(hash, w, events) == w'
  }

  lemma Then(hash: string -> nat, w0: World, events: seq<Event>, w: World, e: Event) returns (more: seq<Event>)
    requires Shaped(w0) && Leads(hash, w0, events, w) && !e.Ask?
    ensures Shaped(w) && Leads(hash, w0, more, Next(hash, w, e))
  {
    more := events + [e];
    assert more[..|events|] == events;
  }

  /** The controller can move every shard that must move. */
  ghost predicate CanFinish(w: World, job: Job) {
    && Shaped(w) && JobShaped(job) && job.version == w.configVersion && job.old_.num < job.new_.num
    && (forall s: nat :: s < NSHARDS ==>
        Served(w, job.old_, job.old_.shards[s]) && Served(w, job.new_, job.new_.shards[s]))
    && (forall g :: g in w.groups ==> w.groups[g].maxNum <= job.new_.num)
  }

  /** Shard `s` is at every group as it was. */
  ghost predicate SameShard(groups: map<nat, Group>, groups': map<nat, Group>, s: nat) {
    forall x :: KvAt(groups', x, s) == KvAt(groups, x, s) && FrozenAt(groups', x, s) == FrozenAt(groups, x, s)
  }

  /** What the two groups had of shard `s` is together at the new one. */
  ghost predicate HandedOver(groups: map<nat, Group>, groups': map<nat, Group>, g: nat, h: nat, s: nat) {
    KvAt(groups', h, s) == KvAt(groups, h, s) + KvAt(groups, g, s) && !FrozenAt(groups', h, s)
  }

  /** Both groups can take commands with this number. */
  ghost predicate Ready(groups: map<nat, Group>, num: int) {
    forall g :: g in groups ==> groups[g].maxNum <= num && |groups[g].shards| == NSHARDS
  }

  /** The groups after the three calls that move shard `i` from `g` to `h`. */
  function Called(groups: map<nat, Group>, g: nat, h: nat, i: nat, num: int): map<nat, Group>
    requires g in groups && h in groups && g != h && i < |groups[g].shards| && i < |groups[h].shards|
  {
    var frozen := groups[g := FreezeCmd(groups[g], i, num).0];
    var installed := frozen[h := InstallCmd(frozen[h], i, groups[g].shards[i].kv, num).0];
    installed[g := DeleteCmd(installed[g], i, num).0]
  }

  lemma CallsMove(groups: map<nat, Group>, g: nat, h: nat, i: nat, num: int, s: nat)
    requires Ready(groups, num) && g in groups && h in groups && g != h && i < NSHARDS
    ensures Ready(Called(groups, g, h, i, num), num) && Called(groups, g, h, i, num).Keys == groups.Keys
    ensures i != s ==> SameShard(groups, Called(groups, g, h, i, num), s)
    ensures i == s ==> HandedOver(groups, Called(groups, g, h, i, num), g, h, s)
  {
  }

  /** The calls for shard `i`, seen at shard `s`. */
  lemma MoveShard(hash: string -> nat, w0: World, events: seq<Event>, w: World, job: Job, i: nat, s: nat)
    returns (more: seq<Event>, w': World)
    requires Shaped(w0) && Leads(hash, w0, events, w) && CanFinish(w, job) && w.ctl == Visit(job, i)
    requires i < NSHARDS && s < NSHARDS
    ensures Leads(hash, w0, more, w') && CanFinish(w', job) && w'.ctl == Visit(job, i + 1)
    ensures w' == w.(groups := w'.groups, ctl := w'.ctl) && w'.groups.Keys == w.groups.Keys
    ensures i != s ==> SameShard(w.groups, w'.groups, s)
    ensures i == s && job.old_.shards[i] != job.new_.shards[i] ==>
              HandedOver(w.groups, w'.groups, job.old_.shards[i], job.new_.shards[i], s)
  {
    hide After, SameShard, HandedOver, Called;
    var g, h := job.old_.shards[i], job.new_.shards[i];
    more := Then(hash, w0, events, w, Proceed);
    if g != h {
      var w1, w2, w3 := ThreeCalls(w, job, i);
      more := Then(hash, w0, more, w1, Proceed);
      more := Then(hash, w0, more, w2, Proceed);
      w' := w3;
      CallsMove(w.groups, g, h, i, job.new_.num, s);
    } else {
      w' := w.(ctl := Visit(job, i + 1));
      Unmoved(w.groups, s);
    }
  }

  lemma Unmoved(groups: map<nat, Group>, s: nat)
    ensures SameShard(groups, groups, s)
  {
  }

  lemma ThreeCalls(w: World, job: Job, i: nat) returns (w1: World, w2: World, w3: World)
    requires CanFinish(w, job) && w.ctl == Visit(job, i) && i < NSHARDS && job.old_.shards[i] != job.new_.shards[i]
    ensures w1 == Advance(w) && Shaped(w1) && w2 == Advance(w1) && Shaped(w2) && w3 == Advance(w2)
    ensures w3 == w.(groups := Called(w.groups, job.old_.shards[i], job.new_.shards[i], i, job.new_.num),
                     ctl := Visit(job, i + 1))
  {
    hide Called;
    var g, h := job.old_.shards[i], job.new_.shards[i];
    w1 := FreezeAt(w, job, i);
    w2 := InstallAt(w1, job, i, w.groups[g].shards[i].kv);
    w3 := DeleteAt(w2, job, i);
    CalledIs(w.groups, g, h, i, job.new_.num, w1.groups, w2.groups);
  }

  lemma CalledIs(groups: map<nat, Group>, g: nat, h: nat, i: nat, num: int, frozen: map<nat, Group>,
                 installed: map<nat, Group>)
    requires g in groups && h in groups && g != h && i < |groups[g].shards| && i < |groups[h].shards|
    requires frozen == groups[g := FreezeCmd(groups[g], i, num).0]
    requires installed == frozen[h := InstallCmd(frozen[h], i, groups[g].shards[i].kv, num).0]
    ensures Called(groups, g, h, i, num) == installed[g := DeleteCmd(installed[g], i, num).0]
  {
  }

  /** From shard `i` to the end: the new configuration is published, and shard `s` is at its new group. */
  lemma {:induction false} Finish(hash: string -> nat, w0: World, events: seq<Event>, w: World, job: Job, i: nat,
                                  s: nat)
    returns (more: seq<Event>, w': World)
    requires Shaped(w0) && Leads(hash, w0, events, w) && CanFinish(w, job) && w.ctl == Visit(job, i)
    requires i <= NSHARDS && s < NSHARDS && job.old_.shards[s] != job.new_.shards[s]
    ensures Leads(hash, w0, more, w') && Shaped(w')
    ensures w'.config == job.new_ && w'.backup == w.backup && w'.served == w.served && w'.groups.Keys == w.groups.Keys
    ensures s < i ==> SameShard(w.groups, w'.groups, s)
    ensures i <= s ==> HandedOver(w.groups, w'.groups, job.old_.shards[s], job.new_.shards[s], s)
    decreases NSHARDS - i
  {
    hide After, Advance, CanFinish, SameShard, HandedOver;
    if i == NSHARDS {
      more := Then(hash, w0, events, w, Proceed);
      w' := LastStep(hash, w, job, s);
    } else {
      var w1;
      more, w1 := MoveShard(hash, w0, events, w, job, i, s);
      more, w' := Finish(hash, w0, more, w1, job, i + 1, s);
      Chain(w.groups, w1.groups, w'.groups, job.old_.shards[s], job.new_.shards[s], s);
    }
  }

  lemma LastStep(hash: string -> nat, w: World, job: Job, s: nat) returns (w': World)
    requires CanFinish(w, job) && w.ctl == Visit(job, NSHARDS)
    ensures w' == Next(hash, w, Proceed) && Shaped(w')
    ensures w'.config == job.new_ && w'.backup == w.backup && w'.served == w.served && w'.groups == w.groups
    ensures SameShard(w.groups, w'.groups, s)
  {
    w' := Next(hash, w, Proceed);
  }

  lemma Chain(a: map<nat, Group>, b: map<nat, Group>, c: map<nat, Group>, g: nat, h: nat, s: nat)
    ensures SameShard(a, b, s) && SameShard(b, c, s) ==> SameShard(a, c, s)
    ensures SameShard(a, b, s) && HandedOver(b, c, g, h, s) ==> HandedOver(a, c, g, h, s)
    ensures HandedOver(a, b, g, h, s) && SameShard(b, c, s) ==> HandedOver(a, c, g, h, s)
  {
  }

  /** No group has seen a later number than the target's. */
  ghost predicate Current(w: World) {
    Shaped(w) && forall g :: g in w.groups ==> w.groups[g].maxNum <= Target(w).num
  }

  /** A controller that starts over finds the unfinished change and takes it up from its first shard. */
  lemma Restart(hash: string -> nat, w: World) returns (more: seq<Event>, w': World)
    requires Shaped(w) && InFlight(w)
    ensures var job := Job(w.config, w.configVersion, w.backup.cfg);
            && Leads(hash, w, more, w')
            && w' == w.(ctl := Visit(job, 0), backupVersion := w.backupVersion + 1)
  {
    hide After;
    var job := Job(w.config, w.configVersion, w.backup.cfg);
    Start(hash, w);
    more := Then(hash, w, [], w, Crash);
    more := Then(hash, w, more, w.(ctl := Down), Recover);
    more := Then(hash, w, more, w.(ctl := Recovering), Proceed);
    more := Then(hash, w, more, w.(ctl := ReadConfig(w.backup.cfg)), Proceed);
    more := Then(hash, w, more, w.(ctl := ReadBackup(job)), Proceed);
    more := Then(hash, w, more, w.(ctl := WriteBackup(job, w.backupVersion)), Proceed);
    w' := w.(ctl := Visit(job, 0), backupVersion := w.backupVersion + 1);
  }

  lemma Start(hash: string -> nat, w: World)
    requires Shaped(w)
    ensures Leads(hash, w, [], w)
  {
  }

  /** Crash and re-run: the change is finished, and shard `s` is whole at its new group. */
  lemma Rerun(hash: string -> nat, w: World, s: nat) returns (more: seq<Event>, w': World)
    requires Current(w) && Complete(w) && InFlight(w) && s < NSHARDS && w.config.shards[s] != Target(w).shards[s]
    ensures Leads(hash, w, more, w') && Shaped(w')
    ensures w'.config == Target(w) && w'.served == w.served && w'.groups.Keys == w.groups.Keys
    ensures HandedOver(w.groups, w'.groups, w.config.shards[s], Target(w).shards[s], s)
  {
    hide After, HandedOver, Leads;
    var job := Job(w.config, w.configVersion, w.backup.cfg);
    var w1;
    more, w1 := Restart(hash, w);
    assert CanFinish(w1, job);
    more, w' := Finish(hash, w, more, w1, job, 0, s);
  }

  // ---------------------------------------------------------------- what a wrong group does is seen

  /** A read of a key whose pair at the published owner is not the single server's. */
  lemma WrongRead(hash: string -> nat, w: World, key: string)
    requires Shaped(w)
    requires var g := w.config.shards[ShardOf(hash, key)];
             && Answers(hash, w, g, Get(key))
             && !SameCopy(KvAt(w.groups, g, ShardOf(hash, key)), StoreAfter(w.served), key)
    ensures var e := Ask(w.config.shards[ShardOf(hash, key)], Get(key));
            WellRouted(hash, w, e) && !AsOneServer(Next(hash, w, e).served)
  {
    hide StoreAfter, AsOneServer;
    var s := ShardOf(hash, key);
    var g := w.config.shards[s];
    var r := ClientCmd(w.groups[g], s, Get(key)).2;
    LastAnswer(w.served, Answer(Get(key), r));
  }

  /** A run of the controller alone, and then a read of the key at the group the published configuration names. */
  ghost predicate EndsInRead(hash: string -> nat, w: World, events: seq<Event>, key: string)
    requires Shaped(w)
  {
    && events != [] && (forall i :: 0 <= i < |events| - 1 ==> !events[i].Ask?)
    && var last := After(hash, w, events[..|events| - 1]);
       events[|events| - 1] == Ask(last.config.shards[ShardOf(hash, key)], Get(key))
  }

  /** A quiet run that ends in a wrong read. */
  lemma ReadAfter(hash: string -> nat, w0: World, events: seq<Event>, w: World, key: string) returns (more: seq<Event>)
    requires Shaped(w0) && Leads(hash, w0, events, w)
    requires Shaped(w)
    requires var g := w.config.shards[ShardOf(hash, key)];
             && Answers(hash, w, g, Get(key))
             && !SameCopy(KvAt(w.groups, g, ShardOf(hash, key)), StoreAfter(w.served), key)
    ensures RoutedFrom(hash, w0, more) && !AsOneServer(After(hash, w0, more).served)
    ensures EndsInRead(hash, w0, more, key)
  {
    hide Next, StoreAfter, AsOneServer;
    WrongRead(hash, w, key);
    var e := Ask(w.config.shards[ShardOf(hash, key)], Get(key));
    more := events + [e];
    assert more[..|events|] == events;
    forall i | 0 <= i < |more| ensures WellRouted(hash, After(hash, w0, more[..i]), more[i]) {
      if i < |events| { assert more[i] == events[i]; }
    }
  }

  /** What will be at the published owner: what it has, or after a re-run what the two owners have together. */
  function Outcome(groups: map<nat, Group>, g: nat, h: nat, s: nat): Store {
    if FrozenAt(groups, g, s) then KvAt(groups, h, s) + KvAt(groups, g, s) else KvAt(groups, g, s)
  }

  /** On one shard: a wrong group that gives the right answer takes a Put, and the Put is not where it must be. */
  lemma WrongGroupLoses(groups: map<nat, Group>, g: nat, h: nat, gid: nat, s: nat, part: Store, op: Op)
    requires gid in groups && s < |groups[gid].shards| && !FrozenAt(groups, gid, s) && Placed(groups, g, h, s, part)
    requires g in groups && s < |groups[g].shards|
    requires !RightGroup(groups, g, h, gid, s, op) && Serve(KvAt(groups, gid, s), op).1 == Serve(part, op).1
    ensures var groups' := groups[gid := ClientCmd(groups[gid], s, op).0];
            && gid != g && Effective(part, op)
            && FrozenAt(groups', g, s) == FrozenAt(groups, g, s)
            && SameCopy(Outcome(groups', g, h, s), part, op.key)
  {
    hide Serve, Effective, Placed, SameCopy;
    var kv := KvAt(groups, gid, s);
    HeldIsPart(groups, g, h, s, part);
    CopyOrNone(groups, g, h, gid, s, part, op.key);
    if !Effective(kv, op) {
      CopyFound(kv, part, op);
    } else {
      EffectiveAlike(kv, part, op);
      WrongPutLoses(groups, g, h, gid, s, part, op);
    }
  }

  lemma CopyFound(kv: Store, part: Store, op: Op)
    requires !Effective(kv, op) && Serve(kv, op).1 == Serve(part, op).1
    requires op.key in kv ==> op.key in part && kv[op.key] == part[op.key]
    ensures SameCopy(kv, part, op.key)
  {
    if op.key !in kv && op.key in part { MissShows(kv, part, op); }
  }

  lemma EffectiveAlike(kv: Store, part: Store, op: Op)
    requires Effective(kv, op) && Serve(kv, op).1 == Serve(part, op).1
    ensures Effective(part, op)
  {
  }

  lemma WrongPutLoses(groups: map<nat, Group>, g: nat, h: nat, gid: nat, s: nat, part: Store, op: Op)
    requires gid in groups && s < |groups[gid].shards| && !FrozenAt(groups, gid, s) && Placed(groups, g, h, s, part)
    requires g in groups && s < |groups[g].shards| && gid != g
    requires !(gid == h && FrozenAt(groups, g, s) && op.key !in KvAt(groups, g, s))
    ensures var groups' := groups[gid := ClientCmd(groups[gid], s, op).0];
            FrozenAt(groups', g, s) == FrozenAt(groups, g, s) && SameCopy(Outcome(groups', g, h, s), part, op.key)
  {
    hide Serve;
    HeldIsPart(groups, g, h, s, part);
    var groups' := groups[gid := ClientCmd(groups[gid], s, op).0];
    assert KvAt(groups', g, s) == KvAt(groups, g, s);
    if gid != h { assert KvAt(groups', h, s) == KvAt(groups, h, s); }
  }

  /**
   After an answered operation that is not well routed, a read of the key at the published owner, at once or after
   steps of the controller alone, is not the single server's, unless the operation's own answer was already wrong.
   */
  lemma HarmIsSeen(hash: string -> nat, w: World, gid: nat, op: Op) returns (more: seq<Event>)
    requires Inv(hash, w) && Complete(w) && Answers(hash, w, gid, op) && !WellRouted(hash, w, Ask(gid, op))
    ensures var w1 := Asked(hash, w, gid, op);
            && Shaped(w1) && RoutedFrom(hash, w1, more) && !AsOneServer(After(hash, w1, more).served)
            && (more == [] || EndsInRead(hash, w1, more, op.key))
  {
    hide EndsInRead, StoreAfter, AsOneServer, Part, Serve, RightGroup, RoutedFrom, Placed, HandedOver, ControllerOk,
        Effective,
        Leads;
    NextShaped(hash, w, Ask(gid, op));
    var w1, s := Asked(hash, w, gid, op), ShardOf(hash, op.key);
    Start(hash, w1);
    more := [];
    StartRouted(hash, w1);
    if AsOneServer(w1.served) {
      var g, h := w.config.shards[s], Target(w).shards[s];
      WrongPut(hash, w, gid, op);
      if !FrozenAt(w.groups, g, s) {
        more := ReadAfter(hash, w1, [], w1, op.key);
      } else {
        var w2;
        more, w2 := Rerun(hash, w1, s);
        StillWrong(hash, w1, w2, op.key);
        more := ReadAfter(hash, w1, more, w2, op.key);
      }
    }
  }

  lemma StartRouted(hash: string -> nat, w: World)
    requires Shaped(w)
    ensures RoutedFrom(hash, w, []) && After(hash, w, []) == w
  {
  }

  /** What is known after a Put that was answered rightly by a wrong group. */
  lemma WrongPut(hash: string -> nat, w: World, gid: nat, op: Op)
    requires Inv(hash, w) && Complete(w) && Answers(hash, w, gid, op) && !WellRouted(hash, w, Ask(gid, op))
    requires AsOneServer(Asked(hash, w, gid, op).served)
    ensures var w1, s := Asked(hash, w, gid, op), ShardOf(hash, op.key);
            var g, h := w.config.shards[s], Target(w).shards[s];
            && Current(w1) && Complete(w1) && w1.config == w.config && w1.backup == w.backup
            && w1.groups.Keys == w.groups.Keys
            && FrozenAt(w1.groups, g, s) == FrozenAt(w.groups, g, s) && (FrozenAt(w.groups, g, s) ==> g != h)
            && !SameCopy(Outcome(w1.groups, g, h, s), StoreAfter(w1.served), op.key)
  {
    hide StoreAfter, AsOneServer, Part, Serve, RightGroup, Placed, Effective, SameCopy;
    NextShaped(hash, w, Ask(gid, op));
    var w1, s, data := Asked(hash, w, gid, op), ShardOf(hash, op.key), StoreAfter(w.served);
    var g, h, part := w.config.shards[s], Target(w).shards[s], Part(hash, data, s);
    assert PlacedAt(hash, w, s);
    LastAnswer(w.served, w1.served[|w.served|]);
    ServePart(hash, data, op, s);
    assert Served(w, w.config, g);
    WrongGroupLoses(w.groups, g, h, gid, s, part, op);
    NewPairDiffers(hash, data, s, op, Outcome(w1.groups, g, h, s));
    if FrozenAt(w.groups, g, s) { FrozenMoves(w.groups, g, h, s, part); }
  }

  lemma FrozenMoves(groups: map<nat, Group>, g: nat, h: nat, s: nat, part: Store)
    requires Placed(groups, g, h, s, part) && FrozenAt(groups, g, s)
    ensures g != h
  {
  }

  lemma NewPairDiffers(hash: string -> nat, data: Store, s: nat, op: Op, kv: Store)
    requires s == ShardOf(hash, op.key) && Effective(Part(hash, data, s), op)
             && SameCopy(kv, Part(hash, data, s), op.key)
    ensures !SameCopy(kv, Serve(data, op).0, op.key)
  {
    EffectShows(Part(hash, data, s), op);
    ServePart(hash, data, op, s);
  }

  lemma StillWrong(hash: string -> nat, w1: World, w2: World, key: string)
    requires Shaped(w1) && Shaped(w2) && Complete(w1) && w2.config == Target(w1) && w2.served == w1.served
    requires w2.groups.Keys == w1.groups.Keys
    requires var s := ShardOf(hash, key);
             && FrozenAt(w1.groups, w1.config.shards[s], s)
             && HandedOver(w1.groups, w2.groups, w1.config.shards[s], Target(w1).shards[s], s)
             && !SameCopy(Outcome(w1.groups, w1.config.shards[s], Target(w1).shards[s], s), StoreAfter(w1.served), key)
    ensures var g := w2.config.shards[ShardOf(hash, key)];
            && Answers(hash, w2, g, Get(key))
            && !SameCopy(KvAt(w2.groups, g, ShardOf(hash, key)), StoreAfter(w2.served), key)
  {
    hide StoreAfter;
    assert Served(w1, Target(w1), Target(w1).shards[ShardOf(hash, key)]);
  }

  /**
   The condition is exact. After a well routed run, with owners that can be reached, an answered operation is well
   routed if and only if every well routed run after it gives the answers of one key/value server.
   */
  lemma RoutingIsExact(hash: string -> nat, cfg: Config, gids: set<nat>, events: seq<Event>, gid: nat, op: Op)
    requires First(cfg) && Routed(hash, cfg, gids, events)
    requires var w := Run(hash, cfg, gids, events); Complete(w) && Answers(hash, w, gid, op)
    ensures var w := Run(hash, cfg, gids, events);
            var w1 := Asked(hash, w, gid, op);
            && Shaped(w1)
            && (WellRouted(hash, w, Ask(gid, op)) <==>
                  forall more :: RoutedFrom(hash, w1, more) ==> AsOneServer(After(hash, w1, more).served))
  {
    hide Inv, After, Asked, WellRouted, Complete, AsOneServer;
    RunOk(hash, cfg, gids, events);
    var w := Run(hash, cfg, gids, events);
    NextShaped(hash, w, Ask(gid, op));
    var w1 := Asked(hash, w, gid, op);
    if WellRouted(hash, w, Ask(gid, op)) {
      AskOk(hash, w, gid, op);
      forall more | RoutedFrom(hash, w1, more) ensures AsOneServer(After(hash, w1, more).served) {
        AfterOk(hash, w1, more);
        InvAnswers(hash, After(hash, w1, more));
      }
    } else {
      var more := HarmIsSeen(hash, w, gid, op);
    }
  }

  lemma InvAnswers(hash: string -> nat, w: World)
    requires Inv(hash, w)
    ensures AsOneServer(w.served)
  {
  }
}
