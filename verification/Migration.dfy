/**
 Moving shards between groups. One controller at a time changes the published configuration step by step and may stop
 after any step; its successor first re-runs the saved configuration. Clients read and write all the while. Every well
 routed run behaves as one key/value server, and whenever no change is unfinished each key is in exactly the group the
 published configuration names.
 */
module Migration {
  import opened KvServer
  import opened ShardGroup

  const NSHARDS: nat := 12

  /** A configuration; `groups` holds the keys of its Groups map. */
  datatype Config = Config(num: int, shards: seq<nat>, groups: set<nat>)

  /**
   The local variables of ChangeConfigTo: the old configuration, the version it was read at, the new configuration.
   */
  datatype Job = Job(old_: Config, version: nat, new_: Config)

  /** Where the controller is: what it does next in ChangeConfigTo or InitController, out of both, or stopped. */
  datatype Controller =
    | Down | Idle | Recovering
    | ReadConfig(cfg: Config)
    | ReadBackup(job: Job)
    | WriteBackup(job: Job, ver: nat)
    | Visit(job: Job, s: nat)
    | Install(job: Job, s: nat, state: Store)
    | Delete(job: Job, s: nat)

  datatype Answer = Answer(op: Op, result: Result)

  datatype Saved = Nothing | Saved(cfg: Config)

  /**
   The groups by identifier, the two keys "config" and "backup-config" with their versions, and the controller. The
   clients' operations that got an answer other than ErrWrongGroup are recorded in `served`.
   */
  datatype World = World(
    groups: map<nat, Group>,
    config: Config, configVersion: nat, backup: Saved, backupVersion: nat,
    ctl: Controller, served: seq<Answer>, panicked: bool)

  datatype Event = Change(cfg: Config) | Proceed | Crash | Recover | Ask(gid: nat, op: Op)

  /** Key2Shard; the hash is any function. */
  function ShardOf(hash: string -> nat, key: string): (s: nat)
    ensures s < NSHARDS
  {
    hash(key) % NSHARDS
  }

  function Begin(cfg: Config, gids: set<nat>): World {
    World(map g | g in gids :: NewGroup(NSHARDS), cfg, 1, Nothing, 0, Idle, [], false)
  }

  /** The first configuration, which InitConfig publishes. */
  predicate First(cfg: Config) {
    |cfg.shards| == NSHARDS && cfg.num >= 0
  }

  predicate Shaped(w: World) {
    && |w.config.shards| == NSHARDS
    && (w.backup.Saved? ==> |w.backup.cfg.shards| == NSHARDS)
    && (forall g :: g in w.groups ==> |w.groups[g].shards| == NSHARDS)
    && match w.ctl
       case Down | Idle | Recovering => true
       case ReadConfig(cfg) => |cfg.shards| == NSHARDS
       case ReadBackup(job) => JobShaped(job)
       case WriteBackup(job, _) => JobShaped(job)
       case Visit(job, _) => JobShaped(job)
       case Install(job, s, _) => JobShaped(job) && s < NSHARDS
       case Delete(job, s) => JobShaped(job) && s < NSHARDS
  }

  predicate JobShaped(job: Job) {
    |job.old_.shards| == NSHARDS && |job.new_.shards| == NSHARDS
  }

  /** Whether calls to group `g` through this configuration are ever answered: a clerk without servers tries forever. */
  predicate Served(w: World, cfg: Config, g: nat) {
    g in cfg.groups && g in w.groups
  }

  /** The controller's next step. */
  function Advance(w: World): World
    requires Shaped(w)
  {
    match w.ctl
    case Down | Idle => w
    case Recovering => w.(ctl := if w.backup.Saved? then ReadConfig(w.backup.cfg) else Idle)
    case ReadConfig(cfg) =>
      w.(ctl := if w.config.num >= cfg.num then Idle else ReadBackup(Job(w.config, w.configVersion, cfg)))
    case ReadBackup(job) => w.(ctl := WriteBackup(job, w.backupVersion))
    case WriteBackup(job, ver) =>
      if ver == w.backupVersion
      then w.(backup := Saved(job.new_), backupVersion := ver + 1, ctl := Visit(job, 0))
      else w.(ctl := Visit(job, 0))
    case Visit(job, s) =>
      if s >= NSHARDS then Publish(w, job)
      else if job.old_.shards[s] == job.new_.shards[s] then w.(ctl := Visit(job, s + 1))
      else FreezeAt(w, job, s)
    case Install(job, s, state) => InstallAt(w, job, s, state)
    case Delete(job, s) => DeleteAt(w, job, s)
  }

  function Publish(w: World, job: Job): World {
    if job.version == w.configVersion
    then w.(config := job.new_, configVersion := job.version + 1, ctl := Idle)
    else w.(ctl := Idle)
  }

  function FreezeAt(w: World, job: Job, s: nat): World
    requires Shaped(w) && JobShaped(job) && s < NSHARDS
  {
    var g := job.old_.shards[s];
    if !Served(w, job.old_, g) then w
    else
      var (group, r) := FreezeCmd(w.groups[g], s, job.new_.num);
      w.(groups := w.groups[g := group], ctl := if r.verdict == Done then Install(job, s, r.state) else Idle)
  }

  function InstallAt(w: World, job: Job, s: nat, state: Store): World
    requires Shaped(w) && JobShaped(job) && s < NSHARDS
  {
    var h := job.new_.shards[s];
    if !Served(w, job.new_, h) then w
    else
      var (group, v) := InstallCmd(w.groups[h], s, state, job.new_.num);
      w.(groups := w.groups[h := group], ctl := if v == Done then Delete(job, s) else Idle)
  }

  /** The reply of DeleteShard is not looked at. */
  function DeleteAt(w: World, job: Job, s: nat): World
    requires Shaped(w) && JobShaped(job) && s < NSHARDS
  {
    var g := job.old_.shards[s];
    if !Served(w, job.old_, g) then w
    else
      var (group, v) := DeleteCmd(w.groups[g], s, job.new_.num);
      w.(groups := w.groups[g := group], panicked := w.panicked || v == Panic, ctl := Visit(job, s + 1))
  }

  /** A client's operation at group `gid`. The check for a frozen shard and the command are one step. */
  function Asked(hash: string -> nat, w: World, gid: nat, op: Op): World
    requires Shaped(w)
  {
    if gid !in w.groups then w
    else
      var (group, v, r) := ClientCmd(w.groups[gid], ShardOf(hash, op.key), op);
      if v != Done then w else w.(groups := w.groups[gid := group], served := w.served + [Answer(op, r)])
  }

  /** A new controller recovers before it changes anything; a controller does one thing at a time. */
  function Next(hash: string -> nat, w: World, e: Event): World
    requires Shaped(w)
  {
    match e
    case Change(cfg) => if w.ctl.Idle? && |cfg.shards| == NSHARDS then w.(ctl := ReadConfig(cfg)) else w
    case Proceed => Advance(w)
    case Crash => w.(ctl := Down)
    case Recover => if w.ctl.Down? then w.(ctl := Recovering) else w
    case Ask(gid, op) => Asked(hash, w, gid, op)
  }

  lemma NextShaped(hash: string -> nat, w: World, e: Event)
    requires Shaped(w)
    ensures Shaped(Next(hash, w, e))
  {
  }

  function After(hash: string -> nat, w: World, events: seq<Event>): (w': World)
    requires Shaped(w)
    ensures Shaped(w')
  {
    if events == [] then w
    else
      var before := After(hash, w, events[..|events| - 1]);
      NextShaped(hash, before, events[|events| - 1]);
      Next(hash, before, events[|events| - 1])
  }

  function Run(hash: string -> nat, cfg: Config, gids: set<nat>, events: seq<Event>): (w: World)
    requires First(cfg)
    ensures Shaped(w)
  {
    After(hash, Begin(cfg, gids), events)
  }

  // ---------------------------------------------------------------- which operations are routed well

  /** A saved configuration that is newer than the published one: a change has begun and is not finished. */
  predicate InFlight(w: World) {
    w.backup.Saved? && w.backup.cfg.num > w.config.num
  }

  function Target(w: World): Config {
    if InFlight(w) then w.backup.cfg else w.config
  }

  function KvAt(groups: map<nat, Group>, g: nat, s: nat): Store {
    if g in groups && s < |groups[g].shards| then groups[g].shards[s].kv else map[]
  }

  predicate FrozenAt(groups: map<nat, Group>, g: nat, s: nat) {
    g in groups && s < |groups[g].shards| && groups[g].shards[s].frozen
  }

  /** The two maps have the same pair, or none, for the key. */
  predicate SameCopy(a: Store, b: Store, key: string) {
    (key in a <==> key in b) && (key in a ==> a[key] == b[key])
  }

  predicate Effective(kv: Store, op: Op) {
    op.Put? && Serve(kv, op).1.err == OK
  }

  /**
   May group `gid` serve this operation on shard `s`, of which `g` is the published owner and `h` the owner to be? The
   published owner always may. A Put that takes effect may only go to the owner to be besides, once the published owner
   is frozen, and only on a key the published owner no longer has. Any other operation changes nothing, and may go
   wherever the key is as it is at the two owners together.
   */
  predicate RightGroup(groups: map<nat, Group>, g: nat, h: nat, gid: nat, s: nat, op: Op) {
    || gid == g
    || if Effective(KvAt(groups, gid, s), op)
       then gid == h && FrozenAt(groups, g, s) && op.key !in KvAt(groups, g, s)
       else SameCopy(KvAt(groups, gid, s), KvAt(groups, h, s) + KvAt(groups, g, s), op.key)
  }

  /** The group answers the operation at all. */
  predicate Answers(hash: string -> nat, w: World, gid: nat, op: Op) {
    gid in w.groups && !FrozenAt(w.groups, gid, ShardOf(hash, op.key))
  }

  predicate WellRouted(hash: string -> nat, w: World, e: Event)
    requires Shaped(w)
  {
    e.Ask? && Answers(hash, w, e.gid, e.op) ==>
      var s := ShardOf(hash, e.op.key);
      RightGroup(w.groups, w.config.shards[s], Target(w).shards[s], e.gid, s, e.op)
  }

  predicate RoutedFrom(hash: string -> nat, w: World, events: seq<Event>)
    requires Shaped(w)
  {
    forall i :: 0 <= i < |events| ==> WellRouted(hash, After(hash, w, events[..i]), events[i])
  }

  predicate Routed(hash: string -> nat, cfg: Config, gids: set<nat>, events: seq<Event>)
    requires First(cfg)
  {
    RoutedFrom(hash, Begin(cfg, gids), events)
  }

  // ---------------------------------------------------------------- the simple form: one key/value server

  function StoreAfter(served: seq<Answer>): Store {
    if served == [] then map[] else Serve(StoreAfter(served[..|served| - 1]), served[|served| - 1].op).0
  }

  /** The part of the store that belongs to shard `s`. */
  function Part(hash: string -> nat, data: Store, s: nat): Store {
    map k | k in data && ShardOf(hash, k) == s :: data[k]
  }

  /** Every answer is the one a single key/value server gives after the answers before it. */
  predicate AsOneServer(served: seq<Answer>) {
    forall j :: 0 <= j < |served| ==> served[j].result == Serve(StoreAfter(served[..j]), served[j].op).1
  }

  lemma ServePart(hash: string -> nat, data: Store, op: Op, s: nat)
    ensures s != ShardOf(hash, op.key) ==> Part(hash, Serve(data, op).0, s) == Part(hash, data, s)
    ensures s == ShardOf(hash, op.key) ==>
              Serve(Part(hash, data, s), op) == (Part(hash, Serve(data, op).0, s), Serve(data, op).1)
  {
    var data' := Serve(data, op).0;
    if s != ShardOf(hash, op.key) {
      assert Part(hash, data', s) == Part(hash, data, s);
    } else {
      assert Serve(Part(hash, data, s), op).0 == Part(hash, data', s);
    }
  }

  lemma {:induction false} AnswerNext(served: seq<Answer>, a: Answer)
    requires AsOneServer(served) && a.result == Serve(StoreAfter(served), a.op).1
    ensures AsOneServer(served + [a]) && StoreAfter(served + [a]) == Serve(StoreAfter(served), a.op).0
  {
    var all := served + [a];
    assert all[..|served|] == served;
    forall j | 0 <= j < |all| ensures all[j].result == Serve(StoreAfter(all[..j]), all[j].op).1 {
      if j < |served| { assert all[..j] == served[..j]; }
    }
  }

  // ---------------------------------------------------------------- the invariant

  predicate Has(groups: map<nat, Group>, g: nat, s: nat, shard: Shard) {
    g in groups && s < |groups[g].shards| && groups[g].shards[s] == shard
  }

  predicate Bare(groups: map<nat, Group>, g: nat, s: nat) {
    g in groups ==> s < |groups[g].shards| && groups[g].shards[s].kv == map[]
  }

  /** The two maps together are `part`, and they do not differ on a key that both have. */
  predicate Splits(part: Store, a: Store, b: Store) {
    part == a + b && part == b + a
  }

  predicate Untouched(groups: map<nat, Group>, g: nat, h: nat, s: nat, part: Store) {
    && (Has(groups, g, s, Shard(part, false)) || (g !in groups && part == map[]))
    && (h != g ==> Bare(groups, h, s))
  }

  /**
   From the freeze on: the old group changes nothing any more, and what it still has is not changed at the new one.
   */
  predicate Handing(groups: map<nat, Group>, g: nat, h: nat, s: nat, part: Store) {
    && h != g && FrozenAt(groups, g, s) && (h in groups ==> s < |groups[h].shards|)
    && Splits(part, KvAt(groups, h, s), KvAt(groups, g, s))
  }

  /** A copy of what the old group has is on its way to the new one. */
  predicate Copying(groups: map<nat, Group>, g: nat, h: nat, s: nat, part: Store, state: Store) {
    Handing(groups, g, h, s, part) && KvAt(groups, g, s) == state
  }

  /** The new group has everything. */
  predicate Installed(groups: map<nat, Group>, g: nat, h: nat, s: nat, part: Store) {
    Handing(groups, g, h, s, part) && Has(groups, h, s, Shard(part, false))
  }

  /** The old group has nothing left. */
  predicate Moved(groups: map<nat, Group>, g: nat, h: nat, s: nat, part: Store) {
    h != g && Has(groups, g, s, Shard(map[], true)) && Has(groups, h, s, Shard(part, false))
  }

  /** Where the part of shard `s` is, on its way from group `g` to group `h`. Other groups hold nothing of it. */
  predicate Placed(groups: map<nat, Group>, g: nat, h: nat, s: nat, part: Store) {
    && (forall x :: x in groups && x != g && x != h ==> Bare(groups, x, s))
    && (Untouched(groups, g, h, s, part) || Handing(groups, g, h, s, part))
  }

  predicate Settled(groups: map<nat, Group>, g: nat, h: nat, s: nat, part: Store) {
    if g == h then Untouched(groups, g, h, s, part) else Moved(groups, g, h, s, part)
  }

  /** The controller's local variables are current: nobody else changes what it has read. */
  predicate Current(w: World, job: Job) {
    job.old_ == w.config && job.version == w.configVersion && job.new_.num > w.config.num
  }

  predicate Working(w: World, job: Job) {
    Current(w, job) && w.backup == Saved(job.new_)
  }

  /** The shards before `s` have settled. */
  predicate SettledBefore(hash: string -> nat, w: World, job: Job, s: nat)
    requires JobShaped(job)
  {
    forall i :: 0 <= i < s && i < NSHARDS ==>
                  Settled(w.groups, job.old_.shards[i], job.new_.shards[i], i, Part(hash, StoreAfter(w.served), i))
  }

  predicate ControllerOk(hash: string -> nat, w: World)
    requires Shaped(w)
  {
    match w.ctl
    case Down | Recovering => true
    case Idle => !InFlight(w)
    case ReadConfig(cfg) => InFlight(w) ==> cfg == w.backup.cfg
    case ReadBackup(job) => Current(w, job) && (InFlight(w) ==> job.new_ == w.backup.cfg)
    case WriteBackup(job, ver) => Current(w, job) && (InFlight(w) ==> job.new_ == w.backup.cfg)
        && ver == w.backupVersion
    case Visit(job, s) => Working(w, job) && SettledBefore(hash, w, job, s)
    case Install(job, s, state) => Working(w, job) && SettledBefore(hash, w, job, s)
        && InstallOk(hash, w, job, s, state)
    case Delete(job, s) => Working(w, job) && SettledBefore(hash, w, job, s) && DeleteOk(hash, w, job, s)
  }

  predicate InstallOk(hash: string -> nat, w: World, job: Job, s: nat, state: Store)
    requires JobShaped(job) && s < NSHARDS
  {
    Copying(w.groups, job.old_.shards[s], job.new_.shards[s], s, Part(hash, StoreAfter(w.served), s), state)
  }

  predicate DeleteOk(hash: string -> nat, w: World, job: Job, s: nat)
    requires JobShaped(job) && s < NSHARDS
  {
    Installed(w.groups, job.old_.shards[s], job.new_.shards[s], s, Part(hash, StoreAfter(w.served), s))
  }

  predicate PlacedAt(hash: string -> nat, w: World, s: nat)
    requires Shaped(w) && s < NSHARDS
  {
    Placed(w.groups, w.config.shards[s], Target(w).shards[s], s, Part(hash, StoreAfter(w.served), s))
  }

  predicate Inv(hash: string -> nat, w: World) {
    && Shaped(w)
    && w.config.num >= 0 && !w.panicked
    && AsOneServer(w.served)
    && (forall g :: g in w.groups ==> w.groups[g].maxNum <= Target(w).num)
    && (forall s: nat :: s < NSHARDS ==> PlacedAt(hash, w, s))
    && ControllerOk(hash, w)
  }

  // ---------------------------------------------------------------- every event keeps the invariant

  /** A command that changes only shard `s` of group `g` leaves the other shards where they were. */
  lemma OthersPlaced(groups: map<nat, Group>, g: nat, group: Group, s: nat, i: nat, x: nat, y: nat, part: Store)
    requires g in groups && |group.shards| == |groups[g].shards| && s < |group.shards| && i < |group.shards| && i != s
    requires group.shards == groups[g].shards[s := group.shards[s]]
    ensures Placed(groups, x, y, i, part) ==> Placed(groups[g := group], x, y, i, part)
    ensures Settled(groups, x, y, i, part) ==> Settled(groups[g := group], x, y, i, part)
  {
  }

  /** What the controller's command at shard `s` must establish: that shard placed, and the rest follows. */
  lemma CommandOk(hash: string -> nat, w: World, job: Job, s: nat, g: nat, group: Group, ctl: Controller)
    requires Inv(hash, w) && JobShaped(job) && Working(w, job) && SettledBefore(hash, w, job, s) && s < NSHARDS
    requires g in w.groups && |group.shards| == NSHARDS && group.maxNum <= job.new_.num
    requires group.shards == w.groups[g].shards[s := group.shards[s]]
    requires Placed(w.groups[g := group], job.old_.shards[s], job.new_.shards[s], s,
                    Part(hash, StoreAfter(w.served), s))
    ensures var w' := w.(groups := w.groups[g := group], ctl := ctl);
            Shaped(w') ==>
              && SettledBefore(hash, w', job, s)
              && (ControllerOk(hash, w') ==> Inv(hash, w'))
  {
    hide Placed, Settled, StoreAfter, Part, AsOneServer;
    var w' := w.(groups := w.groups[g := group], ctl := ctl);
    if Shaped(w') {
      forall i: nat | i < NSHARDS ensures PlacedAt(hash, w', i) {
        assert PlacedAt(hash, w, i);
        if i != s {
          OthersPlaced(w.groups, g, group, s, i, job.old_.shards[i], job.new_.shards[i],
                       Part(hash, StoreAfter(w.served), i));
        }
      }
      forall i | 0 <= i < s && i < NSHARDS
        ensures Settled(w'.groups, job.old_.shards[i], job.new_.shards[i], i, Part(hash, StoreAfter(w.served), i))
      {
        OthersPlaced(w.groups, g, group, s, i, job.old_.shards[i], job.new_.shards[i],
                     Part(hash, StoreAfter(w.served), i));
      }
    }
  }

  lemma FreezeOk(hash: string -> nat, w: World, job: Job, s: nat)
    requires Inv(hash, w) && w.ctl == Visit(job, s) && s < NSHARDS && job.old_.shards[s] != job.new_.shards[s]
    ensures Inv(hash, FreezeAt(w, job, s))
  {
    hide StoreAfter, Part, AsOneServer, SettledBefore;
    var g, h, part := job.old_.shards[s], job.new_.shards[s], Part(hash, StoreAfter(w.served), s);
    if Served(w, job.old_, g) {
      assert PlacedAt(hash, w, s);
      var (group, r) := FreezeCmd(w.groups[g], s, job.new_.num);
      var w' := FreezeAt(w, job, s);
      FreezePlaces(w.groups, g, h, s, part, job.new_.num);
      CommandOk(hash, w, job, s, g, group, w'.ctl);
    }
  }

  /** Freezing again, at any stage, leaves the shard placed and returns what the old group still has. */
  lemma FreezePlaces(groups: map<nat, Group>, g: nat, h: nat, s: nat, part: Store, num: int)
    requires Placed(groups, g, h, s, part) && g in groups && g != h && s < |groups[g].shards| && groups[g].maxNum <= num
    ensures var (group, r) := FreezeCmd(groups[g], s, num);
            Placed(groups[g := group], g, h, s, part) && Copying(groups[g := group], g, h, s, part, r.state)
  {
    assert map[] + part == part && part + map[] == part;
  }

  /** Installing again, at any stage, leaves the new group with exactly the shard's data. */
  lemma InstallPlaces(groups: map<nat, Group>, g: nat, h: nat, s: nat, part: Store, state: Store, num: int)
    requires Placed(groups, g, h, s, part) && h in groups && s < |groups[h].shards| && groups[h].maxNum <= num
    requires Copying(groups, g, h, s, part, state)
    ensures var groups' := groups[h := InstallCmd(groups[h], s, state, num).0];
            Placed(groups', g, h, s, part) && Installed(groups', g, h, s, part)
  {
    assert part + state == part && state + part == part;
  }

  lemma InstallStepOk(hash: string -> nat, w: World, job: Job, s: nat, state: Store)
    requires Inv(hash, w) && w.ctl == Install(job, s, state)
    ensures Inv(hash, InstallAt(w, job, s, state))
  {
    hide StoreAfter, Part, AsOneServer, SettledBefore, Placed, Installed, Handing;
    var g, h, part := job.old_.shards[s], job.new_.shards[s], Part(hash, StoreAfter(w.served), s);
    if Served(w, job.new_, h) {
      assert PlacedAt(hash, w, s);
      var w' := InstallAt(w, job, s, state);
      InstallPlaces(w.groups, g, h, s, part, state, job.new_.num);
      CommandOk(hash, w, job, s, h, InstallCmd(w.groups[h], s, state, job.new_.num).0, w'.ctl);
    }
  }

  /** Deleting after an install settles the shard, without a panic. */
  lemma DeletePlaces(groups: map<nat, Group>, g: nat, h: nat, s: nat, part: Store, num: int)
    requires Placed(groups, g, h, s, part) && g in groups && s < |groups[g].shards| && groups[g].maxNum <= num
    requires Installed(groups, g, h, s, part)
    ensures var (group, v) := DeleteCmd(groups[g], s, num);
            v == Done && Placed(groups[g := group], g, h, s, part) && Settled(groups[g := group], g, h, s, part)
  {
    assert map[] + part == part && part + map[] == part;
  }

  lemma DeleteStepOk(hash: string -> nat, w: World, job: Job, s: nat)
    requires Inv(hash, w) && w.ctl == Delete(job, s)
    ensures Inv(hash, DeleteAt(w, job, s))
  {
    hide StoreAfter, Part, AsOneServer, Placed, Installed, Settled;
    var g, h, part := job.old_.shards[s], job.new_.shards[s], Part(hash, StoreAfter(w.served), s);
    if Served(w, job.old_, g) {
      assert PlacedAt(hash, w, s);
      var w' := DeleteAt(w, job, s);
      DeletePlaces(w.groups, g, h, s, part, job.new_.num);
      CommandOk(hash, w, job, s, g, DeleteCmd(w.groups[g], s, job.new_.num).0, w'.ctl);
    }
  }

  /** A change begins: nothing has moved yet. */
  lemma WriteBackupOk(hash: string -> nat, w: World, job: Job, ver: nat)
    requires Inv(hash, w) && w.ctl == WriteBackup(job, ver)
    ensures Inv(hash, Advance(w))
  {
    hide StoreAfter, Part, AsOneServer;
    var w' := Advance(w);
    forall s: nat | s < NSHARDS ensures PlacedAt(hash, w', s) {
      assert PlacedAt(hash, w, s);
    }
  }

  /** A change ends: every shard has settled at its new group. */
  lemma PublishOk(hash: string -> nat, w: World, job: Job, s: nat)
    requires Inv(hash, w) && w.ctl == Visit(job, s) && s >= NSHARDS
    ensures Inv(hash, Publish(w, job)) && Publish(w, job).config == job.new_
  {
    hide StoreAfter, Part, AsOneServer;
    var w' := Publish(w, job);
    forall s: nat | s < NSHARDS ensures PlacedAt(hash, w', s) {
      assert PlacedAt(hash, w, s);
      assert Settled(w.groups, job.old_.shards[s], job.new_.shards[s], s, Part(hash, StoreAfter(w.served), s));
    }
  }

  /** Steps that change neither the groups nor the configurations. */
  lemma QuietOk(hash: string -> nat, w: World, ctl: Controller)
    requires Inv(hash, w) && Shaped(w.(ctl := ctl)) && ControllerOk(hash, w.(ctl := ctl))
    ensures Inv(hash, w.(ctl := ctl))
  {
    hide StoreAfter, Part, AsOneServer, Placed, ControllerOk, Shaped;
    var w' := w.(ctl := ctl);
    forall s: nat | s < NSHARDS ensures PlacedAt(hash, w', s) { assert PlacedAt(hash, w, s); }
  }

  lemma AdvanceOk(hash: string -> nat, w: World)
    requires Inv(hash, w)
    ensures Inv(hash, Advance(w))
  {
    hide StoreAfter, Part, AsOneServer, Placed, Settled, PlacedAt, FreezeAt, InstallAt, DeleteAt, Publish;
    match w.ctl {
      case Down =>
      case Idle =>
      case WriteBackup(job, ver) => WriteBackupOk(hash, w, job, ver);
      case Install(job, s, state) => InstallStepOk(hash, w, job, s, state);
      case Delete(job, s) => DeleteStepOk(hash, w, job, s);
      case Visit(job, s) =>
        if s >= NSHARDS {
          PublishOk(hash, w, job, s);
        } else if job.old_.shards[s] != job.new_.shards[s] {
          FreezeOk(hash, w, job, s);
        } else {
          SameOwnerSettled(hash, w, s);
          QuietOk(hash, w, Visit(job, s + 1));
        }
      case _ => QuietOk(hash, w, Advance(w).ctl);
    }
  }

  lemma SameOwnerSettled(hash: string -> nat, w: World, s: nat)
    requires Inv(hash, w) && s < NSHARDS && w.config.shards[s] == Target(w).shards[s]
    ensures Settled(w.groups, w.config.shards[s], w.config.shards[s], s, Part(hash, StoreAfter(w.served), s))
  {
    assert PlacedAt(hash, w, s);
  }

  /** A well routed operation that is answered. */
  lemma AskOk(hash: string -> nat, w: World, gid: nat, op: Op)
    requires Inv(hash, w) && WellRouted(hash, w, Ask(gid, op)) && Answers(hash, w, gid, op)
    ensures Inv(hash, Asked(hash, w, gid, op))
  {
    hide StoreAfter, Part, AsOneServer, Placed, Settled, Serve, RightGroup;
    var s, w' := ShardOf(hash, op.key), Asked(hash, w, gid, op);
    var data := StoreAfter(w.served);
    var (group, v, r) := ClientCmd(w.groups[gid], s, op);
    assert PlacedAt(hash, w, s);
    AskPlaces(hash, w.groups, w.config.shards[s], Target(w).shards[s], gid, s, data, op);
    AnswerNext(w.served, Answer(op, r));
    forall i: nat | i < NSHARDS ensures PlacedAt(hash, w', i) {
      assert PlacedAt(hash, w, i);
      ServePart(hash, data, op, i);
      if i != s {
        OthersPlaced(w.groups, gid, group, s, i, w.config.shards[i], Target(w).shards[i], Part(hash, data, i));
      }
    }
    AskController(hash, w, w', gid, op);
  }

  /** The two owners together hold the shard's part. */
  lemma HeldIsPart(groups: map<nat, Group>, g: nat, h: nat, s: nat, part: Store)
    requires Placed(groups, g, h, s, part)
    ensures KvAt(groups, h, s) + KvAt(groups, g, s) == part
  {
    assert map[] + part == part && part + part == part;
  }

  /** An operation depends on its key's pair only, and an operation without effect leaves the map. */
  lemma ServeCopy(a: Store, b: Store, op: Op)
    requires SameCopy(a, b, op.key)
    ensures Serve(a, op).1 == Serve(b, op).1
    ensures SameCopy(Serve(a, op).0, Serve(b, op).0, op.key)
  {
  }

  lemma ServeIdle(kv: Store, op: Op)
    requires !Effective(kv, op)
    ensures Serve(kv, op).0 == kv
  {
  }

  /** What an answered operation does to a shard's part and to the stages of its move. */
  lemma AskPlaces(hash: string -> nat, groups: map<nat, Group>, g: nat, h: nat, gid: nat, s: nat, data: Store, op: Op)
    requires gid in groups && s < |groups[gid].shards| && !FrozenAt(groups, gid, s) && s == ShardOf(hash, op.key)
    requires Placed(groups, g, h, s, Part(hash, data, s)) && RightGroup(groups, g, h, gid, s, op)
    ensures var (group, v, r) := ClientCmd(groups[gid], s, op);
            && r == Serve(data, op).1
            && StagesKept(groups, groups[gid := group], g, h, s, Part(hash, data, s), Part(hash, Serve(data, op).0, s))
            && Placed(groups[gid := group], g, h, s, Part(hash, Serve(data, op).0, s))
  {
    hide Serve, Part, Placed, Effective, StagesKept;
    var part, kv := Part(hash, data, s), KvAt(groups, gid, s);
    ServePart(hash, data, op, s);
    HeldIsPart(groups, g, h, s, part);
    if gid == g {
      AskOwner(groups, g, h, s, part, op);
    } else if Effective(kv, op) {
      AskTarget(groups, g, h, s, part, op);
    } else {
      ServeCopy(kv, part, op);
      AskIdle(groups, g, h, gid, s, part, op);
    }
  }

  ghost predicate StagesKept(groups: map<nat, Group>, groups': map<nat, Group>, g: nat, h: nat, s: nat,
                             part: Store, part': Store)
  {
    && (Settled(groups, g, h, s, part) ==> Settled(groups', g, h, s, part'))
    && (Installed(groups, g, h, s, part) ==> Installed(groups', g, h, s, part'))
    && (forall state :: Copying(groups, g, h, s, part, state) ==> Copying(groups', g, h, s, part', state))
  }

  lemma AskOwner(groups: map<nat, Group>, g: nat, h: nat, s: nat, part: Store, op: Op)
    requires g in groups && s < |groups[g].shards| && !FrozenAt(groups, g, s) && Placed(groups, g, h, s, part)
    ensures var (group, v, r) := ClientCmd(groups[g], s, op);
            && r == Serve(part, op).1
            && Placed(groups[g := group], g, h, s, Serve(part, op).0)
            && StagesKept(groups, groups[g := group], g, h, s, part, Serve(part, op).0)
  {
    hide Serve, Splits;
  }

  lemma AskTarget(groups: map<nat, Group>, g: nat, h: nat, s: nat, part: Store, op: Op)
    requires h in groups && s < |groups[h].shards| && !FrozenAt(groups, h, s) && Placed(groups, g, h, s, part)
    requires FrozenAt(groups, g, s) && op.key !in KvAt(groups, g, s) && Effective(KvAt(groups, h, s), op)
    ensures var (group, v, r) := ClientCmd(groups[h], s, op);
            && r == Serve(part, op).1
            && Placed(groups[h := group], g, h, s, Serve(part, op).0)
            && StagesKept(groups, groups[h := group], g, h, s, part, Serve(part, op).0)
  {
    hide Serve, Splits;
    SplitsServe(part, KvAt(groups, h, s), KvAt(groups, g, s), op);
  }

  /** A Put on a key that only one of the maps may have. */
  lemma SplitsServe(part: Store, a: Store, b: Store, op: Op)
    requires Splits(part, a, b) && op.key !in b
    ensures Serve(a, op).1 == Serve(part, op).1 && Splits(Serve(part, op).0, Serve(a, op).0, b)
    ensures a == part ==> Serve(a, op).0 == Serve(part, op).0
  {
    var a', part' := Serve(a, op).0, Serve(part, op).0;
    assert SameCopy(a, part, op.key);
    assert part' == a' + b && part' == b + a';
  }

  lemma AskIdle(groups: map<nat, Group>, g: nat, h: nat, gid: nat, s: nat, part: Store, op: Op)
    requires gid in groups && s < |groups[gid].shards| && !FrozenAt(groups, gid, s) && Placed(groups, g, h, s, part)
    requires !Effective(KvAt(groups, gid, s), op) && SameCopy(KvAt(groups, gid, s), part, op.key)
    ensures groups[gid := ClientCmd(groups[gid], s, op).0] == groups && Serve(part, op).0 == part
    ensures ClientCmd(groups[gid], s, op).2 == Serve(part, op).1
    ensures StagesKept(groups, groups, g, h, s, part, part)
  {
    hide Serve, Placed, Settled, Installed, Copying;
    ServeIdle(KvAt(groups, gid, s), op);
    ServeCopy(KvAt(groups, gid, s), part, op);
    ServeIdle(part, op);
    var group := ClientCmd(groups[gid], s, op).0;
    assert group.shards == groups[gid].shards;
    assert groups[gid := group] == groups;
  }

  /** What the controller is about to do still fits. */
  lemma AskController(hash: string -> nat, w: World, w': World, gid: nat, op: Op)
    requires Inv(hash, w) && WellRouted(hash, w, Ask(gid, op)) && Answers(hash, w, gid, op)
    requires w' == Asked(hash, w, gid, op) && Shaped(w')
    requires StoreAfter(w'.served) == Serve(StoreAfter(w.served), op).0
    ensures ControllerOk(hash, w')
  {
    hide StoreAfter, Part, AsOneServer, Placed, Settled, Serve, Installed, Copying, RightGroup;
    if w.ctl.Visit? || w.ctl.Install? || w.ctl.Delete? {
      var data := StoreAfter(w.served);
      forall i: nat | i < NSHARDS
        ensures StagesKept(w.groups, w'.groups, w.config.shards[i], Target(w).shards[i], i,
                           Part(hash, data, i), Part(hash, Serve(data, op).0, i))
      {
        StagesAt(hash, w, w', gid, op, i);
      }
      AskWorking(hash, w, w', op);
    }
  }

  lemma AskWorking(hash: string -> nat, w: World, w': World, op: Op)
    requires Inv(hash, w) && Shaped(w') && (w.ctl.Visit? || w.ctl.Install? || w.ctl.Delete?)
    requires w' == w.(groups := w'.groups, served := w'.served)
    requires forall i: nat :: i < NSHARDS ==>
               StagesKept(w.groups, w'.groups, w.config.shards[i], Target(w).shards[i], i,
                          Part(hash, StoreAfter(w.served), i), Part(hash, StoreAfter(w'.served), i))
    ensures ControllerOk(hash, w')
  {
    hide StoreAfter, Part, AsOneServer, PlacedAt, Settled, Installed, Copying;
  }

  lemma StagesAt(hash: string -> nat, w: World, w': World, gid: nat, op: Op, i: nat)
    requires Inv(hash, w) && WellRouted(hash, w, Ask(gid, op)) && Answers(hash, w, gid, op)
    requires w' == Asked(hash, w, gid, op) && i < NSHARDS
    ensures StagesKept(w.groups, w'.groups, w.config.shards[i], Target(w).shards[i], i,
                       Part(hash, StoreAfter(w.served), i), Part(hash, Serve(StoreAfter(w.served), op).0, i))
  {
    hide StoreAfter, Part, AsOneServer, Placed, Serve, RightGroup, StagesKept, ControllerOk;
    var s, data := ShardOf(hash, op.key), StoreAfter(w.served);
    assert PlacedAt(hash, w, s);
    if i == s {
      AskPlaces(hash, w.groups, w.config.shards[s], Target(w).shards[s], gid, s, data, op);
    } else {
      ServePart(hash, data, op, i);
      var group := ClientCmd(w.groups[gid], s, op).0;
      OthersKept(w.groups, gid, group, s, i, w.config.shards[i], Target(w).shards[i], Part(hash, data, i));
    }
  }

  lemma OthersKept(groups: map<nat, Group>, g: nat, group: Group, s: nat, i: nat, x: nat, y: nat, part: Store)
    requires g in groups && |group.shards| == |groups[g].shards| && s < |group.shards| && i < |group.shards| && i != s
    requires group.shards == groups[g].shards[s := group.shards[s]]
    ensures StagesKept(groups, groups[g := group], x, y, i, part, part)
  {
    hide Splits;
  }

  lemma NextOk(hash: string -> nat, w: World, e: Event)
    requires Inv(hash, w) && WellRouted(hash, w, e)
    ensures Inv(hash, Next(hash, w, e))
  {
    hide StoreAfter, Part, AsOneServer, Placed, PlacedAt, Advance;
    match e {
      case Proceed => AdvanceOk(hash, w);
      case Ask(gid, op) =>
        if Answers(hash, w, gid, op) {
          AskOk(hash, w, gid, op);
        }
      case _ => QuietOk(hash, w, Next(hash, w, e).ctl);
    }
  }

  lemma {:induction false} AfterOk(hash: string -> nat, w: World, events: seq<Event>)
    requires Shaped(w) && Inv(hash, w) && RoutedFrom(hash, w, events)
    ensures Inv(hash, After(hash, w, events))
  {
    hide Inv, Next;
    if events != [] {
      var earlier, e := events[..|events| - 1], events[|events| - 1];
      forall i | 0 <= i < |earlier| ensures WellRouted(hash, After(hash, w, earlier[..i]), earlier[i]) {
        assert earlier[..i] == events[..i] && earlier[i] == events[i];
      }
      AfterOk(hash, w, earlier);
      NextOk(hash, After(hash, w, earlier), e);
    }
  }

  lemma RunOk(hash: string -> nat, cfg: Config, gids: set<nat>, events: seq<Event>)
    requires First(cfg) && Routed(hash, cfg, gids, events)
    ensures Inv(hash, Run(hash, cfg, gids, events))
  {
    BeginOk(hash, cfg, gids);
    AfterOk(hash, Begin(cfg, gids), events);
  }

  lemma BeginOk(hash: string -> nat, cfg: Config, gids: set<nat>)
    requires First(cfg)
    ensures Inv(hash, Begin(cfg, gids))
  {
    var w := Begin(cfg, gids);
    forall s: nat | s < NSHARDS ensures PlacedAt(hash, w, s) {
      assert Part(hash, map[], s) == map[];
    }
  }

  // ---------------------------------------------------------------- theorems

  /**
   Clients of the groups see one key/value server, whatever changes of configuration go on, are cut short and re-run.
   */
  lemma {:induction false} SameAsOneServer(hash: string -> nat, cfg: Config, gids: set<nat>, events: seq<Event>)
    requires First(cfg) && Routed(hash, cfg, gids, events)
    ensures AsOneServer(Run(hash, cfg, gids, events).served)
  {
    RunOk(hash, cfg, gids, events);
  }

  /**
   Whenever no change is unfinished, each group holds, for each shard, exactly that shard's part of the single server's
   store if the published configuration gives it the shard, and nothing otherwise.
   */
  lemma {:induction false} Conservation(hash: string -> nat, cfg: Config, gids: set<nat>, events: seq<Event>, g: nat,
                                        s: nat)
    requires First(cfg) && Routed(hash, cfg, gids, events) && s < NSHARDS
    requires var w := Run(hash, cfg, gids, events); !InFlight(w) && g in w.groups
    ensures var w := Run(hash, cfg, gids, events);
            w.groups[g].shards[s].kv == if g == w.config.shards[s] then Part(hash, StoreAfter(w.served), s) else map[]
  {
    RunOk(hash, cfg, gids, events);
    assert PlacedAt(hash, Run(hash, cfg, gids, events), s);
  }

  /** No key is lost: a key of the single server's store belongs to a shard whose owner exists. */
  lemma {:induction false} EveryKeyHasAHome(hash: string -> nat, cfg: Config, gids: set<nat>, events: seq<Event>,
                                            key: string)
    requires First(cfg) && Routed(hash, cfg, gids, events)
    requires var w := Run(hash, cfg, gids, events); !InFlight(w) && key in StoreAfter(w.served)
    ensures var w := Run(hash, cfg, gids, events);
            var s := ShardOf(hash, key);
            && w.config.shards[s] in w.groups
            && Has(w.groups, w.config.shards[s], s, Shard(Part(hash, StoreAfter(w.served), s), false))
            && key in Part(hash, StoreAfter(w.served), s)
            && Part(hash, StoreAfter(w.served), s)[key] == StoreAfter(w.served)[key]
  {
    RunOk(hash, cfg, gids, events);
    var w := Run(hash, cfg, gids, events);
    assert PlacedAt(hash, w, ShardOf(hash, key));
    assert key in Part(hash, StoreAfter(w.served), ShardOf(hash, key));
  }

  /**
   A controller that comes out of ChangeConfigTo or InitController has left no change unfinished: none of the early
   exits is taken halfway, its last step publishes the new configuration, and DeleteShard never panics.
   */
  lemma {:induction false} ChangeFinishes(hash: string -> nat, cfg: Config, gids: set<nat>, events: seq<Event>)
    requires First(cfg) && Routed(hash, cfg, gids, events)
    ensures var w := Run(hash, cfg, gids, events);
            && !w.panicked
            && (w.ctl.Idle? ==> !InFlight(w))
            && (w.ctl.Visit? && w.ctl.s >= NSHARDS ==> Advance(w).config == w.ctl.job.new_ && Advance(w).ctl == Idle)
  {
    RunOk(hash, cfg, gids, events);
    var w := Run(hash, cfg, gids, events);
    if w.ctl.Visit? && w.ctl.s >= NSHARDS {
      PublishOk(hash, w, w.ctl.job, w.ctl.s);
    }
  }
}
