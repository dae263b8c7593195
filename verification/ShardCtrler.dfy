/**
 ChangeConfigTo as the program has it, run to its end. Each statement is a step of the protocol in
 Migration, so the invariant of all runs holds throughout, and a controller that is not stopped publishes the new
 configuration.
 */
module ShardCtrler {
  import opened KvServer
  import opened ShardGroup
  import opened Migration

  /** Shard `s` stays, or has a group to leave and a group to go to, so no call of a clerk waits forever. */
  predicate CanMove(gids: set<nat>, old_: Config, new_: Config, s: nat)
    requires |old_.shards| == NSHARDS && |new_.shards| == NSHARDS && s < NSHARDS
  {
    var g, h := old_.shards[s], new_.shards[s];
    g == h || (g in old_.groups && g in gids && h in new_.groups && h in gids)
  }

  class ShardCtrler {
    var groups: map<nat, Group>
    var config: Config
    var configVersion: nat
    var backup: Saved
    var backupVersion: nat
    ghost var ctl: Controller
    ghost var served: seq<Answer>

    ghost function World(): World
      reads this
    {
      Migration.World(groups, config, configVersion, backup, backupVersion, ctl, served, false)
    }

    /**
     Returns false where the source would wait forever: a shard must move from or to a group that does not exist. The
     next step of the protocol then changes nothing.
     */
    method ChangeConfigTo(ghost hash: string -> nat, cfg: Config) returns (finished: bool)
      requires Inv(hash, World()) && ctl == ReadConfig(cfg) && |cfg.shards| == NSHARDS && |config.shards| == NSHARDS
      modifies this
      ensures Inv(hash, World()) && served == old(served) && groups.Keys == old(groups).Keys
      ensures finished <==>
                old(config).num >= cfg.num ||
                forall s: nat :: s < NSHARDS ==> CanMove(old(groups).Keys, old(config), cfg, s)
      ensures finished ==> ctl == Idle && config == if old(config).num >= cfg.num then old(config) else cfg
      ensures !finished ==> config == old(config) && !ctl.Idle? && Shaped(World()) && Advance(World()) == World()
    {
      hide Inv, FreezeAt, InstallAt, DeleteAt, Shaped;
      ghost var w := World();
      AdvanceOk(hash, w);
      var old_, v := config, configVersion;
      if old_.num >= cfg.num {
        ctl := Idle;
        return true;
      }
      ghost var job := Job(old_, v, cfg);
      ctl := ReadBackup(job);
      AdvanceOk(hash, World());
      var ver := backupVersion;
      ctl := WriteBackup(job, ver);
      AdvanceOk(hash, World());
      if ver == backupVersion {
        backup, backupVersion := Saved(cfg), ver + 1;
      }
      ctl := Visit(job, 0);
      for s := 0 to NSHARDS
        invariant Inv(hash, World()) && ctl == Visit(job, s) && served == old(served)
        invariant groups.Keys == old(groups).Keys && config == old_ && configVersion == v
        invariant forall i: nat :: i < s ==> CanMove(groups.Keys, old_, cfg, i)
      {
        AdvanceOk(hash, World());
        if old_.shards[s] != cfg.shards[s] {
          var moved := MoveShard(hash, old_, v, cfg, s);
          if !moved {
            return false;
          }
        } else {
          ctl := Visit(job, s + 1);
        }
      }
      Finish(hash, job);
      if v == configVersion {
        config, configVersion := cfg, v + 1;
      }
      ctl := Idle;
      return true;
    }

    /** Freezes the shard at its old group, installs what it held at the new one, and deletes it at the old. */
    method MoveShard(ghost hash: string -> nat, old_: Config, ghost v: nat, cfg: Config, s: nat) returns (moved: bool)
      requires Inv(hash, World()) && ctl == Visit(Job(old_, v, cfg), s) && s < NSHARDS
      requires |old_.shards| == NSHARDS && |cfg.shards| == NSHARDS && old_.shards[s] != cfg.shards[s]
      modifies this`groups, this`ctl
      ensures Inv(hash, World()) && groups.Keys == old(groups).Keys
      ensures moved <==> CanMove(old(groups).Keys, old_, cfg, s)
      ensures moved ==> ctl == Visit(Job(old_, v, cfg), s + 1)
      ensures !moved ==> !ctl.Idle? && Shaped(World()) && Advance(World()) == World()
    {
      hide Inv, Shaped;
      ghost var job := Job(old_, v, cfg);
      var g, h := old_.shards[s], cfg.shards[s];

      Ready(hash, World(), job, s);
      if g !in old_.groups || g !in groups {
        return false;
      }
      FreezeOk(hash, World(), job, s);
      var (group, data) := FreezeCmd(groups[g], s, cfg.num);
      groups := groups[g := group];
      if data.verdict != Done {
        assert false;
      }
      ctl := Install(job, s, data.state);

      Ready(hash, World(), job, s);
      if h !in cfg.groups || h !in groups {
        return false;
      }
      InstallStepOk(hash, World(), job, s, data.state);
      var (ngroup, err) := InstallCmd(groups[h], s, data.state, cfg.num);
      groups := groups[h := ngroup];
      if err != Done {
        assert false;
      }
      ctl := Delete(job, s);

      Ready(hash, World(), job, s);
      DeleteStepOk(hash, World(), job, s);
      groups := groups[g := DeleteCmd(groups[g], s, cfg.num).0];
      ctl := Visit(job, s + 1);
      return true;
    }

    /** No group has seen a later number, and a shard about to be deleted is frozen. */
    lemma Ready(hash: string -> nat, w: World, job: Job, s: nat)
      requires Inv(hash, w) && s < NSHARDS
      requires w.ctl == Visit(job, s) || w.ctl == Delete(job, s) || (w.ctl.Install? && w.ctl.job == job && w.ctl.s == s)
      ensures JobShaped(job) && Shaped(w)
      ensures forall g :: g in w.groups ==> w.groups[g].maxNum <= job.new_.num && |w.groups[g].shards| == NSHARDS
      ensures w.ctl == Delete(job, s) && job.old_.shards[s] in w.groups ==>
                w.groups[job.old_.shards[s]].shards[s].frozen
    {
    }

    lemma Finish(hash: string -> nat, job: Job)
      requires Inv(hash, World()) && ctl == Visit(job, NSHARDS)
      ensures Shaped(World()) && Inv(hash, Publish(World(), job)) && Publish(World(), job).config == job.new_
    {
      PublishOk(hash, World(), job, NSHARDS);
    }
  }
}
