/** The shard configuration and the operations that change it in place. */
module ShardConfig {
  import opened Balance
  import opened Rebalancing

  datatype Outcome = Changed | Refused | Fatal

  /** The members of a set in ascending order: the keys of the Groups map, collected and sorted. */
  function Ascending(keys: set<int>): (r: seq<int>)
    ensures forall g :: g in r <==> g in keys
    ensures forall i, j :: 0 <= i < j < |r| ==> r[i] < r[j]
  {
    if keys == {} then []
    else
      HasLeast(keys);
      var m :| IsLeast(keys, m);
      [m] + Ascending(keys - {m})
  }

  lemma Pick<T>(s: set<T>) returns (x: T)
    requires s != {}
    ensures x in s
  {
    x :| x in s;
  }

  lemma {:induction false} HasLeast(keys: set<int>)
    requires keys != {}
    ensures exists m :: IsLeast(keys, m)
  {
    var a := Pick(keys);
    var rest := keys - {a};
    assert forall x :: x in keys ==> x in rest || x == a;
    if rest == {} {
      assert IsLeast(keys, a);
    } else {
      HasLeast(rest);
      var m :| IsLeast(rest, m);
      assert IsLeast(keys, if a < m then a else m);
    }
  }

  predicate IsLeast(keys: set<int>, m: int) {
    m in keys && forall x :: x in keys ==> m <= x
  }

  function Lookup(counts: map<int, int>, g: int): int {
    if g in counts then counts[g] else 0
  }

  /** What Rebalance makes of an assignment. */
  function Rebalanced(shards: seq<int>, keys: set<int>): (r: seq<int>)
    ensures |r| == |shards|
  {
    var gs := Ascending(keys);
    if keys == {} then seq(|shards|, _ => 0) else Settle(Adopt(shards, gs, 0), gs)
  }

  /**
   With groups to serve them, Rebalance leaves every shard in a member group and the loads within one of each other.
   */
  lemma RebalancedIsBalanced(shards: seq<int>, keys: set<int>)
    requires keys != {}
    ensures Assigned(Rebalanced(shards, keys), Ascending(keys))
    ensures Balanced(Rebalanced(shards, keys), Ascending(keys))
  {
    var gs := Ascending(keys);
    AdoptAssigns(shards, gs, 0);
    SettleBalances(Adopt(shards, gs, 0), gs);
  }

  /** A configuration that every group serves evenly, as CheckConfig demands. */
  predicate Sound(shards: seq<int>, keys: set<int>) {
    Assigned(shards, Ascending(keys)) && Balanced(shards, Ascending(keys))
  }

  lemma RebalancedIsSound(shards: seq<int>, keys: set<int>)
    requires keys != {}
    ensures Sound(Rebalanced(shards, keys), keys)
  {
    hide Ascending, Rebalanced;
    RebalancedIsBalanced(shards, keys);
  }

  /** Rebalancing a sound assignment for some of its groups only moves the shards of the others. */
  lemma RemainingStay(shards: seq<int>, before: set<int>, keys: set<int>)
    requires Sound(shards, before) && keys != {} && keys <= before
    ensures forall s :: 0 <= s < |shards| && shards[s] in keys ==> Rebalanced(shards, keys)[s] == shards[s]
    ensures forall s :: 0 <= s < |shards| ==> shards[s] in before
  {
    hide Adopt, Settle, Count;
    LeaveIsLocal(shards, Ascending(before), Ascending(keys));
  }

  class ShardConfig {
    var num: int
    var shards: array<int>
    var groups: map<int, seq<string>>

    /** analyze starts its minimum at 257, so it is right for fewer than 257 shards; the source has 12. */
    ghost predicate Valid()
      reads this
    {
      shards.Length < 257
    }

    constructor (n: nat)
      requires n < 257
      ensures Valid() && num == 0 && groups == map[] && fresh(shards) && shards[..] == seq(n, _ => 0)
    {
      num, groups := 0, map[];
      shards := new int[n](_ => 0);
    }

    /** The shard counts analyze takes first. */
    method Tally() returns (counts: map<int, int>)
      ensures forall g :: Lookup(counts, g) == Count(shards[..], g)
    {
      counts := map[];
      for s := 0 to shards.Length
        invariant forall g :: Lookup(counts, g) == Count(shards[..s], g)
      {
        counts := counts[shards[s] := Lookup(counts, shards[s]) + 1];
        assert shards[..s + 1][..s] == shards[..s];
      }
      assert shards[..shards.Length] == shards[..];
    }

    /** The fullest group with its load and the emptiest with its; ties go to the lowest identifier. */
    method Analyze() returns (mg: int, mn: int, lg: int, ln: int)
      requires Valid()
      ensures groups.Keys == {} ==> mg == -1 && mn == -1 && lg == -1 && ln == 257
      ensures groups.Keys != {} ==>
                var gs := Ascending(groups.Keys);
                var c := Loads(shards[..], gs);
                && mg == gs[Fullest(c)] && mn == c[Fullest(c)]
                && lg == gs[Emptiest(c)] && ln == c[Emptiest(c)]
    {
      hide Ascending, Count, Fullest, Emptiest;
      var counts := Tally();
      var gs := Ascending(groups.Keys);
      mg, mn, lg, ln := Extremes(gs, counts, Loads(shards[..], gs));
    }

    /** The scan over the sorted groups, given their loads. */
    static method Extremes(gs: seq<int>, counts: map<int, int>, ghost c: seq<int>)
      returns (mg: int, mn: int, lg: int, ln: int)
      requires |c| == |gs| && forall k :: 0 <= k < |gs| ==> Lookup(counts, gs[k]) == c[k] && 0 <= c[k] < 257
      ensures gs == [] ==> mg == -1 && mn == -1 && lg == -1 && ln == 257
      ensures gs != [] ==> mg == gs[Fullest(c)] && mn == c[Fullest(c)] && lg == gs[Emptiest(c)] && ln == c[Emptiest(c)]
    {
      hide Fullest, Emptiest;
      mn, mg, ln, lg := -1, -1, 257, -1;
      for k := 0 to |gs|
        invariant k == 0 ==> mn == -1 && mg == -1 && ln == 257 && lg == -1
        invariant k > 0 ==> mg == gs[Fullest(c[..k])] && mn == c[Fullest(c[..k])]
        invariant k > 0 ==> lg == gs[Emptiest(c[..k])] && ln == c[Emptiest(c[..k])]
      {
        var load := Lookup(counts, gs[k]);
        OneMore(c, k);
        if load < ln { ln, lg := load, gs[k]; }
        if load > mn { mn, mg := load, gs[k]; }
      }
      assert c[..|gs|] == c;
    }

    /** How the places change when one more load is looked at. */
    static lemma OneMore(c: seq<int>, k: nat)
      requires k < |c|
      ensures k == 0 ==> Fullest(c[..k + 1]) == 0 && Emptiest(c[..k + 1]) == 0
      ensures k > 0 ==> Fullest(c[..k + 1]) == if c[k] > c[Fullest(c[..k])] then k else Fullest(c[..k])
      ensures k > 0 ==> Emptiest(c[..k + 1]) == if c[k] < c[Emptiest(c[..k])] then k else Emptiest(c[..k])
    {
      assert c[..k + 1][..k] == c[..k];
    }

    method Least() returns (lg: int)
      requires Valid() && groups.Keys != {}
      ensures var gs := Ascending(groups.Keys); lg == gs[Emptiest(Loads(shards[..], gs))]
    {
      var _, _, g, _ := Analyze();
      lg := g;
    }

    /** The loop of Rebalance that assigns the shards of no member group. */
    method AdoptOrphans()
      requires Valid() && groups.Keys != {}
      modifies shards
      ensures shards[..] == Adopt(old(shards[..]), Ascending(groups.Keys), 0)
    {
      hide Ascending, Emptiest, Loads;
      ghost var gs := Ascending(groups.Keys);
      for s := 0 to shards.Length
        invariant Adopt(shards[..], gs, s) == Adopt(old(shards[..]), gs, 0)
      {
        if shards[s] !in groups {
          var lg := Least();
          ghost var before := shards[..];
          shards[s] := lg;
          assert shards[..] == before[s := lg];
        }
      }
    }

    /** The inner loop of Rebalance: one shard from the fullest group to the emptiest. */
    method MoveOne(mg: int, lg: int)
      requires Count(shards[..], mg) > 0
      modifies shards
      ensures shards[..] == old(shards[..])[FirstOf(old(shards[..]), mg) := lg]
    {
      hide Count, FirstOf;
      ghost var at := FirstOf(shards[..], mg);
      for s := 0 to shards.Length
        invariant s <= at && shards[..] == old(shards[..])
      {
        if shards[s] == mg {
          shards[s] := lg;
          assert s == at;
          return;
        }
      }
    }

    /** The move loop of Rebalance. */
    method Level()
      requires Valid() && groups.Keys != {}
      modifies shards
      ensures shards[..] == Settle(old(shards[..]), Ascending(groups.Keys))
    {
      hide Ascending, Fullest, Emptiest, FirstOf, Count, Squares;
      ghost var gs := Ascending(groups.Keys);
      while true
        invariant Settle(shards[..], gs) == Settle(old(shards[..]), gs)
        decreases Squares(Loads(shards[..], gs))
      {
        var mg, mn, lg, ln := Analyze();
        if mn < ln + 2 {
          break;
        }
        ghost var before := shards[..];
        MoveLoads(before, gs);
        MoveOne(mg, lg);
        assert shards[..] == Move(before, gs);
      }
    }

    method Rebalance()
      requires Valid()
      modifies shards
      ensures shards[..] == Rebalanced(old(shards[..]), groups.Keys)
    {
      hide Ascending, Adopt, Settle;
      if |groups| < 1 {
        for s := 0 to shards.Length
          invariant forall k :: 0 <= k < s ==> shards[k] == 0
        {
          shards[s] := 0;
        }
        return;
      }
      AdoptOrphans();
      Level();
    }

    /** Join adds every new group, or stops at the first that is already there; a shared server ends the process. */
    method Join(order: seq<int>, servers: map<int, seq<string>>) returns (r: Outcome)
      requires Distinct(order) && forall g :: g in order <==> g in servers   // any order in which Go visits the map
      modifies `groups, `num
      ensures r == Changed ==> order != [] && (forall g :: g in servers ==> g !in old(groups))
      ensures r == Changed ==> num == old(num) + 1 && Extends(servers, groups, old(groups))
      ensures r == Refused ==> exists g :: g in servers && g in old(groups)
      ensures r == Fatal ==> order == [] || exists g :: g in servers && g !in groups && Shares(groups, servers[g])
      ensures Extends(old(groups), groups, servers) && (r != Changed ==> num == old(num))
    {
      var k := 0;
      while k < |order|
        invariant k <= |order| && num == old(num) && Extends(old(groups), groups, servers)
        invariant forall g :: g in groups <==> g in old(groups) || g in order[..k]
        invariant forall i :: 0 <= i < k ==> order[i] !in old(groups)
      {
        var gid := order[k];
        if gid in groups {
          return Refused;
        }
        if Shares(groups, servers[gid]) {
          return Fatal;
        }
        groups := groups[gid := servers[gid]];
        assert order[..k + 1] == order[..k] + [gid];
        k := k + 1;
      }
      assert order[..|order|] == order;
      if order == [] {
        return Fatal;
      }
      num := num + 1;
      return Changed;
    }

    /** Leave removes the groups one by one, and stops at the first that is not there. */
    method Leave(gids: seq<int>) returns (r: Outcome)
      modifies `groups, `num
      ensures r == Changed <==> gids != [] && Distinct(gids) && forall g :: g in gids ==> g in old(groups)
      ensures r == Changed ==> groups == old(groups) - (set g | g in gids) && num == old(num) + 1
      ensures r == Refused ==>
                && num == old(num)
                && exists k :: 0 <= k < |gids| && groups == old(groups) - (set g | g in gids[..k]) && gids[k] !in groups
      ensures r == Fatal ==> gids == [] && groups == old(groups) && num == old(num)
    {
      var changed := false;
      for k := 0 to |gids|
        invariant groups == old(groups) - (set g | g in gids[..k]) && num == old(num)
        invariant Distinct(gids[..k]) && forall i :: 0 <= i < k ==> gids[i] in old(groups)
        invariant changed <==> k > 0
      {
        if gids[k] !in groups {
          if gids[k] in old(groups) {
            var i :| 0 <= i < k && gids[..k][i] == gids[k];
          }
          assert gids[k] in gids;
          return Refused;
        }
        groups := groups - {gids[k]};
        changed := true;
        assert gids[..k + 1] == gids[..k] + [gids[k]];
      }
      assert gids[..|gids|] == gids;
      if !changed {
        return Fatal;
      }
      num := num + 1;
      return Changed;
    }

    /** Joining and rebalancing a sound configuration moves shards only to the joining groups, and leaves it sound. */
    method JoinBalance(order: seq<int>, servers: map<int, seq<string>>) returns (r: Outcome)
      requires Valid() && Distinct(order) && forall g :: g in order <==> g in servers
      modifies `groups, `num, shards
      ensures r == Changed ==>
                && Extends(old(groups), groups, servers) && Extends(servers, groups, old(groups))
                     && Sound(shards[..], groups.Keys)
                && (Sound(old(shards[..]), old(groups.Keys)) ==>
                      forall s :: 0 <= s < shards.Length && shards[s] != old(shards[s]) ==> shards[s] in servers)
      ensures r != Changed ==> shards[..] == old(shards[..])
    {
      r := Join(order, servers);
      if r == Changed {
        assert order[0] in order && order[0] in servers && order[0] in groups;
        Rebalance();
        RebalancedIsBalanced(old(shards[..]), groups.Keys);
        if Sound(old(shards[..]), old(groups.Keys)) {
          JoinIsLocal(old(shards[..]), Ascending(old(groups.Keys)), Ascending(groups.Keys), servers.Keys);
        }
      }
    }

    /** Leaving and rebalancing, with groups left, moves only the shards of the leaving groups. */
    method LeaveBalance(gids: seq<int>) returns (r: Outcome)
      requires Valid()
      modifies `groups, `num, shards
      ensures r == Changed && groups.Keys != {} ==>
                && groups == old(groups) - (set g | g in gids) && Sound(shards[..], groups.Keys)
                && (Sound(old(shards[..]), old(groups.Keys)) ==>
                      forall s :: 0 <= s < shards.Length && old(shards[s]) !in gids ==> shards[s] == old(shards[s]))
      ensures r == Changed && groups.Keys == {} ==> forall s :: 0 <= s < shards.Length ==> shards[s] == 0
      ensures r != Changed ==> shards[..] == old(shards[..])
    {
      hide Ascending, Sound;
      r := Leave(gids);
      if r == Changed {
        Rebalance();
        if groups.Keys != {} {
          RebalancedIsSound(old(shards[..]), groups.Keys);
          if Sound(old(shards[..]), old(groups.Keys)) {
            RemainingStay(old(shards[..]), old(groups.Keys), groups.Keys);
          }
        }
      }
    }
  }

  /** `later` has the groups of `groups` as they were, and besides only groups of `servers`. */
  predicate Extends(groups: map<int, seq<string>>, later: map<int, seq<string>>, servers: map<int, seq<string>>) {
    && (forall g :: g in groups ==> g in later && later[g] == groups[g])
    && (forall g :: g in later && g !in groups ==> g in servers && later[g] == servers[g])
  }

  /** Some group already has one of the servers. */
  predicate Shares(groups: map<int, seq<string>>, servers: seq<string>) {
    exists g, s :: g in groups && s in groups[g] && s in servers
  }
}
