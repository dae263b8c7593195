/**
 The balancer as functions on assignments, and what it promises: it ends balanced, it moves as few shards as any
 balanced assignment would need, and joining or leaving groups only touches the shards it must.
 */
module Rebalancing {
  import opened Balance

  // ---------------------------------------------------------------- the fullest and the emptiest group

  /** The first place with the smallest load. */
  function Emptiest(c: seq<int>): (r: nat)
    requires c != []
    ensures r < |c| && (forall k :: 0 <= k < |c| ==> c[r] <= c[k]) && (forall k :: 0 <= k < r ==> c[r] < c[k])
  {
    var n := |c| - 1;
    if n == 0 then 0 else
    var k := Emptiest(c[..n]);
    assert forall i :: 0 <= i < n ==> c[..n][i] == c[i];
    if c[n] < c[k] then n else k
  }

  /** The first place with the largest load. */
  function Fullest(c: seq<int>): (r: nat)
    requires c != []
    ensures r < |c| && (forall k :: 0 <= k < |c| ==> c[k] <= c[r]) && (forall k :: 0 <= k < r ==> c[k] < c[r])
  {
    var n := |c| - 1;
    if n == 0 then 0 else
    var k := Fullest(c[..n]);
    assert forall i :: 0 <= i < n ==> c[..n][i] == c[i];
    if c[n] > c[k] then n else k
  }

  /** The first shard of a group that has one. */
  function FirstOf(shards: seq<int>, g: int): (r: nat)
    requires Count(shards, g) > 0
    ensures r < |shards| && shards[r] == g && forall k :: 0 <= k < r ==> shards[k] != g
  {
    var n := |shards| - 1;
    if Count(shards[..n], g) > 0 then FirstOf(shards[..n], g)
    else
      CountNone(shards[..n], g);
      n
  }

  lemma {:induction false} CountNone(shards: seq<int>, g: int)
    ensures Count(shards, g) == 0 ==> forall k :: 0 <= k < |shards| ==> shards[k] != g
  {
    if shards != [] {
      CountNone(shards[..|shards| - 1], g);
      assert forall k :: 0 <= k < |shards| - 1 ==> shards[..|shards| - 1][k] == shards[k];
    }
  }

  // ---------------------------------------------------------------- the two loops of Rebalance

  /** Give every shard from `s` on that no member group owns to the group then emptiest. */
  function Adopt(shards: seq<int>, gs: seq<int>, s: nat): (r: seq<int>)
    requires gs != [] && s <= |shards|
    ensures |r| == |shards|
    decreases |shards| - s
  {
    if s == |shards| then shards
    else if shards[s] in gs then Adopt(shards, gs, s + 1)
    else Adopt(shards[s := gs[Emptiest(Loads(shards, gs))]], gs, s + 1)
  }

  predicate Lopsided(shards: seq<int>, gs: seq<int>)
    requires gs != []
  {
    var c := Loads(shards, gs);
    c[Fullest(c)] >= c[Emptiest(c)] + 2
  }

  /** One move: the first shard of the fullest group goes to the emptiest. */
  function Move(shards: seq<int>, gs: seq<int>): (r: seq<int>)
    requires gs != [] && Lopsided(shards, gs)
    ensures |r| == |shards|
  {
    var c := Loads(shards, gs);
    shards[FirstOf(shards, gs[Fullest(c)]) := gs[Emptiest(c)]]
  }

  lemma MoveLoads(shards: seq<int>, gs: seq<int>)
    requires gs != [] && Distinct(gs) && Lopsided(shards, gs)
    ensures var c := Loads(shards, gs);
            var i, j := Fullest(c), Emptiest(c);
            Loads(Move(shards, gs), gs) == c[i := c[i] - 1][j := c[j] + 1]
    ensures Squares(Loads(Move(shards, gs), gs)) < Squares(Loads(shards, gs))
  {
    hide Fullest, Emptiest, FirstOf;
    var c := Loads(shards, gs);
    var i, j := Fullest(c), Emptiest(c);
    var s := FirstOf(shards, gs[i]);
    forall k | 0 <= k < |gs| ensures Loads(Move(shards, gs), gs)[k] == c[i := c[i] - 1][j := c[j] + 1][k] {
      CountUpdate(shards, s, gs[j], gs[k]);
    }
    assert Loads(Move(shards, gs), gs) == c[i := c[i] - 1][j := c[j] + 1];
    SquaresFall(c, i, j);
  }

  /** The move loop: the sum of the squared loads falls with every move. */
  function Settle(shards: seq<int>, gs: seq<int>): (r: seq<int>)
    requires gs != [] && Distinct(gs)
    ensures |r| == |shards|
    decreases Squares(Loads(shards, gs))
  {
    if Lopsided(shards, gs) then
      MoveLoads(shards, gs);
      Settle(Move(shards, gs), gs)
    else shards
  }

  /** How many moves the loop makes. */
  function Moves(shards: seq<int>, gs: seq<int>): nat
    requires gs != [] && Distinct(gs)
    decreases Squares(Loads(shards, gs))
  {
    if Lopsided(shards, gs) then
      MoveLoads(shards, gs);
      1 + Moves(Move(shards, gs), gs)
    else 0
  }

  // ---------------------------------------------------------------- the result is balanced

  lemma MoveAssigned(shards: seq<int>, gs: seq<int>)
    requires gs != [] && Distinct(gs) && Lopsided(shards, gs) && Assigned(shards, gs)
    ensures Assigned(Move(shards, gs), gs)
  {
  }

  lemma EvenLoads(shards: seq<int>, gs: seq<int>)
    requires gs != []
    ensures Even(Loads(shards, gs)) <==> !Lopsided(shards, gs)
    ensures Balanced(shards, gs) <==> !Lopsided(shards, gs)
  {
    var c := Loads(shards, gs);
    if !Lopsided(shards, gs) {
      forall g, h | g in gs && h in gs ensures Count(shards, g) <= Count(shards, h) + 1 {
        var i :| 0 <= i < |gs| && gs[i] == g;
        var j :| 0 <= j < |gs| && gs[j] == h;
        assert c[i] <= c[Fullest(c)] && c[Emptiest(c)] <= c[j];
      }
    } else {
      assert c[Fullest(c)] == Count(shards, gs[Fullest(c)]) && c[Emptiest(c)] == Count(shards, gs[Emptiest(c)]);
    }
  }

  /** The loop ends with every shard in a member group and loads that differ by at most one. */
  lemma {:induction false} SettleBalances(shards: seq<int>, gs: seq<int>)
    requires gs != [] && Distinct(gs) && Assigned(shards, gs)
    ensures Assigned(Settle(shards, gs), gs) && Balanced(Settle(shards, gs), gs)
    decreases Squares(Loads(shards, gs))
  {
    if Lopsided(shards, gs) {
      MoveLoads(shards, gs);
      MoveAssigned(shards, gs);
      SettleBalances(Move(shards, gs), gs);
    } else {
      EvenLoads(shards, gs);
    }
  }

  /** The first loop leaves every shard in a member group, and those that were in one where they were. */
  lemma {:induction false} AdoptAssigns(shards: seq<int>, gs: seq<int>, s: nat)
    requires gs != [] && s <= |shards| && forall k :: 0 <= k < s ==> shards[k] in gs
    ensures Assigned(Adopt(shards, gs, s), gs)
    ensures forall k :: 0 <= k < |shards| && shards[k] in gs ==> Adopt(shards, gs, s)[k] == shards[k]
    decreases |shards| - s
  {
    if s < |shards| {
      AdoptAssigns(if shards[s] in gs then shards else shards[s := gs[Emptiest(Loads(shards, gs))]], gs, s + 1);
    }
  }

  // ---------------------------------------------------------------- the result moves as few shards as possible

  /** No even distribution of the same shards can be reached with fewer moves. */
  lemma {:induction false} MovesMinimal(shards: seq<int>, gs: seq<int>, t: seq<int>)
    requires gs != [] && Distinct(gs) && Assigned(shards, gs) && |t| == |gs| && Even(t) && Sum(t) == |shards|
    ensures Moves(shards, gs) <= Excess(Loads(shards, gs), t)
    decreases Squares(Loads(shards, gs))
  {
    hide Fullest, Emptiest, FirstOf, Even, Sum, Assigned, Excess, Count;
    if Lopsided(shards, gs) {
      var c := Loads(shards, gs);
      LoadsTotal(shards, gs);
      MoveLoads(shards, gs);
      MoveAssigned(shards, gs);
      var t' := MoveSaves(c, t, Fullest(c), Emptiest(c));
      MovesMinimal(Move(shards, gs), gs, t');
    }
  }

  lemma {:induction false} DistanceUpdate(a: seq<int>, b: seq<int>, s: nat, x: int)
    requires |a| == |b| && s < |a|
    ensures Distance(a, b) <= Distance(a[s := x], b) + 1
  {
    var n := |a| - 1;
    if s == n {
      assert a[s := x][..n] == a[..n];
    } else {
      assert a[s := x][..n] == a[..n][s := x];
      DistanceUpdate(a[..n], b[..n], s, x);
    }
  }

  lemma {:induction false} DistanceSelf(a: seq<int>)
    ensures Distance(a, a) == 0
  {
    if a != [] { DistanceSelf(a[..|a| - 1]); }
  }

  lemma {:induction false} SettleMoves(shards: seq<int>, gs: seq<int>)
    requires gs != [] && Distinct(gs)
    ensures Distance(shards, Settle(shards, gs)) <= Moves(shards, gs)
    decreases Squares(Loads(shards, gs))
  {
    if Lopsided(shards, gs) {
      MoveLoads(shards, gs);
      SettleMoves(Move(shards, gs), gs);
      var c := Loads(shards, gs);
      DistanceUpdate(shards, Settle(shards, gs), FirstOf(shards, gs[Fullest(c)]), gs[Emptiest(c)]);
    } else {
      DistanceSelf(shards);
    }
  }

  /**
   Balancing moves the fewest shards: the result differs from the start on no more shards than any other balanced
   assignment to the same groups, and on exactly as many as there were moves, so no shard moves twice.
   */
  lemma {:induction false} FewestMoves(shards: seq<int>, gs: seq<int>, other: seq<int>)
    requires gs != [] && Distinct(gs) && Assigned(shards, gs)
    requires |other| == |shards| && Assigned(other, gs) && Balanced(other, gs)
    ensures Distance(shards, Settle(shards, gs)) <= Distance(shards, other)
    ensures Distance(shards, Settle(shards, gs)) == Moves(shards, gs)
  {
    SettleMoves(shards, gs);
    SettleBalances(shards, gs);
    AtLeastMoves(shards, gs, other);
    AtLeastMoves(shards, gs, Settle(shards, gs));
  }

  lemma {:induction false} AtLeastMoves(shards: seq<int>, gs: seq<int>, other: seq<int>)
    requires gs != [] && Distinct(gs) && Assigned(shards, gs)
    requires |other| == |shards| && Assigned(other, gs) && Balanced(other, gs)
    ensures Moves(shards, gs) <= Distance(shards, other)
  {
    EvenLoads(other, gs);
    LoadsTotal(other, gs);
    MovesMinimal(shards, gs, Loads(other, gs));
    DistanceCoversExcess(shards, other, gs);
  }

  /** In the moves from here on, no group of `received`, nor one that has received meanwhile, gives a shard away. */
  ghost predicate NoneGives(shards: seq<int>, gs: seq<int>, received: set<int>)
    requires gs != [] && Distinct(gs)
    decreases Squares(Loads(shards, gs))
  {
    Lopsided(shards, gs) ==>
      (MoveLoads(shards, gs);
       var c := Loads(shards, gs);
       gs[Fullest(c)] !in received && NoneGives(Move(shards, gs), gs, received + {gs[Emptiest(c)]}))
  }

  lemma {:induction false} ReceiversKeep(shards: seq<int>, gs: seq<int>, received: set<int>)
    requires gs != [] && Distinct(gs)
    requires forall i :: 0 <= i < |gs| && gs[i] in received ==>
               Loads(shards, gs)[i] <= Loads(shards, gs)[Emptiest(Loads(shards, gs))] + 1
    ensures NoneGives(shards, gs, received)
    decreases Squares(Loads(shards, gs))
  {
    if Lopsided(shards, gs) {
      MoveLoads(shards, gs);
      ReceiversKeep(Move(shards, gs), gs, received + {gs[Emptiest(Loads(shards, gs))]});
    }
  }

  /** A group that receives a shard never gives one away. */
  lemma ReceiverNeverGives(shards: seq<int>, gs: seq<int>)
    requires gs != [] && Distinct(gs)
    ensures NoneGives(shards, gs, {})
  {
    ReceiversKeep(shards, gs, {});
  }

  // ---------------------------------------------------------------- joining and leaving are local

  /** The old groups are even, the new groups are even, and no new group has much more than an old one. */
  predicate Joining(shards: seq<int>, gs: seq<int>, joiners: set<int>) {
    forall i, j :: 0 <= i < |gs| && 0 <= j < |gs| && (gs[i] !in joiners ==> gs[j] !in joiners) ==>
      Loads(shards, gs)[i] <= Loads(shards, gs)[j] + 1
  }

  lemma {:induction false} JoinMoves(shards: seq<int>, gs: seq<int>, joiners: set<int>)
    requires gs != [] && Distinct(gs) && Joining(shards, gs, joiners)
    ensures forall s :: 0 <= s < |shards| ==> Settle(shards, gs)[s] == shards[s] || Settle(shards, gs)[s] in joiners
    decreases Squares(Loads(shards, gs))
  {
    hide Fullest, Emptiest, FirstOf;
    if Lopsided(shards, gs) {
      MoveLoads(shards, gs);
      var c := Loads(shards, gs);
      var i, j := Fullest(c), Emptiest(c);
      assert gs[i] !in joiners && gs[j] in joiners;
      JoinMoves(Move(shards, gs), gs, joiners);
    }
  }

  lemma {:induction false} AdoptNothing(shards: seq<int>, gs: seq<int>, s: nat)
    requires gs != [] && s <= |shards| && Assigned(shards, gs)
    ensures Adopt(shards, gs, s) == shards
    decreases |shards| - s
  {
    if s < |shards| { AdoptNothing(shards, gs, s + 1); }
  }

  lemma {:induction false} CountAbsent(shards: seq<int>, g: int)
    requires g !in shards
    ensures Count(shards, g) == 0
  {
    if shards != [] { CountAbsent(shards[..|shards| - 1], g); }
  }

  /** From a fully assigned, balanced assignment, adding groups moves shards only to the groups added. */
  lemma {:induction false} JoinIsLocal(shards: seq<int>, before: seq<int>, gs: seq<int>, joiners: set<int>)
    requires gs != [] && Distinct(gs) && Assigned(shards, before) && Balanced(shards, before)
    requires forall g :: g in gs <==> g in before || g in joiners
    requires forall g :: g in before ==> g !in joiners
    ensures var r := Settle(Adopt(shards, gs, 0), gs);
            forall s :: 0 <= s < |shards| && r[s] != shards[s] ==> r[s] in joiners
  {
    hide Adopt, Settle, Count;
    StillAssigned(shards, before, gs);
    AdoptNothing(shards, gs, 0);
    JoinersAreEmpty(shards, before, gs, joiners);
    JoinMoves(shards, gs, joiners);
  }

  lemma StillAssigned(shards: seq<int>, before: seq<int>, gs: seq<int>)
    requires Assigned(shards, before) && forall g :: g in before ==> g in gs
    ensures Assigned(shards, gs)
  {
    forall s | 0 <= s < |shards| ensures shards[s] in gs {
      var g := shards[s];
      assert g in before;
    }
  }

  lemma JoinersAreEmpty(shards: seq<int>, before: seq<int>, gs: seq<int>, joiners: set<int>)
    requires Assigned(shards, before) && Balanced(shards, before)
    requires forall g :: g in gs <==> g in before || g in joiners
    requires forall g :: g in before ==> g !in joiners
    ensures Joining(shards, gs, joiners)
  {
    hide Count;
    forall i | 0 <= i < |gs| && gs[i] in joiners ensures Count(shards, gs[i]) == 0 {
      CountAbsent(shards, gs[i]);
    }
    forall i, j | 0 <= i < |gs| && 0 <= j < |gs| && (gs[i] !in joiners ==> gs[j] !in joiners)
      ensures Loads(shards, gs)[i] <= Loads(shards, gs)[j] + 1
    {
      assert gs[i] in gs && gs[j] in gs;
    }
  }

  /** Giving a shard to the emptiest of even groups keeps them even. */
  lemma {:induction false} AdoptKeepsEven(shards: seq<int>, gs: seq<int>, s: nat)
    requires gs != [] && Distinct(gs) && s <= |shards| && !Lopsided(shards, gs)
    ensures !Lopsided(Adopt(shards, gs, s), gs)
    decreases |shards| - s
  {
    if s < |shards| && shards[s] !in gs {
      var c := Loads(shards, gs);
      var j := Emptiest(c);
      var next := shards[s := gs[j]];
      forall k | 0 <= k < |gs| ensures Loads(next, gs)[k] == c[j := c[j] + 1][k] {
        CountUpdate(shards, s, gs[j], gs[k]);
      }
      AdoptKeepsEven(next, gs, s + 1);
    } else if s < |shards| {
      AdoptKeepsEven(shards, gs, s + 1);
    }
  }

  /** From a balanced assignment, removing groups, with some left, moves only the shards of the groups removed. */
  lemma {:induction false} LeaveIsLocal(shards: seq<int>, before: seq<int>, gs: seq<int>)
    requires gs != [] && Distinct(gs) && Balanced(shards, before) && (forall g :: g in gs ==> g in before)
    ensures var r := Settle(Adopt(shards, gs, 0), gs);
            forall s :: 0 <= s < |shards| && shards[s] in gs ==> r[s] == shards[s]
  {
    EvenLoads(shards, gs);
    AdoptKeepsEven(shards, gs, 0);
    AdoptAssigns(shards, gs, 0);
  }
}
