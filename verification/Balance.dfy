/**
 Assignments of shards to groups as values: how many shards each group has, what it takes to balance an assignment,
 and why greedy moves from the fullest to the emptiest group move as few shards as possible.
 */
module Balance {

  /** How many shards group `g` has. */
  function Count(shards: seq<int>, g: int): (r: nat)
    ensures r <= |shards|
  {
    if shards == [] then 0
    else Count(shards[..|shards| - 1], g) + if shards[|shards| - 1] == g then 1 else 0
  }

  predicate Distinct(gs: seq<int>) {
    forall i, j :: 0 <= i < j < |gs| ==> gs[i] != gs[j]
  }

  /** Every shard belongs to a member group. */
  predicate Assigned(shards: seq<int>, gs: seq<int>) {
    forall s :: 0 <= s < |shards| ==> shards[s] in gs
  }

  /** The loads of the groups differ by at most one. */
  predicate Balanced(shards: seq<int>, gs: seq<int>) {
    forall g, h :: g in gs && h in gs ==> Count(shards, g) <= Count(shards, h) + 1
  }

  /** On how many shards two assignments differ. */
  function Distance(a: seq<int>, b: seq<int>): nat
    requires |a| == |b|
  {
    if a == [] then 0
    else Distance(a[..|a| - 1], b[..|b| - 1]) + if a[|a| - 1] != b[|b| - 1] then 1 else 0
  }

  lemma {:induction false} CountUpdate(shards: seq<int>, s: nat, x: int, g: int)
    requires s < |shards|
    ensures Count(shards[s := x], g) == Count(shards, g) - (if shards[s] == g then 1 else 0) + (if x == g then 1 else 0)
  {
    var n := |shards| - 1;
    if s == n {
      assert shards[s := x][..n] == shards[..n];
    } else {
      assert shards[s := x][..n] == shards[..n][s := x];
      CountUpdate(shards[..n], s, x, g);
    }
  }

  // ---------------------------------------------------------------- vectors of loads

  function Loads(shards: seq<int>, gs: seq<int>): seq<int> {
    seq(|gs|, i requires 0 <= i < |gs| => Count(shards, gs[i]))
  }

  function Sum(c: seq<int>): int {
    if c == [] then 0 else Sum(c[..|c| - 1]) + c[|c| - 1]
  }

  function Over(x: int, y: int): nat {
    if x > y then x - y else 0
  }

  /** How far the loads `c` exceed the loads `t`: at least so many shards must leave their group. */
  function Excess(c: seq<int>, t: seq<int>): nat
    requires |c| == |t|
  {
    if c == [] then 0 else Excess(c[..|c| - 1], t[..|t| - 1]) + Over(c[|c| - 1], t[|t| - 1])
  }

  /** The sum of the squares of the loads, which every greedy move lowers. */
  function Squares(c: seq<int>): nat {
    if c == [] then 0 else Squares(c[..|c| - 1]) + Square(c[|c| - 1])
  }

  function Square(x: int): nat {
    x * x
  }

  predicate Even(t: seq<int>) {
    forall i, j :: 0 <= i < |t| && 0 <= j < |t| ==> t[i] <= t[j] + 1
  }

  lemma {:induction false} SumUpdate(c: seq<int>, i: nat, x: int)
    requires i < |c|
    ensures Sum(c[i := x]) == Sum(c) - c[i] + x
  {
    var n := |c| - 1;
    if i == n {
      assert c[i := x][..n] == c[..n];
    } else {
      assert c[i := x][..n] == c[..n][i := x];
      SumUpdate(c[..n], i, x);
    }
  }

  lemma {:induction false} SquaresUpdate(c: seq<int>, i: nat, x: int)
    requires i < |c|
    ensures Squares(c[i := x]) == Squares(c) - Square(c[i]) + Square(x)
  {
    var n := |c| - 1;
    if i == n {
      assert c[i := x][..n] == c[..n];
    } else {
      assert c[i := x][..n] == c[..n][i := x];
      SquaresUpdate(c[..n], i, x);
    }
  }

  lemma SquareGap(x: int, y: int)
    requires x >= y + 2
    ensures Square(x - 1) + Square(y + 1) < Square(x) + Square(y)
  {
  }

  /** Moving one from a larger load to a load smaller by at least two lowers the sum of squares. */
  lemma SquaresFall(c: seq<int>, i: nat, j: nat)
    requires i < |c| && j < |c| && c[i] >= c[j] + 2
    ensures Squares(c[i := c[i] - 1][j := c[j] + 1]) < Squares(c)
  {
    SquaresUpdate(c, i, c[i] - 1);
    SquaresUpdate(c[i := c[i] - 1], j, c[j] + 1);
    SquareGap(c[i], c[j]);
  }

  lemma {:induction false} ExcessUpdate(c: seq<int>, t: seq<int>, i: nat, x: int, y: int)
    requires |c| == |t| && i < |c|
    ensures Excess(c[i := x], t[i := y]) == Excess(c, t) - Over(c[i], t[i]) + Over(x, y)
  {
    var n := |c| - 1;
    if i == n {
      assert c[i := x][..n] == c[..n] && t[i := y][..n] == t[..n];
    } else {
      assert c[i := x][..n] == c[..n][i := x] && t[i := y][..n] == t[..n][i := y];
      ExcessUpdate(c[..n], t[..n], i, x, y);
    }
  }

  /** Loads that total the same and fall short somewhere exceed somewhere. */
  lemma {:induction false} SumDominated(c: seq<int>, t: seq<int>)
    requires |c| == |t| && forall h :: 0 <= h < |c| ==> c[h] <= t[h]
    ensures Sum(c) <= Sum(t)
    ensures Sum(c) == Sum(t) ==> c == t
  {
    if c != [] {
      SumDominated(c[..|c| - 1], t[..|t| - 1]);
      assert c[..|c| - 1] + [c[|c| - 1]] == c && t[..|t| - 1] + [t[|t| - 1]] == t;
    }
  }

  lemma ExceedsSomewhere(c: seq<int>, t: seq<int>) returns (h: nat)
    requires |c| == |t| && Sum(c) == Sum(t) && c != t
    ensures h < |c| && c[h] > t[h]
  {
    if forall k :: 0 <= k < |c| ==> c[k] <= t[k] {
      SumDominated(c, t);
    }
    h :| 0 <= h < |c| && c[h] > t[h];
  }

  lemma Same(c: seq<int>, i: nat)
    requires i < |c|
    ensures c[i := c[i]] == c
  {
  }

  /** Exchanging two entries of the target costs nothing when neither load exceeds or falls below by more than one. */
  lemma Swap(c: seq<int>, t: seq<int>, i: nat, h: nat)
    requires |c| == |t| && i < |c| && h < |c| && i != h
    requires Over(c[i], t[h]) + Over(c[h], t[i]) <= Over(c[i], t[i]) + Over(c[h], t[h])
    ensures var t' := t[i := t[h]][h := t[i]];
            Sum(t') == Sum(t) && Excess(c, t') <= Excess(c, t) && (Even(t) ==> Even(t'))
  {
    SumUpdate(t, i, t[h]);
    SumUpdate(t[i := t[h]], h, t[i]);
    Same(c, i);
    Same(c, h);
    ExcessUpdate(c, t, i, c[i], t[h]);
    ExcessUpdate(c, t[i := t[h]], h, c[h], t[i]);
  }

  /** A target, as good for `c`, that wants less at the fullest place and more at the emptiest. */
  lemma BetterTarget(c: seq<int>, t: seq<int>, i: nat, j: nat) returns (t': seq<int>)
    requires |c| == |t| && i < |c| && j < |c| && c[i] >= c[j] + 2
    requires forall k :: 0 <= k < |c| ==> c[j] <= c[k] <= c[i]
    requires Sum(c) == Sum(t) && Even(t)
    ensures |t'| == |t| && Sum(t') == Sum(t) && Even(t') && Excess(c, t') <= Excess(c, t)
    ensures c[i] > t'[i] && c[j] < t'[j]
  {
    t' := t;
    if c[i] <= t[i] {
      var h := ExceedsSomewhere(c, t);
      Swap(c, t, i, h);
      t' := t[i := t[h]][h := t[i]];
    } else if c[j] >= t[j] {
      var h := ExceedsSomewhere(t, c);
      Swap(c, t, j, h);
      t' := t[j := t[h]][h := t[j]];
    }
  }

  /** A greedy move is a step towards some even target: it saves one unit of excess. */
  lemma MoveSaves(c: seq<int>, t: seq<int>, i: nat, j: nat) returns (t': seq<int>)
    requires |c| == |t| && i < |c| && j < |c| && c[i] >= c[j] + 2
    requires forall k :: 0 <= k < |c| ==> c[j] <= c[k] <= c[i]
    requires Sum(c) == Sum(t) && Even(t)
    ensures |t'| == |t| && Sum(t') == Sum(t) && Even(t')
    ensures Excess(c[i := c[i] - 1][j := c[j] + 1], t') + 1 <= Excess(c, t)
  {
    t' := BetterTarget(c, t, i, j);
    Same(t', i);
    Same(t', j);
    ExcessUpdate(c, t', i, c[i] - 1, t'[i]);
    ExcessUpdate(c[i := c[i] - 1], t', j, c[j] + 1, t'[j]);
  }

  // ---------------------------------------------------------------- assignments and their loads

  lemma {:induction false} LoadsTotal(shards: seq<int>, gs: seq<int>)
    requires Distinct(gs) && Assigned(shards, gs)
    ensures Sum(Loads(shards, gs)) == |shards|
  {
    if shards == [] {
      SumZero(Loads(shards, gs));
    } else {
      var n := |shards| - 1;
      LoadsTotal(shards[..n], gs);
      var k := LoadsAdd(shards, gs);
      SumUpdate(Loads(shards[..n], gs), k, Count(shards[..n], gs[k]) + 1);
    }
  }

  lemma {:induction false} SumZero(c: seq<int>)
    requires forall i :: 0 <= i < |c| ==> c[i] == 0
    ensures Sum(c) == 0
  {
    if c != [] { SumZero(c[..|c| - 1]); }
  }

  lemma {:induction false} ExcessNone(c: seq<int>, t: seq<int>)
    requires |c| == |t| && forall i :: 0 <= i < |c| ==> c[i] == t[i]
    ensures Excess(c, t) == 0
  {
    if c != [] { ExcessNone(c[..|c| - 1], t[..|t| - 1]); }
  }

  /** One more shard on each side adds to the excess only when it goes to different groups. */
  lemma ExcessAdd(c: seq<int>, t: seq<int>, i: nat, j: nat)
    requires |c| == |t| && i < |c| && j < |c|
    ensures Excess(c[i := c[i] + 1], t[j := t[j] + 1]) <= Excess(c, t) + if i == j then 0 else 1
  {
    var c1 := c[i := c[i] + 1];
    Same(t, i);
    ExcessUpdate(c, t, i, c[i] + 1, t[i]);
    Same(c1, j);
    ExcessUpdate(c1, t, j, c1[j], t[j] + 1);
  }

  lemma LoadsAdd(shards: seq<int>, gs: seq<int>) returns (k: nat)
    requires Distinct(gs) && shards != [] && shards[|shards| - 1] in gs
    ensures k < |gs| && gs[k] == shards[|shards| - 1]
    ensures var c := Loads(shards[..|shards| - 1], gs); Loads(shards, gs) == c[k := c[k] + 1]
  {
    k :| 0 <= k < |gs| && gs[k] == shards[|shards| - 1];
  }

  /** However one assignment is turned into another, at least the excess of their loads must move. */
  lemma {:induction false} DistanceCoversExcess(a: seq<int>, b: seq<int>, gs: seq<int>)
    requires |a| == |b| && Distinct(gs) && Assigned(a, gs) && Assigned(b, gs)
    ensures Excess(Loads(a, gs), Loads(b, gs)) <= Distance(a, b)
  {
    if a == [] {
      ExcessNone(Loads(a, gs), Loads(b, gs));
    } else {
      var n := |a| - 1;
      DistanceCoversExcess(a[..n], b[..n], gs);
      var i := LoadsAdd(a, gs);
      var j := LoadsAdd(b, gs);
      ExcessAdd(Loads(a[..n], gs), Loads(b[..n], gs), i, j);
    }
  }
}
