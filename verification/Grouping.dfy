/**
 Key/value pairs, their order by key, the partition into buckets, and the loop that reduces each run of equal keys.
 */
module Grouping {

  datatype KeyValue = KeyValue(key: string, value: string)

  /** One line of output. */
  datatype Line = Line(key: string, output: string)

  type Reducer = (string, seq<string>) -> string

  // ---------------------------------------------------------------- the order of keys

  /** Strings in lexicographic order. */
  predicate Less(a: string, b: string) {
    if b == [] then false
    else if a == [] then true
    else a[0] < b[0] || (a[0] == b[0] && Less(a[1..], b[1..]))
  }

  lemma {:induction false} LessTotal(a: string, b: string)
    ensures Less(a, b) || Less(b, a) || a == b
    ensures !(Less(a, b) && Less(b, a)) && !Less(a, a)
  {
    if a != [] && b != [] {
      LessTotal(a[1..], b[1..]);
      assert a == [a[0]] + a[1..] && b == [b[0]] + b[1..];
    }
    if a != [] { LessTotal(a[1..], a[1..]); }
  }

  /** The strings are the same before `i`, where the first ends or has the smaller character. */
  predicate SmallerAt(a: string, b: string, i: nat) {
    i <= |a| && i < |b| && a[..i] == b[..i] && (i < |a| ==> a[i] < b[i])
  }

  /** The order is that of the first place where the strings differ, a proper prefix coming first. */
  lemma {:induction false} LessAtFirstDifference(a: string, b: string)
    ensures Less(a, b) <==> exists i: nat :: SmallerAt(a, b, i)
  {
    if b == [] {
    } else if a == [] {
      assert SmallerAt(a, b, 0);
    } else {
      LessAtFirstDifference(a[1..], b[1..]);
      if a[0] < b[0] { assert SmallerAt(a, b, 0); }
      if i: nat :| a[0] == b[0] && SmallerAt(a[1..], b[1..], i) {
        assert a[..i + 1] == [a[0]] + a[1..][..i] && b[..i + 1] == [b[0]] + b[1..][..i];
        assert SmallerAt(a, b, i + 1);
      }
      if i: nat :| SmallerAt(a, b, i) && i > 0 {
        assert a[0] == a[..i][0] && b[0] == b[..i][0];
        assert a[1..][..i - 1] == a[..i][1..] && b[1..][..i - 1] == b[..i][1..];
        assert SmallerAt(a[1..], b[1..], i - 1);
      }
    }
  }

  lemma {:induction false} LessTransitive(a: string, b: string, c: string)
    requires Less(a, b) && Less(b, c)
    ensures Less(a, c)
  {
    if a != [] && a[0] == b[0] == c[0] {
      LessTransitive(a[1..], b[1..], c[1..]);
    }
  }

  predicate Sorted(s: seq<KeyValue>) {
    forall i, j :: 0 <= i < j < |s| ==> !Less(s[j].key, s[i].key)
  }

  /** sort.Sort by key need not be stable: it may give any of these. */
  predicate SortOf(r: seq<KeyValue>, s: seq<KeyValue>) {
    Sorted(r) && multiset(r) == multiset(s)
  }

  /** A pair that comes no earlier than the last one comes no earlier than any. */
  lemma FollowsAll(r: seq<KeyValue>, p: KeyValue)
    requires Sorted(r) && r != [] && !Less(p.key, r[|r| - 1].key)
    ensures Sorted(r + [p])
  {
    var last := r[|r| - 1];
    forall i | 0 <= i < |r| ensures !Less(p.key, r[i].key) {
      if Less(p.key, r[i].key) {
        LessTotal(r[i].key, last.key);
        if Less(r[i].key, last.key) { LessTransitive(p.key, r[i].key, last.key); }
      }
    }
  }

  lemma {:induction false} Inserted(r: seq<KeyValue>, p: KeyValue) returns (q: seq<KeyValue>)
    requires Sorted(r)
    ensures Sorted(q) && multiset(q) == multiset(r) + multiset{p}
  {
    if r == [] {
      q := [p];
    } else {
      var front, last := r[..|r| - 1], r[|r| - 1];
      assert r == front + [last];
      if !Less(p.key, last.key) {
        FollowsAll(r, p);
        q := r + [p];
      } else {
        var q' := Inserted(front, p);
        forall i | 0 <= i < |q'| ensures !Less(last.key, q'[i].key) {
          assert q'[i] in multiset(q');
          assert q'[i] == p || q'[i] in front;
          LessTotal(p.key, last.key);
        }
        q := q' + [last];
      }
    }
  }

  /** There is always something for the sort to give. */
  lemma {:induction false} SortExists(s: seq<KeyValue>) returns (r: seq<KeyValue>)
    ensures SortOf(r, s)
  {
    if s == [] {
      r := [];
    } else {
      var front, last := s[..|s| - 1], s[|s| - 1];
      assert s == front + [last];
      var r' := SortExists(front);
      r := Inserted(r', last);
    }
  }

  // ---------------------------------------------------------------- partition

  /** The pairs of one bucket, in order. */
  function Bucket(pairs: seq<KeyValue>, hash: string -> nat, n: nat, b: nat): seq<KeyValue>
    requires n > 0
  {
    if pairs == [] then []
    else
      var p := pairs[|pairs| - 1];
      Bucket(pairs[..|pairs| - 1], hash, n, b) + if hash(p.key) % n == b then [p] else []
  }

  lemma {:induction false} BucketCounts(pairs: seq<KeyValue>, hash: string -> nat, n: nat, b: nat, p: KeyValue)
    requires n > 0
    ensures multiset(Bucket(pairs, hash, n, b))[p] == if hash(p.key) % n == b then multiset(pairs)[p] else 0
  {
    if pairs != [] {
      var front := pairs[..|pairs| - 1];
      BucketCounts(front, hash, n, b, p);
      assert pairs == front + [pairs[|pairs| - 1]];
    }
  }

  /** A bucket keeps the order in which its pairs come. */
  lemma {:induction false} BucketInOrder(a: seq<KeyValue>, c: seq<KeyValue>, hash: string -> nat, n: nat, b: nat)
    requires n > 0
    ensures Bucket(a + c, hash, n, b) == Bucket(a, hash, n, b) + Bucket(c, hash, n, b)
    ensures |a| == 1 ==> Bucket(a, hash, n, b) == if hash(a[0].key) % n == b then a else []
  {
    if c == [] {
      assert a + c == a;
    } else {
      var front, last := c[..|c| - 1], c[|c| - 1];
      assert (a + c)[..|a + c| - 1] == a + front;
      BucketInOrder(a, front, hash, n, b);
    }
  }

  /** The loop that sends each pair to its bucket's writer. */
  method Partition(pairs: seq<KeyValue>, hash: string -> nat, n: nat) returns (buckets: seq<seq<KeyValue>>)
    requires n > 0
    ensures |buckets| == n && forall b: nat :: b < n ==> buckets[b] == Bucket(pairs, hash, n, b)
  {
    buckets := seq(n, _ => []);
    for i := 0 to |pairs|
      invariant |buckets| == n && forall b: nat :: b < n ==> buckets[b] == Bucket(pairs[..i], hash, n, b)
    {
      assert pairs[..i + 1][..i] == pairs[..i];
      var idx := hash(pairs[i].key) % n;
      buckets := buckets[idx := buckets[idx] + [pairs[i]]];
    }
    assert pairs[..|pairs|] == pairs;
  }

  // ---------------------------------------------------------------- grouping

  function Values(s: seq<KeyValue>): (r: seq<string>)
    ensures |r| == |s|
  {
    seq(|s|, i requires 0 <= i < |s| => s[i].value)
  }

  /** How long the first key's run is. */
  function RunLength(s: seq<KeyValue>, j: nat): (r: nat)
    requires 1 <= j <= |s|
    ensures j <= r <= |s|
    ensures forall k :: j <= k < r ==> s[k].key == s[0].key
    ensures r < |s| ==> s[r].key != s[0].key
    decreases |s| - j
  {
    if j < |s| && s[j].key == s[0].key then RunLength(s, j + 1) else j
  }

  /** One line for every run of equal keys. */
  function Grouped(s: seq<KeyValue>, reducef: Reducer): seq<Line>
    decreases |s|
  {
    if s == [] then []
    else
      var j := RunLength(s, 1);
      [Line(s[0].key, reducef(s[0].key, Values(s[..j])))] + Grouped(s[j..], reducef)
  }

  /** The loop over a sorted slice with indices i, j and k, in handleReduceTask and in the sequential program alike. */
  method ReduceRuns(kva: seq<KeyValue>, reducef: Reducer) returns (out: seq<Line>)
    ensures out == Grouped(kva, reducef)
  {
    hide Grouped, RunLength;
    out := [];
    var i := 0;
    GroupedFrom(kva, |kva|, reducef);
    assert kva[0..] == kva;
    while i < |kva|
      invariant i <= |kva|
      invariant out + Grouped(kva[i..], reducef) == Grouped(kva, reducef)
    {
      var j := i + 1;
      while j < |kva| && kva[j].key == kva[i].key
        invariant i < j <= |kva|
        invariant RunLength(kva[i..], j - i) == RunLength(kva[i..], 1)
      {
        RunGoesOn(kva, i, j);
        j := j + 1;
      }
      RunEnds(kva, i, j);
      var values: seq<string> := [];
      for k := i to j
        invariant values == Values(kva[i..k])
      {
        assert kva[i..k + 1] == kva[i..k] + [kva[k]];
        values := values + [kva[k].value];
      }
      GroupedFrom(kva, i, reducef);
      out := out + [Line(kva[i].key, reducef(kva[i].key, values))];
      i := j;
    }
  }

  lemma RunGoesOn(kva: seq<KeyValue>, i: nat, j: nat)
    requires i < j < |kva| && kva[j].key == kva[i].key
    ensures RunLength(kva[i..], j - i) == RunLength(kva[i..], j + 1 - i)
  {
  }

  lemma RunEnds(kva: seq<KeyValue>, i: nat, j: nat)
    requires i < j <= |kva| && (j < |kva| ==> kva[j].key != kva[i].key)
    ensures RunLength(kva[i..], j - i) == j - i
  {
  }

  lemma GroupedFrom(kva: seq<KeyValue>, i: nat, reducef: Reducer)
    requires i <= |kva|
    ensures i == |kva| ==> Grouped(kva[i..], reducef) == []
    ensures i < |kva| ==>
              var j := i + RunLength(kva[i..], 1);
              Grouped(kva[i..], reducef)
                  == [Line(kva[i].key, reducef(kva[i].key, Values(kva[i..j])))] + Grouped(kva[j..], reducef)
  {
    if i < |kva| {
      var rest, j := kva[i..], i + RunLength(kva[i..], 1);
      assert rest[..j - i] == kva[i..j] && rest[j - i..] == kva[j..];
    }
  }

  // ---------------------------------------------------------------- what the lines are

  /** The values of one key, in order. */
  function ValuesOf(s: seq<KeyValue>, key: string): seq<string> {
    if s == [] then []
    else (if s[0].key == key then [s[0].value] else []) + ValuesOf(s[1..], key)
  }

  predicate HasKey(s: seq<KeyValue>, key: string) {
    exists i :: 0 <= i < |s| && s[i].key == key
  }

  /** The line that a key's values make. */
  predicate LineFor(s: seq<KeyValue>, reducef: Reducer, line: Line) {
    HasKey(s, line.key) && line.output == reducef(line.key, ValuesOf(s, line.key))
  }

  lemma {:induction false} ValuesOfAppend(a: seq<KeyValue>, b: seq<KeyValue>, key: string)
    ensures ValuesOf(a + b, key) == ValuesOf(a, key) + ValuesOf(b, key)
  {
    if a == [] {
      assert a + b == b;
    } else {
      assert (a + b)[1..] == a[1..] + b;
      ValuesOfAppend(a[1..], b, key);
    }
  }

  lemma {:induction false} ValuesOfRun(s: seq<KeyValue>, key: string)
    requires forall i :: 0 <= i < |s| ==> s[i].key == key
    ensures ValuesOf(s, key) == Values(s)
  {
    if s != [] {
      ValuesOfRun(s[1..], key);
      assert Values(s) == [s[0].value] + Values(s[1..]);
    }
  }

  lemma {:induction false} ValuesOfAbsent(s: seq<KeyValue>, key: string)
    requires forall i :: 0 <= i < |s| ==> s[i].key != key
    ensures ValuesOf(s, key) == []
  {
    if s != [] { ValuesOfAbsent(s[1..], key); }
  }

  /** After the first run of a sorted sequence come only larger keys. */
  lemma {:induction false} RestIsLarger(s: seq<KeyValue>, i: nat)
    requires Sorted(s) && s != [] && RunLength(s, 1) <= i < |s|
    ensures Less(s[0].key, s[i].key) && s[i].key != s[0].key
  {
    hide Less, RunLength;
    var j := RunLength(s, 1);
    assert !Less(s[j].key, s[0].key) && (i == j || !Less(s[i].key, s[j].key));
    LessThrough(s[0].key, s[j].key, s[i].key);
  }

  lemma LessThrough(a: string, b: string, c: string)
    requires a != b && !Less(b, a) && (b == c || !Less(c, b))
    ensures Less(a, c) && c != a
  {
    hide Less;
    LessTotal(a, b);
    LessTotal(b, c);
    if b != c { LessTransitive(a, b, c); }
    LessTotal(a, a);
  }

  /** On a sorted sequence the lines are exactly those its keys make, in ascending order, each key once. */
  lemma {:induction false} GroupedLines(s: seq<KeyValue>, reducef: Reducer)
    requires Sorted(s)
    ensures forall line :: line in Grouped(s, reducef) <==> LineFor(s, reducef, line)
    ensures forall i, j :: 0 <= i < j < |Grouped(s, reducef)| ==>
              Less(Grouped(s, reducef)[i].key, Grouped(s, reducef)[j].key)
    decreases |s|
  {
    hide Less, ValuesOf;
    if s != [] {
      var j := RunLength(s, 1);
      var run, rest := s[..j], s[j..];
      assert s == run + rest;
      GroupedLines(rest, reducef);
      var first := Line(s[0].key, reducef(s[0].key, Values(run)));
      forall line ensures line in Grouped(s, reducef) <==> LineFor(s, reducef, line) {
        LineSplits(s, reducef, line);
      }
      var lines := Grouped(rest, reducef);
      forall i | 0 <= i < |lines| ensures Less(first.key, lines[i].key) {
        assert lines[i] in lines;
        LineIsLarger(s, reducef, lines[i]);
      }
    }
  }

  lemma {:induction false} LineIsLarger(s: seq<KeyValue>, reducef: Reducer, line: Line)
    requires Sorted(s) && s != [] && LineFor(s[RunLength(s, 1)..], reducef, line)
    ensures Less(s[0].key, line.key)
  {
    hide Less, Sorted, ValuesOf, RunLength;
    var j := RunLength(s, 1);
    var k :| 0 <= k < |s[j..]| && s[j..][k].key == line.key;
    RestIsLarger(s, j + k);
  }

  lemma LineSplits(s: seq<KeyValue>, reducef: Reducer, line: Line)
    requires Sorted(s) && s != []
    ensures var j := RunLength(s, 1);
            LineFor(s, reducef, line) <==>
              line == Line(s[0].key, reducef(s[0].key, Values(s[..j]))) || LineFor(s[j..], reducef, line)
  {
    var j := RunLength(s, 1);
    var run, rest := s[..j], s[j..];
    forall i | 0 <= i < |rest| ensures rest[i].key != s[0].key { RestIsLarger(s, j + i); }
    assert s == run + rest;
    RunsSplit(run, rest, s[0].key, reducef, line);
  }

  lemma RunsSplit(run: seq<KeyValue>, rest: seq<KeyValue>, key: string, reducef: Reducer, line: Line)
    requires run != [] && forall i :: 0 <= i < |run| ==> run[i].key == key
    requires forall i :: 0 <= i < |rest| ==> rest[i].key != key
    ensures LineFor(run + rest, reducef, line) <==>
              line == Line(key, reducef(key, Values(run))) || LineFor(rest, reducef, line)
  {
    hide ValuesOf, HasKey, Values;
    ValuesOfAppend(run, rest, line.key);
    HasKeyAppend(run, rest, line.key);
    if line.key == key {
      ValuesOfRun(run, key);
      ValuesOfAbsent(rest, key);
      assert Values(run) + [] == Values(run);
      KeyPresent(run, key, 0);
      KeyAbsent(rest, key);
    } else {
      ValuesOfAbsent(run, line.key);
      assert [] + ValuesOf(rest, line.key) == ValuesOf(rest, line.key);
      KeyAbsent(run, line.key);
    }
  }

  lemma HasKeyAppend(a: seq<KeyValue>, b: seq<KeyValue>, key: string)
    ensures HasKey(a + b, key) <==> HasKey(a, key) || HasKey(b, key)
  {
    if HasKey(a, key) {
      var i :| 0 <= i < |a| && a[i].key == key;
      assert (a + b)[i].key == key;
    }
    if HasKey(b, key) {
      var i :| 0 <= i < |b| && b[i].key == key;
      assert (a + b)[|a| + i].key == key;
    }
  }

  lemma KeyPresent(s: seq<KeyValue>, key: string, i: nat)
    requires i < |s| && s[i].key == key
    ensures HasKey(s, key)
  {
  }

  lemma KeyAbsent(s: seq<KeyValue>, key: string)
    requires forall i :: 0 <= i < |s| ==> s[i].key != key
    ensures !HasKey(s, key)
  {
  }

  lemma {:induction false} ValueCounts(s: seq<KeyValue>, key: string, value: string)
    ensures multiset(ValuesOf(s, key))[value] == multiset(s)[KeyValue(key, value)]
  {
    if s != [] {
      ValueCounts(s[1..], key, value);
      assert s == [s[0]] + s[1..];
    }
  }

  lemma HasKeyCounted(s: seq<KeyValue>, key: string)
    ensures HasKey(s, key) <==> exists p: KeyValue :: p.key == key && multiset(s)[p] > 0
  {
    if HasKey(s, key) {
      var i :| 0 <= i < |s| && s[i].key == key;
      assert multiset(s)[s[i]] > 0;
    }
    if p: KeyValue :| p.key == key && multiset(s)[p] > 0 {
      assert p in s;
    }
  }

  /** The reducer looks at a key's values without regard to their order. */
  ghost predicate OrderIndependent(reducef: Reducer) {
    forall key, vs, ws :: multiset(vs) == multiset(ws) ==> reducef(key, vs) == reducef(key, ws)
  }

  /** Two sequences with the same pairs of a key make the same line for it. */
  lemma SameLine(s: seq<KeyValue>, t: seq<KeyValue>, reducef: Reducer, line: Line)
    requires OrderIndependent(reducef)
    requires forall p: KeyValue :: p.key == line.key ==> multiset(s)[p] == multiset(t)[p]
    ensures LineFor(s, reducef, line) <==> LineFor(t, reducef, line)
  {
    HasKeyCounted(s, line.key);
    HasKeyCounted(t, line.key);
    var vs, ws := ValuesOf(s, line.key), ValuesOf(t, line.key);
    forall v ensures multiset(vs)[v] == multiset(ws)[v] {
      ValueCounts(s, line.key, v);
      ValueCounts(t, line.key, v);
    }
    assert multiset(vs) == multiset(ws);
  }
}
