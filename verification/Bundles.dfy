/** The bundle-building half of the task auction (cbba.py): taking the best-scoring task for the
    next position, again and again, is optimal. */
module Bundles {
  import opened Arithmetic
  import opened Sequences
  import opened Wrappers

  type Task = int

  const DIMINISHING := 0.7

  /** `score_task`: what a task is worth to a drone, less for every task before it. */
  function Score(base: real, position: nat): real {
    base * Power(DIMINISHING, position)
  }

  // ---------------------------------------------------------------- the loops as functions

  /** The keys of a dictionary built from a list: each once, in order of first appearance. */
  function Keys(s: seq<Task>): (r: seq<Task>)
    ensures Distinct(r) && forall t :: t in r <==> t in s
    decreases |s|
  {
    if s == [] then []
    else
      var r := Keys(s[..|s| - 1]);
      assert forall t :: t in s <==> t in s[..|s| - 1] || t == s[|s| - 1];
      if s[|s| - 1] in r then r else r + [s[|s| - 1]]
  }

  /** The best open task among the first `k`: it must beat the standing bid, and the earliest of
      equals wins. */
  function Pick(base: Task -> real, tasks: seq<Task>, bids: map<Task, real>, bundle: seq<Task>,
                k: nat): (r: Option<Task>)
    requires k <= |tasks| && forall t :: t in tasks ==> t in bids
    ensures r.Some? ==> r.value in tasks && r.value !in bundle
  {
    if k == 0 then None
    else
      var best, t := Pick(base, tasks, bids, bundle, k - 1), tasks[k - 1];
      if t in bundle then best
      else
        var score := Score(base(t), |bundle|);
        var bestScore := if best.None? then -1.0 else Score(base(best.value), |bundle|);
        if score > bids[t] && score > bestScore then Some(t) else best
  }

  /** The bundle once no further task is worth adding. */
  function Fill(base: Task -> real, tasks: seq<Task>, bids: map<Task, real>, bundle: seq<Task>, max: int): seq<Task>
    requires forall t :: t in tasks ==> t in bids
    decreases max - |bundle|
  {
    if |bundle| >= max then bundle
    else
      var best := Pick(base, tasks, bids, bundle, |tasks|);
      if best.None? || Score(base(best.value), |bundle|) <= 0.0 then bundle
      else Fill(base, tasks, bids[best.value := Score(base(best.value), |bundle|)], bundle + [best.value], max)
  }

  // ---------------------------------------------------------------- value and greed

  /** What a bundle is worth: each task discounted by its position. */
  function Value(base: Task -> real, s: seq<Task>): real
    decreases |s|
  {
    if s == [] then 0.0 else base(s[0]) + DIMINISHING * Value(base, s[1..])
  }

  /** The sum of the scores the auction itself gives to the positions from `from` on. */
  function Total(base: Task -> real, s: seq<Task>, from: nat): real
    decreases |s|
  {
    if s == [] then 0.0 else Score(base(s[0]), from) + Total(base, s[1..], from + 1)
  }

  /** The nested form is the sum of scores. */
  lemma {:induction false} ValueIsTotal(base: Task -> real, s: seq<Task>, from: nat)
    ensures Total(base, s, from) == Power(DIMINISHING, from) * Value(base, s)
    decreases |s|
  {
    if s != [] {
      ValueIsTotal(base, s[1..], from + 1);
      Discount(base(s[0]), Power(DIMINISHING, from), Value(base, s[1..]));
    }
  }

  lemma Discount(b: real, p: real, v: real)
    ensures b * p + (DIMINISHING * p) * v == p * (b + DIMINISHING * v)
  {
  }

  /** Every task of the bundle is positive and at least as good as all not taken before it. */
  ghost predicate BestFirst(base: Task -> real, tasks: set<Task>, s: seq<Task>) {
    && Distinct(s) && (forall i :: 0 <= i < |s| ==> s[i] in tasks && base(s[i]) > 0.0)
    && (forall i, t :: 0 <= i < |s| && t in tasks && t !in s[..i] ==> base(t) <= base(s[i]))
  }

  /** And it stopped only because it was full or nothing of worth was left. */
  ghost predicate Greedy(base: Task -> real, tasks: set<Task>, max: int, s: seq<Task>) {
    && BestFirst(base, tasks, s) && (|s| <= max || s == [])
    && (|s| < max ==> forall t :: t in tasks && t !in s ==> base(t) <= 0.0)
  }

  function Without<T(==)>(s: seq<T>, i: nat): seq<T>
    requires i < |s|
  {
    s[..i] + s[i + 1..]
  }

  /** Moving the best task to the front never costs anything. */
  lemma {:induction false} BestToFront(base: Task -> real, s: seq<Task>, i: nat)
    requires i < |s| && forall j :: 0 <= j < |s| ==> base(s[j]) <= base(s[i])
    ensures Value(base, s) <= base(s[i]) + DIMINISHING * Value(base, Without(s, i))
    decreases |s|
  {
    if i == 0 {
      assert Without(s, 0) == s[1..];
    } else {
      BestToFront(base, s[1..], i - 1);
      assert Without(s, i)[1..] == Without(s[1..], i - 1);
      assert Without(s, i)[0] == s[0];
    }
  }

  lemma {:induction false} Worthless(base: Task -> real, s: seq<Task>)
    requires forall j :: 0 <= j < |s| ==> base(s[j]) <= 0.0
    ensures Value(base, s) <= 0.0
    decreases |s|
  {
    if s != [] { Worthless(base, s[1..]); }
  }

  lemma {:induction false} Worthwhile(base: Task -> real, s: seq<Task>)
    requires forall j :: 0 <= j < |s| ==> base(s[j]) > 0.0
    ensures Value(base, s) >= 0.0
    decreases |s|
  {
    if s != [] { Worthwhile(base, s[1..]); }
  }

  lemma NothingLeft(base: Task -> real, tasks: set<Task>, max: int, s: seq<Task>, t: Task)
    requires Greedy(base, tasks, max, s) && |s| < max && t in tasks && t !in s
    ensures base(t) <= 0.0
  {
  }

  lemma FirstIsBest(base: Task -> real, tasks: set<Task>, max: int, s: seq<Task>, t: Task)
    requires Greedy(base, tasks, max, s) && s != [] && t in tasks
    ensures base(t) <= base(s[0])
  {
    assert t !in s[..0];
  }

  lemma FrontOf(s: seq<Task>, i: nat)
    requires Distinct(s) && s != [] && i < |s|
    ensures s[..i + 1] == [s[0]] + s[1..][..i] && (i < |s| - 1 ==> s[1..][i] == s[i + 1] && s[i + 1] != s[0])
    ensures s == [s[0]] + s[1..]
  {
  }

  lemma TailDistinct(s: seq<Task>)
    requires Distinct(s) && s != []
    ensures Distinct(s[1..])
  {
  }

  /** Each task of the rest is open and positive. */
  lemma TailInside(base: Task -> real, tasks: set<Task>, s: seq<Task>, i: nat)
    requires BestFirst(base, tasks, s) && s != [] && i < |s| - 1
    ensures s[1..][i] in tasks - {s[0]} && base(s[1..][i]) > 0.0
  {
    FrontOf(s, i);
  }

  /** Each task of the rest is at least as good as what was open at its turn. */
  lemma TailBest(base: Task -> real, tasks: set<Task>, s: seq<Task>, i: nat, t: Task)
    requires BestFirst(base, tasks, s) && s != [] && i < |s| - 1 && t in tasks - {s[0]} && t !in s[1..][..i]
    ensures base(t) <= base(s[1..][i])
  {
    FrontOf(s, i);
    BestAt(base, tasks, s, i + 1, t);
  }

  lemma BestAt(base: Task -> real, tasks: set<Task>, s: seq<Task>, i: nat, t: Task)
    requires BestFirst(base, tasks, s) && i < |s| && t in tasks && t !in s[..i]
    ensures base(t) <= base(s[i])
  {
  }

  lemma BestFirstParts(base: Task -> real, tasks: set<Task>, max: int, s: seq<Task>)
    requires Greedy(base, tasks, max, s)
    ensures Distinct(s) && BestFirst(base, tasks, s) && (|s| <= max || s == [])
  {
  }

  /** Without its first task a greedy bundle is greedy over what that task left. */
  lemma GreedyTail(base: Task -> real, tasks: set<Task>, max: int, s: seq<Task>)
    requires Greedy(base, tasks, max, s) && s != []
    ensures Greedy(base, tasks - {s[0]}, max - 1, s[1..])
  {
    hide Distinct, BestFirst;
    BestFirstTail(base, tasks, max, s);
    if |s| < max {
      forall t | t in tasks - {s[0]} && t !in s[1..] ensures base(t) <= 0.0 {
        TailLeaves(base, tasks, max, s, t);
      }
    }
  }

  lemma TailLeaves(base: Task -> real, tasks: set<Task>, max: int, s: seq<Task>, t: Task)
    requires Greedy(base, tasks, max, s) && s != [] && |s| < max && t in tasks - {s[0]} && t !in s[1..]
    ensures base(t) <= 0.0
  {
    hide BestFirst;
    assert s == [s[0]] + s[1..];
  }

  lemma BestFirstTail(base: Task -> real, tasks: set<Task>, max: int, s: seq<Task>)
    requires Greedy(base, tasks, max, s) && s != []
    ensures BestFirst(base, tasks - {s[0]}, s[1..])
  {
    hide Distinct;
    BestFirstParts(base, tasks, max, s);
    TailDistinct(s);
    forall i | 0 <= i < |s[1..]| ensures s[1..][i] in tasks - {s[0]} && base(s[1..][i]) > 0.0 {
      TailInside(base, tasks, s, i);
    }
    forall i, t | 0 <= i < |s[1..]| && t in tasks - {s[0]} && t !in s[1..][..i] ensures base(t) <= base(s[1..][i]) {
      TailBest(base, tasks, s, i, t);
    }
  }

  lemma DistinctWithout(s: seq<Task>, i: nat)
    requires Distinct(s) && i < |s|
    ensures Distinct(Without(s, i)) && forall t :: t in Without(s, i) <==> t in s && t != s[i]
  {
    assert s == s[..i] + [s[i]] + s[i + 1..];
  }

  /** No sequence of at most `max` different tasks is worth more than the greedy bundle. */
  lemma {:induction false} GreedyOptimal(base: Task -> real, tasks: set<Task>, max: int, b: seq<Task>, s: seq<Task>)
    requires Greedy(base, tasks, max, b)
    requires Distinct(s) && (forall t :: t in s ==> t in tasks) && |s| <= max
    ensures Value(base, s) <= Value(base, b)
    decreases |b|
  {
    if s == [] {
      Worthwhile(base, b);
    } else if b == [] {
      forall j | 0 <= j < |s| ensures base(s[j]) <= 0.0 {
        assert s[j] in s;
        NothingLeft(base, tasks, max, b, s[j]);
      }
      Worthless(base, s);
    } else {
      var m := b[0];
      GreedyTail(base, tasks, max, b);
      if m in s {
        var i :| 0 <= i < |s| && s[i] == m;
        forall j | 0 <= j < |s| ensures base(s[j]) <= base(m) {
          assert s[j] in s;
          FirstIsBest(base, tasks, max, b, s[j]);
        }
        BestToFront(base, s, i);
        DistinctWithout(s, i);
        GreedyOptimal(base, tasks - {m}, max - 1, b[1..], Without(s, i));
      } else {
        assert s[0] in s;
        FirstIsBest(base, tasks, max, b, s[0]);
        assert forall t :: t in s[1..] ==> t in s;
        GreedyOptimal(base, tasks - {m}, max - 1, b[1..], s[1..]);
      }
    }
  }

  // ---------------------------------------------------------------- the auction's bundle is greedy

  lemma ScoreOrder(a: real, b: real, position: nat)
    ensures Score(a, position) <= Score(b, position) <==> a <= b
    ensures Score(a, position) > 0.0 <==> a > 0.0
  {
    var p := Power(DIMINISHING, position);
    PowerRange(DIMINISHING, position);
    Sign(b - a, p);
    Sign(a - b, p);
    Sign(a, p);
    Sign(-a, p);
    assert Score(b, position) - Score(a, position) == (b - a) * p;
  }

  lemma Sign(x: real, p: real)
    requires p > 0.0
    ensures x > 0.0 ==> x * p > 0.0
    ensures x >= 0.0 ==> x * p >= 0.0
  {
  }

  /** The pick scores at least as well as every open task; when there is none, or it is worthless,
      all open tasks are worthless. */
  lemma {:induction false} PickBest(base: Task -> real, tasks: seq<Task>, bids: map<Task, real>, bundle: seq<Task>,
                                    k: nat, x: Task)
    requires k <= |tasks| && (forall t :: t in tasks ==> t in bids)
    requires forall t :: t in tasks && t !in bundle ==> bids[t] == -1.0
    requires x in tasks[..k] && x !in bundle
    ensures var r := Pick(base, tasks, bids, bundle, k);
            if r.None? then Score(base(x), |bundle|) <= -1.0
            else Score(base(x), |bundle|) <= Score(base(r.value), |bundle|)
    ensures var r := Pick(base, tasks, bids, bundle, k); r.Some? ==> Score(base(r.value), |bundle|) > -1.0
  {
    hide Score;
    var t := tasks[k - 1];
    assert tasks[..k] == tasks[..k - 1] + [t];
    PickAbove(base, tasks, bids, bundle, k - 1);
    if x in tasks[..k - 1] {
      PickBest(base, tasks, bids, bundle, k - 1, x);
    }
  }

  lemma {:induction false} PickAbove(base: Task -> real, tasks: seq<Task>, bids: map<Task, real>, bundle: seq<Task>,
                                     k: nat)
    requires k <= |tasks| && (forall t :: t in tasks ==> t in bids)
    ensures var r := Pick(base, tasks, bids, bundle, k); r.Some? ==> Score(base(r.value), |bundle|) > -1.0
  {
    hide Score;
    if k > 0 { PickAbove(base, tasks, bids, bundle, k - 1); }
  }

  ghost predicate Open(tasks: seq<Task>, bids: map<Task, real>, bundle: seq<Task>) {
    (forall t :: t in tasks ==> t in bids) && (forall t :: t in tasks && t !in bundle ==> bids[t] == -1.0)
  }

  function Elements(s: seq<Task>): set<Task> {
    set t | t in s
  }

  lemma PickGreedy(base: Task -> real, tasks: seq<Task>, bids: map<Task, real>, bundle: seq<Task>)
    requires Open(tasks, bids, bundle)
    ensures var r := Pick(base, tasks, bids, bundle, |tasks|);
            if r.None? || Score(base(r.value), |bundle|) <= 0.0
            then forall t :: t in tasks && t !in bundle ==> base(t) <= 0.0
            else base(r.value) > 0.0 && forall t :: t in tasks && t !in bundle ==> base(t) <= base(r.value)
    ensures var r := Pick(base, tasks, bids, bundle, |tasks|); r.Some? ==> r.value in tasks && r.value !in bundle
  {
    hide Score;
    var r := Pick(base, tasks, bids, bundle, |tasks|);
    assert tasks[..|tasks|] == tasks;
    if r.Some? { ScoreOrder(base(r.value), 0.0, |bundle|); }
    forall t | t in tasks && t !in bundle
      ensures if r.None? || Score(base(r.value), |bundle|) <= 0.0 then base(t) <= 0.0 else base(t) <= base(r.value)
    {
      PickBest(base, tasks, bids, bundle, |tasks|, t);
      ScoreOrder(base(t), 0.0, |bundle|);
      if r.Some? { ScoreOrder(base(t), base(r.value), |bundle|); }
    }
  }

  lemma BestFirstSnoc(base: Task -> real, tasks: set<Task>, s: seq<Task>, t: Task)
    requires BestFirst(base, tasks, s) && t in tasks && t !in s && base(t) > 0.0
    requires forall x :: x in tasks && x !in s ==> base(x) <= base(t)
    ensures BestFirst(base, tasks, s + [t])
  {
    var r := s + [t];
    forall i, x | 0 <= i < |r| && x in tasks && x !in r[..i] ensures base(x) <= base(r[i]) {
      assert i < |s| ==> r[..i] == s[..i];
      assert i == |s| ==> r[..i] == s;
    }
  }

  /** Filling a best-first bundle makes it greedy. */
  lemma {:induction false} FillGreedy(base: Task -> real, tasks: seq<Task>, bids: map<Task, real>, bundle: seq<Task>,
                                      max: int)
    requires Open(tasks, bids, bundle) && BestFirst(base, Elements(tasks), bundle) && (|bundle| <= max || bundle == [])
    ensures Greedy(base, Elements(tasks), max, Fill(base, tasks, bids, bundle, max))
    decreases max - |bundle|
  {
    hide Score, BestFirst, Pick;
    if |bundle| < max {
      PickGreedy(base, tasks, bids, bundle);
      var r := Pick(base, tasks, bids, bundle, |tasks|);
      if r.Some? && Score(base(r.value), |bundle|) > 0.0 {
        BestFirstSnoc(base, Elements(tasks), bundle, r.value);
        FillGreedy(base, tasks, bids[r.value := Score(base(r.value), |bundle|)], bundle + [r.value], max);
      }
    }
  }

  /** A greedy bundle is not filled any further. */
  lemma FillIdle(base: Task -> real, tasks: seq<Task>, bids: map<Task, real>, bundle: seq<Task>, max: int)
    requires Open(tasks, bids, bundle) && Greedy(base, Elements(tasks), max, bundle)
    ensures Fill(base, tasks, bids, bundle, max) == bundle
  {
    hide Score, Pick;
    if |bundle| < max {
      PickGreedy(base, tasks, bids, bundle);
      var r := Pick(base, tasks, bids, bundle, |tasks|);
      if r.Some? {
        assert r.value in Elements(tasks);
        NothingLeft(base, Elements(tasks), max, bundle, r.value);
      }
    }
  }
}
