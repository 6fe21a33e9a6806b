/** The CI shard scheduler of scripts/ci/run_backend_shards.py: longest processing time first. */
module ShardScheduler {
  import opened Outcomes
  import opened Ordering

  /** One test module: its name, the test functions counted in it, and the inventory check. */
  datatype TestFile = TestFile(name: string, tests: nat, regular: bool)

  type Group = seq<TestFile>

  /** What a file adds to the weight of its shard. */
  function Weight(f: TestFile): nat {
    if f.tests < 1 then 1 else f.tests
  }

  /** The order files are dealt in: more tests first, then by name. */
  predicate HeavierFirst(a: TestFile, b: TestFile) {
    a.tests > b.tests || (a.tests == b.tests && StrLe(a.name, b.name))
  }

  lemma HeavierFirstOrder()
    ensures TotalPreorder(HeavierFirst)
  {
    StringOrder();
  }

  // ----- sums over groups -----

  /** The sum of a per-file measure over a group. */
  function Sum(g: Group, v: TestFile -> nat): nat {
    if g == [] then 0 else v(g[0]) + Sum(g[1..], v)
  }

  function Load(g: Group): nat { Sum(g, Weight) }

  function Flatten(gs: seq<Group>): Group {
    if gs == [] then [] else gs[0] + Flatten(gs[1..])
  }

  /** `gs` deals the files `files` out to `m` shards, each file to exactly one. */
  ghost predicate Partitions(gs: seq<Group>, files: Group, m: nat) {
    |gs| == m && multiset(Flatten(gs)) == multiset(files)
  }

  ghost predicate AllLoadsWithin(gs: seq<Group>, t: nat) {
    forall k :: 0 <= k < |gs| ==> Load(gs[k]) <= t
  }

  lemma {:induction false} SumConcat(a: Group, b: Group, v: TestFile -> nat)
    ensures Sum(a + b, v) == Sum(a, v) + Sum(b, v)
  {
    if a == [] {
      assert a + b == b;
    } else {
      SumConcat(a[1..], b, v);
      assert (a + b)[1..] == a[1..] + b;
    }
  }

  lemma TakeOut(g: Group, f: TestFile, v: TestFile -> nat) returns (rest: Group)
    requires f in g
    ensures multiset(rest) == multiset(g) - multiset{f} && |rest| == |g| - 1
    ensures Sum(g, v) == v(f) + Sum(rest, v)
  {
    var k :| 0 <= k < |g| && g[k] == f;
    rest := g[..k] + g[k + 1..];
    assert g == g[..k] + ([f] + g[k + 1..]);
    SumConcat(g[..k], [f] + g[k + 1..], v);
    SumConcat(g[..k], g[k + 1..], v);
    assert ([f] + g[k + 1..])[1..] == g[k + 1..];
  }

  /** A sum depends on the multiset of files only. */
  lemma {:induction false} SumOfMultiset(a: Group, b: Group, v: TestFile -> nat)
    requires multiset(a) == multiset(b)
    ensures Sum(a, v) == Sum(b, v)
    decreases |a|
  {
    if a == [] {
      assert |multiset(b)| == |b| && multiset(a) == multiset{};
    } else {
      assert a[0] in multiset(b);
      var restA := TakeOut(a, a[0], v);
      var restB := TakeOut(b, a[0], v);
      SumOfMultiset(restA, restB, v);
    }
  }

  lemma Successor(n: nat, x: nat)
    ensures (n + 1) * x == x + n * x
  {
  }

  /** A lower bound on every shard bounds the sum over all files from below. */
  lemma {:induction false} ShardsAtLeast(gs: seq<Group>, v: TestFile -> nat, lo: nat)
    requires forall k :: 0 <= k < |gs| ==> lo <= Sum(gs[k], v)
    ensures |gs| * lo <= Sum(Flatten(gs), v)
  {
    if gs != [] {
      ShardsAtLeast(gs[1..], v, lo);
      SumConcat(gs[0], Flatten(gs[1..]), v);
      Successor(|gs| - 1, lo);
    }
  }

  /** An upper bound on every shard bounds the sum over all files from above. */
  lemma {:induction false} ShardsAtMost(gs: seq<Group>, v: TestFile -> nat, hi: nat)
    requires forall k :: 0 <= k < |gs| ==> Sum(gs[k], v) <= hi
    ensures Sum(Flatten(gs), v) <= |gs| * hi
  {
    if gs != [] {
      ShardsAtMost(gs[1..], v, hi);
      SumConcat(gs[0], Flatten(gs[1..]), v);
      Successor(|gs| - 1, hi);
    }
  }

  lemma {:induction false} FlattenUpdate(gs: seq<Group>, k: nat, f: TestFile)
    requires k < |gs|
    ensures multiset(Flatten(gs[k := gs[k] + [f]])) == multiset(Flatten(gs)) + multiset{f}
  {
    var hs := gs[k := gs[k] + [f]];
    if k == 0 {
      assert hs[1..] == gs[1..];
    } else {
      FlattenUpdate(gs[1..], k - 1, f);
      assert hs[1..] == gs[1..][k - 1 := gs[1..][k - 1] + [f]];
    }
  }

  // ----- the approximation bound -----

  /** How much of a shard's two slots a file takes against a file of weight `w` and a target `t`:
      both if it does not fit beside `w`, one if it is as heavy as `w`, none if it is lighter. */
  function Slots(w: nat, t: nat): TestFile -> nat {
    f => if Weight(f) < w then 0 else if Weight(f) + w > t then 2 else 1
  }

  /** Within the target, a shard has two slots. */
  lemma {:induction false} SlotsWithinTarget(g: Group, w: nat, t: nat)
    requires 3 * w > t
    ensures Sum(g, Slots(w, t)) >= 1 ==> Load(g) >= w
    ensures Sum(g, Slots(w, t)) >= 2 ==> Load(g) >= 2 * w || Load(g) + w > t
    ensures Sum(g, Slots(w, t)) >= 3 ==> Load(g) > t
  {
    if g != [] {
      SlotsWithinTarget(g[1..], w, t);
    }
  }

  /** A shard `w` does not fit into, of files as heavy as `w`, has used its two slots. */
  lemma SlotsWhenFull(g: Group, w: nat, t: nat)
    requires g != [] && forall f <- g :: Weight(f) >= w
    requires Load(g) + w > t
    ensures Sum(g, Slots(w, t)) >= 2
  {
    if |g| >= 2 {
      assert g[1..][0] in g;
      assert Slots(w, t)(g[0]) >= 1 && Slots(w, t)(g[1]) >= 1;
      assert Sum(g, Slots(w, t)) == Slots(w, t)(g[0]) + (Slots(w, t)(g[1]) + Sum(g[1..][1..], Slots(w, t)));
    } else {
      assert g[1..] == [];
      assert Sum(g[1..], Weight) == 0 && Sum(g[1..], Slots(w, t)) == 0;
      assert Load(g) == Weight(g[0]);
      assert Sum(g, Slots(w, t)) == Slots(w, t)(g[0]);
    }
  }

  /** The heart of the bound: when even the least loaded shard cannot take a file heavier than a third
      of the target, no assignment of all the files meets the target. */
  lemma SlotCount(gs: seq<Group>, files: Group, w: nat, file: TestFile, rest: Group, other: seq<Group>, t: nat)
    requires |gs| > 0 && w == Weight(file) && 3 * w > t
    requires multiset(files) == multiset(Flatten(gs)) + multiset{file} + multiset(rest)
    requires forall k :: 0 <= k < |gs| ==> gs[k] != [] && Load(gs[k]) + w > t
    requires forall k, f :: 0 <= k < |gs| && f in gs[k] ==> Weight(f) >= w
    requires Partitions(other, files, |gs|)
    ensures !AllLoadsWithin(other, t)
  {
    var v := Slots(w, t);
    forall k | 0 <= k < |gs| ensures 2 <= Sum(gs[k], v) {
      SlotsWhenFull(gs[k], w, t);
    }
    ShardsAtLeast(gs, v, 2);
    var dealt := Flatten(gs) + ([file] + rest);
    SumConcat(Flatten(gs), [file] + rest, v);
    assert ([file] + rest)[1..] == rest;
    SumOfMultiset(dealt, Flatten(other), v);
    if AllLoadsWithin(other, t) {
      forall k | 0 <= k < |other| ensures Sum(other[k], v) <= 2 {
        SlotsWithinTarget(other[k], w, t);
      }
      ShardsAtMost(other, v, 2);
      assert false;
    }
  }

  /** The heaviest shard. */
  function Makespan(gs: seq<Group>): (t: nat)
    ensures AllLoadsWithin(gs, t)
    ensures gs != [] ==> exists k :: 0 <= k < |gs| && Load(gs[k]) == t
  {
    if gs == [] then 0
    else
      var rest := Makespan(gs[1..]);
      assert forall k :: 1 <= k < |gs| ==> gs[k] == gs[1..][k - 1];
      if Load(gs[0]) >= rest then Load(gs[0]) else rest
  }

  lemma {:induction false} MemberLoad(g: Group, f: TestFile)
    requires f in g
    ensures Load(g) >= Weight(f)
  {
    if g[0] != f {
      assert f in g[1..];
      MemberLoad(g[1..], f);
    }
  }

  lemma {:induction false} DealtFileLoad(gs: seq<Group>, f: TestFile, t: nat)
    requires f in Flatten(gs) && AllLoadsWithin(gs, t)
    ensures Weight(f) <= t
  {
    if f in gs[0] {
      MemberLoad(gs[0], f);
      assert Load(gs[0]) <= t;
    } else {
      assert AllLoadsWithin(gs[1..], t) by {
        assert forall k :: 0 <= k < |gs[1..]| ==> gs[1..][k] == gs[k + 1];
      }
      DealtFileLoad(gs[1..], f, t);
    }
  }

  /** A load within 4/3 - 1/(3m) of the makespan `t`, cleared of fractions. */
  ghost predicate WithinRatio(m: nat, load: nat, t: nat) {
    3 * m * load <= (4 * m - 1) * t
  }

  /** A load exceeding the average of `total` by at most (m-1)/m of the largest file. */
  ghost predicate NearAverage(m: nat, load: nat, total: nat, largest: nat) {
    m * load <= total + (m - 1) * largest
  }

  /** A greedy step fits the target `t` of another assignment, or places a file of at most a third of it. */
  lemma StepFits(gs: seq<Group>, k: nat, file: TestFile, rest: Group, files: Group, other: seq<Group>, t: nat)
    requires k < |gs| && forall j :: 0 <= j < |gs| ==> Load(gs[k]) <= Load(gs[j])
    requires multiset(files) == multiset(Flatten(gs)) + multiset{file} + multiset(rest)
    requires forall j, f :: 0 <= j < |gs| && f in gs[j] ==> Weight(f) >= Weight(file)
    requires Partitions(other, files, |gs|) && AllLoadsWithin(other, t)
    ensures 3 * Weight(file) <= t || Load(gs[k]) + Weight(file) <= t
  {
    var w := Weight(file);
    if Load(gs[k]) + w > t && 3 * w > t {
      assert file in multiset(files);
      DealtFileLoad(other, file, t);
      forall j | 0 <= j < |gs| ensures gs[j] != [] {
        assert Load(gs[j]) > 0;
      }
      SlotCount(gs, files, w, file, rest, other, t);
      assert false;
    }
  }

  lemma TotalWithin(other: seq<Group>, files: Group, m: nat, t: nat)
    requires Partitions(other, files, m) && AllLoadsWithin(other, t)
    ensures Load(files) <= m * t
  {
    SumOfMultiset(files, Flatten(other), Weight);
    ShardsAtMost(other, Weight, t);
  }

  /** Graham's bound for one greedy step: 3m * (new load) <= (4m - 1) * t, if any assignment stays within `t`. */
  lemma StepWithinBound(gs: seq<Group>, k: nat, file: TestFile, rest: Group, files: Group, other: seq<Group>,
                        load: nat, t: nat)
    requires k < |gs| && forall j :: 0 <= j < |gs| ==> Load(gs[k]) <= Load(gs[j])
    requires multiset(files) == multiset(Flatten(gs)) + multiset{file} + multiset(rest)
    requires forall j, f :: 0 <= j < |gs| && f in gs[j] ==> Weight(f) >= Weight(file)
    requires Partitions(other, files, |gs|) && AllLoadsWithin(other, t)
    requires load == Load(gs[k]) + Weight(file)
    ensures WithinRatio(|gs|, load, t)
  {
    StepFits(gs, k, file, rest, files, other, t);
    StepBelowTarget(gs, k, file, rest, files, other, t);
    BoundArithmetic(|gs|, Load(gs[k]), Weight(file), load, t);
  }

  /** What the average says of the new load, against a bound on any assignment. */
  ghost predicate BelowTarget(m: nat, l: nat, w: nat, t: nat) { m * l + w <= m * t }

  lemma StepBelowTarget(gs: seq<Group>, k: nat, file: TestFile, rest: Group, files: Group, other: seq<Group>, t: nat)
    requires k < |gs| && forall j :: 0 <= j < |gs| ==> Load(gs[k]) <= Load(gs[j])
    requires multiset(files) == multiset(Flatten(gs)) + multiset{file} + multiset(rest)
    requires Partitions(other, files, |gs|) && AllLoadsWithin(other, t)
    ensures BelowTarget(|gs|, Load(gs[k]), Weight(file), t)
  {
    StepBelowAverage(gs, k, file, rest, files);
    TotalWithin(other, files, |gs|, t);
  }

  lemma BoundArithmetic(m: nat, l: nat, w: nat, load: nat, t: nat)
    requires m >= 1 && load == l + w && BelowTarget(m, l, w, t) && (3 * w <= t || l + w <= t)
    ensures WithinRatio(m, load, t)
  {
    Scale(m, l, w, t);
    if 3 * w <= t {
      ScaleLe(m - 1, 3 * w, t);
    } else {
      ScaleLe(m, l + w, t);
    }
  }

  lemma Scale(m: nat, l: nat, w: nat, t: nat)
    requires m >= 1
    ensures 3 * m * (l + w) == 3 * (m * l) + 3 * (m * w) && m * (l + w) == m * l + m * w
    ensures (4 * m - 1) * t == 4 * (m * t) - t
    ensures (m - 1) * (3 * w) == 3 * (m * w) - 3 * w && (m - 1) * t == m * t - t
    ensures t <= m * t
  {
  }

  lemma ScaleLe(m: nat, a: nat, b: nat)
    requires a <= b
    ensures m * a <= m * b
  {
  }

  /** The least loaded shard is at most at the average of what has been dealt. */
  lemma StepBelowAverage(gs: seq<Group>, k: nat, file: TestFile, rest: Group, files: Group)
    requires k < |gs| && forall j :: 0 <= j < |gs| ==> Load(gs[k]) <= Load(gs[j])
    requires multiset(files) == multiset(Flatten(gs)) + multiset{file} + multiset(rest)
    ensures |gs| * Load(gs[k]) + Weight(file) <= Load(files)
  {
    ShardsAtLeast(gs, Weight, Load(gs[k]));
    var dealt := Flatten(gs) + ([file] + rest);
    SumConcat(Flatten(gs), [file] + rest, Weight);
    assert ([file] + rest)[1..] == rest;
    SumOfMultiset(dealt, files, Weight);
  }

  // ----- the scheduler -----

  /** The first of the least loaded shards. */
  function LeastLoaded(weights: seq<nat>): (k: nat)
    requires weights != []
    ensures k < |weights|
    ensures forall j :: 0 <= j < |weights| ==> weights[k] <= weights[j]
    ensures forall j :: 0 <= j < k ==> weights[k] < weights[j]
  {
    if |weights| == 1 then 0
    else
      var rest := LeastLoaded(weights[1..]);
      assert forall j :: 1 <= j < |weights| ==> weights[j] == weights[1..][j - 1];
      if weights[0] <= weights[rest + 1] then 0 else rest + 1
  }

  /** The greedy rule, one file at a time. */
  function Assign(gs: seq<Group>, weights: seq<nat>, rest: Group): seq<Group>
    requires |gs| == |weights| > 0
    decreases |rest|
  {
    if rest == [] then gs
    else
      var k := LeastLoaded(weights);
      Assign(gs[k := gs[k] + [rest[0]]], weights[k := weights[k] + Weight(rest[0])], rest[1..])
  }

  function Schedule(files: Group, count: nat): seq<Group>
    requires count > 0
  {
    Assign(seq(count, i => []), seq(count, i => 0), SortBy(files, HeavierFirst))
  }

  /** The inventory check: enough files, all of them regular. */
  predicate InventoryOk(files: Group, count: int) {
    count >= 1 && |files| >= count && forall f <- files :: f.regular
  }

  /** Every shard is within the ratio of every assignment of the files to the same number of shards. */
  ghost predicate NearOptimal(gs: seq<Group>, files: Group) {
    forall other, k :: Partitions(other, files, |gs|) && 0 <= k < |gs| ==>
      WithinRatio(|gs|, Load(gs[k]), Makespan(other))
  }

  ghost predicate Balanced(gs: seq<Group>, files: Group, largest: nat) {
    forall k :: 0 <= k < |gs| ==> NearAverage(|gs|, Load(gs[k]), Load(files), largest)
  }

  /** A shard stays empty only while no shard has two files. */
  ghost predicate EmptyFirst(gs: seq<Group>) {
    forall j, k :: 0 <= j < |gs| && 0 <= k < |gs| && gs[j] == [] ==> |gs[k]| <= 1
  }

  lemma {:induction false} FlattenLength(gs: seq<Group>)
    ensures (forall k :: 0 <= k < |gs| ==> |gs[k]| <= 1) ==> |Flatten(gs)| <= |gs|
    ensures (forall k :: 0 <= k < |gs| ==> |gs[k]| <= 1) && (exists j :: 0 <= j < |gs| && gs[j] == []) ==>
              |Flatten(gs)| < |gs|
  {
    if gs != [] {
      FlattenLength(gs[1..]);
      assert forall k :: 1 <= k < |gs| ==> gs[k] == gs[1..][k - 1];
      assert forall j :: 0 <= j < |gs| - 1 ==> gs[1..][j] == gs[j + 1];
    }
  }

  /** What the assignment loop keeps: `done` of `files` have been dealt, `weights` are the loads. */
  ghost predicate Dealt(gs: seq<Group>, weights: seq<nat>, done: Group, rest: Group, files: Group) {
    && |gs| == |weights| > 0
    && (forall k :: 0 <= k < |gs| ==> weights[k] == Load(gs[k]))
    && multiset(Flatten(gs)) == multiset(done)
    && multiset(files) == multiset(done) + multiset(rest)
  }

  lemma DealtStep(gs: seq<Group>, weights: seq<nat>, done: Group, rest: Group, files: Group, k: nat)
    requires Dealt(gs, weights, done, rest, files) && rest != [] && k < |gs|
    ensures Dealt(gs[k := gs[k] + [rest[0]]], weights[k := weights[k] + Weight(rest[0])],
                  done + [rest[0]], rest[1..], files)
  {
    FlattenUpdate(gs, k, rest[0]);
    LoadOfUpdate(gs[k], rest[0]);
    MoveFirst(done, rest);
  }

  lemma MoveFirst(done: Group, rest: Group)
    requires rest != []
    ensures multiset(done + [rest[0]]) == multiset(done) + multiset{rest[0]}
    ensures multiset(done + [rest[0]]) + multiset(rest[1..]) == multiset(done) + multiset(rest)
  {
    assert rest == [rest[0]] + rest[1..];
  }

  lemma LoadOfUpdate(g: Group, f: TestFile)
    ensures Load(g + [f]) == Load(g) + Weight(f)
  {
    SumConcat(g, [f], Weight);
    assert Load([f]) == Weight(f);
  }

  /** The bounds the loop keeps on every shard. */
  ghost predicate Bounds(gs: seq<Group>, files: Group, largest: nat) {
    NearOptimal(gs, files) && Balanced(gs, files, largest) && EmptyFirst(gs)
  }

  /** What is dealt so far is at least as heavy as the next file, and the new load is the sum. */
  lemma StepLoads(gs: seq<Group>, weights: seq<nat>, done: Group, rest: Group, files: Group, k: nat)
    requires Dealt(gs, weights, done, rest, files) && rest != [] && k < |gs|
    requires forall f <- done :: Weight(f) >= Weight(rest[0])
    ensures Load(gs[k] + [rest[0]]) == Load(gs[k]) + Weight(rest[0])
    ensures forall j, f :: 0 <= j < |gs| && f in gs[j] ==> Weight(f) >= Weight(rest[0])
    ensures multiset(files) == multiset(Flatten(gs)) + multiset{rest[0]} + multiset(rest[1..])
  {
    SumConcat(gs[k], [rest[0]], Weight);
    assert Load([rest[0]]) == Weight(rest[0]);
    assert rest == [rest[0]] + rest[1..];
    forall j, f | 0 <= j < |gs| && f in gs[j] ensures Weight(f) >= Weight(rest[0]) {
      MemberOfFlatten(gs, j, f);
      assert f in multiset(done);
    }
  }

  lemma NearOptimalStep(gs: seq<Group>, weights: seq<nat>, done: Group, rest: Group, files: Group, k: nat)
    requires Dealt(gs, weights, done, rest, files) && rest != [] && k < |gs|
    requires forall j :: 0 <= j < |gs| ==> weights[k] <= weights[j]
    requires forall f <- done :: Weight(f) >= Weight(rest[0])
    requires NearOptimal(gs, files)
    ensures NearOptimal(gs[k := gs[k] + [rest[0]]], files)
  {
    var hs, file := gs[k := gs[k] + [rest[0]]], rest[0];
    StepLoads(gs, weights, done, rest, files, k);
    forall other, j | Partitions(other, files, |hs|) && 0 <= j < |hs|
      ensures WithinRatio(|hs|, Load(hs[j]), Makespan(other))
    {
      if j == k {
        StepWithinBound(gs, k, file, rest[1..], files, other, Load(hs[k]), Makespan(other));
      } else {
        assert WithinRatio(|gs|, Load(gs[j]), Makespan(other));
      }
    }
  }

  lemma {:induction false} MemberOfFlatten(gs: seq<Group>, j: nat, f: TestFile)
    requires j < |gs| && f in gs[j]
    ensures f in Flatten(gs)
  {
    if j > 0 {
      MemberOfFlatten(gs[1..], j - 1, f);
    }
  }

  lemma NearAverageStep(m: nat, l: nat, w: nat, load: nat, total: nat, largest: nat)
    requires m >= 1 && load == l + w && m * l + w <= total && w <= largest
    ensures NearAverage(m, load, total, largest)
  {
    ScaleLe(m - 1, w, largest);
    assert m * (l + w) == m * l + w + (m - 1) * w;
  }

  lemma BalancedStep(gs: seq<Group>, weights: seq<nat>, done: Group, rest: Group, files: Group, k: nat, largest: nat)
    requires Dealt(gs, weights, done, rest, files) && rest != [] && k < |gs|
    requires forall j :: 0 <= j < |gs| ==> weights[k] <= weights[j]
    requires Weight(rest[0]) <= largest
    requires Balanced(gs, files, largest)
    ensures Balanced(gs[k := gs[k] + [rest[0]]], files, largest)
  {
    var hs := gs[k := gs[k] + [rest[0]]];
    SumConcat(gs[k], [rest[0]], Weight);
    assert Load([rest[0]]) == Weight(rest[0]);
    assert rest == [rest[0]] + rest[1..];
    StepBelowAverage(gs, k, rest[0], rest[1..], files);
    NearAverageStep(|gs|, weights[k], Weight(rest[0]), Load(hs[k]), Load(files), largest);
    forall j | 0 <= j < |hs| ensures NearAverage(|hs|, Load(hs[j]), Load(files), largest) {
      assert j != k ==> NearAverage(|gs|, Load(gs[j]), Load(files), largest);
    }
  }

  lemma EmptyFirstStep(gs: seq<Group>, weights: seq<nat>, k: nat, file: TestFile)
    requires |gs| == |weights| && k < |gs| && forall j :: 0 <= j < |gs| ==> weights[j] == Load(gs[j])
    requires forall j :: 0 <= j < |gs| ==> weights[k] <= weights[j]
    requires EmptyFirst(gs)
    ensures EmptyFirst(gs[k := gs[k] + [file]])
  {
    assert gs[k] == [] || weights[k] > 0;
  }

  /** Every file dealt to exactly one non-empty shard, within the two bounds of greedy scheduling;
      the last check of the source never fires. */
  method PartitionTestFiles(files: Group, count: int) returns (r: Result<seq<Group>>)
    ensures r.Ok? <==> InventoryOk(files, count)
    ensures r.Ok? ==> r.value == Schedule(files, count)
    ensures r.Ok? ==> Partitions(r.value, files, count) && forall g <- r.value :: g != []
    ensures r.Ok? ==> NearOptimal(r.value, files) && Balanced(r.value, files, LargestWeight(files))
  {
    if !InventoryOk(files, count) {
      return Err("Backend test module inventory is unavailable");
    }
    var groups: seq<Group> := seq(count, i => []);
    var weights: seq<nat> := seq(count, i => 0);
    var weighted := SortBy(files, HeavierFirst);
    assert weighted[0..] == weighted;
    StartOfSchedule(groups, weights);
    for i := 0 to |weighted|
      invariant |groups| == |weights| == count
      invariant Assign(groups, weights, weighted[i..]) == Schedule(files, count)
    {
      var shard := LeastLoaded(weights);
      assert weighted[i..][0] == weighted[i] && weighted[i..][1..] == weighted[i + 1..];
      groups := groups[shard := groups[shard] + [weighted[i]]];
      weights := weights[shard := weights[shard] + Weight(weighted[i])];
    }
    ScheduleWithinBounds(files, count);
    if exists g :: g in groups && g == [] {
      assert false;
      return Err("Backend test inventory is too small for requested shards");
    }
    return Ok(groups);
  }

  /** What greedy assignment keeps: what is dealt, what is left in sorted order, and the bounds so far. */
  ghost predicate Underway(gs: seq<Group>, weights: seq<nat>, done: Group, rest: Group, files: Group) {
    && Dealt(gs, weights, done, rest, files)
    && Sorted(done + rest, HeavierFirst)
    && Bounds(gs, files, LargestWeight(files))
  }

  lemma EmptyWithinBounds(gs: seq<Group>, files: Group, largest: nat)
    requires gs != [] && forall k :: 0 <= k < |gs| ==> gs[k] == []
    ensures Bounds(gs, files, largest)
  {
    forall t: nat ensures WithinRatio(|gs|, 0, t) { ScaleLe(4 * |gs| - 1, 0, t); }
    ScaleLe(|gs| - 1, 0, largest);
    assert NearAverage(|gs|, 0, Load(files), largest);
    assert forall k :: 0 <= k < |gs| ==> Load(gs[k]) == 0;
  }

  lemma NoEmptyShard(gs: seq<Group>, files: Group)
    requires EmptyFirst(gs) && multiset(Flatten(gs)) == multiset(files) && |files| >= |gs|
    ensures forall g <- gs :: g != []
  {
    assert |multiset(Flatten(gs))| == |Flatten(gs)| && |multiset(files)| == |files|;
    FlattenLength(gs);
  }

  ghost function LargestWeight(files: Group): (w: nat)
    ensures forall f <- files :: Weight(f) <= w
    ensures files != [] ==> exists f <- files :: Weight(f) == w
  {
    if files == [] then 0
    else
      var rest := LargestWeight(files[1..]);
      assert forall f <- files :: f == files[0] || f in files[1..];
      if Weight(files[0]) >= rest then Weight(files[0]) else rest
  }

  lemma {:induction false} FlattenEmpty(gs: seq<Group>)
    requires forall k :: 0 <= k < |gs| ==> gs[k] == []
    ensures Flatten(gs) == []
  {
    if gs != [] {
      FlattenEmpty(gs[1..]);
    }
  }

  lemma UnderwayStep(gs: seq<Group>, weights: seq<nat>, done: Group, rest: Group, files: Group, k: nat)
    requires Underway(gs, weights, done, rest, files) && rest != []
    requires k < |gs| && forall j :: 0 <= j < |gs| ==> weights[k] <= weights[j]
    ensures Underway(gs[k := gs[k] + [rest[0]]], weights[k := weights[k] + Weight(rest[0])],
                     done + [rest[0]], rest[1..], files)
  {
    var all := done + rest;
    assert forall f <- done :: Weight(f) >= Weight(rest[0]) by {
      assert all[|done|] == rest[0] && forall j :: 0 <= j < |done| ==> all[j] == done[j];
    }
    assert (done + [rest[0]]) + rest[1..] == all;
    assert rest[0] in files by { assert rest[0] in multiset(rest) && rest[0] in multiset(files); }
    DealtStep(gs, weights, done, rest, files, k);
    NearOptimalStep(gs, weights, done, rest, files, k);
    BalancedStep(gs, weights, done, rest, files, k, LargestWeight(files));
    EmptyFirstStep(gs, weights, k, rest[0]);
  }

  lemma {:induction false} AssignKeepsBounds(gs: seq<Group>, weights: seq<nat>, done: Group, rest: Group, files: Group)
    requires Underway(gs, weights, done, rest, files)
    ensures |Assign(gs, weights, rest)| == |gs|
    ensures multiset(Flatten(Assign(gs, weights, rest))) == multiset(files)
    ensures Bounds(Assign(gs, weights, rest), files, LargestWeight(files))
    decreases |rest|
  {
    if rest != [] {
      var k := LeastLoaded(weights);
      UnderwayStep(gs, weights, done, rest, files, k);
      AssignKeepsBounds(gs[k := gs[k] + [rest[0]]], weights[k := weights[k] + Weight(rest[0])],
                        done + [rest[0]], rest[1..], files);
    }
  }

  /** The schedule deals every file once, leaves no shard empty, and is within both bounds. */
  lemma ScheduleWithinBounds(files: Group, count: nat)
    requires 0 < count <= |files|
    ensures var gs := Schedule(files, count);
            && Partitions(gs, files, count) && (forall g <- gs :: g != [])
            && NearOptimal(gs, files) && Balanced(gs, files, LargestWeight(files))
  {
    ScheduleBounds(files, count);
    NoEmptyShard(Schedule(files, count), files);
  }

  function NoGroups(count: nat): (gs: seq<Group>)
    ensures |gs| == count && forall k :: 0 <= k < count ==> gs[k] == []
  {
    seq(count, i => [])
  }

  function NoWeights(count: nat): (weights: seq<nat>)
    ensures |weights| == count && forall k :: 0 <= k < count ==> weights[k] == 0
  {
    seq(count, i => 0)
  }

  lemma ScheduleStart(files: Group, count: nat)
    requires count > 0
    ensures Underway(NoGroups(count), NoWeights(count), [], SortBy(files, HeavierFirst), files)
  {
    var gs := NoGroups(count);
    HeavierFirstOrder();
    SortByCorrect(files, HeavierFirst);
    FlattenEmpty(gs);
    EmptyWithinBounds(gs, files, LargestWeight(files));
    StartUnderway(gs, NoWeights(count), SortBy(files, HeavierFirst), files);
  }

  lemma ScheduleBounds(files: Group, count: nat)
    requires count > 0
    ensures var gs := Schedule(files, count);
            |gs| == count && multiset(Flatten(gs)) == multiset(files) && Bounds(gs, files, LargestWeight(files))
  {
    ScheduleStart(files, count);
    AssignKeepsBounds(NoGroups(count), NoWeights(count), [], SortBy(files, HeavierFirst), files);
  }

  lemma StartUnderway(gs: seq<Group>, weights: seq<nat>, weighted: Group, files: Group)
    requires |gs| == |weights| > 0 && Flatten(gs) == []
    requires forall k :: 0 <= k < |gs| ==> gs[k] == [] && weights[k] == 0
    requires multiset(weighted) == multiset(files) && Sorted(weighted, HeavierFirst)
    requires Bounds(gs, files, LargestWeight(files))
    ensures Underway(gs, weights, [], weighted, files)
  {
    assert [] + weighted == weighted;
  }

  lemma StartOfSchedule(gs: seq<Group>, weights: seq<nat>)
    requires |gs| == |weights| > 0
    requires forall k :: 0 <= k < |gs| ==> gs[k] == [] && weights[k] == 0
    ensures gs == seq(|gs|, i => []) && weights == seq(|gs|, i => 0)
  {
  }

  /** The published bound: the schedule's heaviest shard is within 4/3 - 1/(3m) of any assignment's. */
  lemma LptBound(files: Group, count: nat, other: seq<Group>)
    requires 0 < count <= |files| && Partitions(other, files, count)
    ensures 3 * count * Makespan(Schedule(files, count)) <= (4 * count - 1) * Makespan(other)
  {
    var gs := Schedule(files, count);
    ScheduleWithinBounds(files, count);
    var k :| 0 <= k < |gs| && Load(gs[k]) == Makespan(gs);
    assert WithinRatio(|gs|, Load(gs[k]), Makespan(other));
  }

  /** The schedule's heaviest shard exceeds the average by at most (m - 1)/m of the largest file. */
  lemma BalancedBound(files: Group, count: nat)
    requires 0 < count <= |files|
    ensures count * Makespan(Schedule(files, count)) <= Load(files) + (count - 1) * LargestWeight(files)
  {
    var gs := Schedule(files, count);
    ScheduleWithinBounds(files, count);
    var k :| 0 <= k < |gs| && Load(gs[k]) == Makespan(gs);
    assert NearAverage(|gs|, Load(gs[k]), Load(files), LargestWeight(files));
  }
}
