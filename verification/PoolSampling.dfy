/**
 * Sampling records: each selection narrows the pool by one random gene and cluster after the other.  The
 * random numbers and the fate of each line that is printed are given in advance.
 */
module PoolSampling {
  import opened Text
  import opened Sorting
  import opened Pool

  /** A pass picked a gene and a cluster, leaving a number of records. */
  datatype Step = Step(gene: int, cluster: int, left: nat)

  datatype Line =
    | Oversized(size: int, records: nat)
    | MaxPasses(selection: nat, limit: nat)
    | Picked(selection: nat, step: Step)

  datatype Result<T> = Ok(value: T) | TraceFailed | EmptyPool | NoGenes | BadSize

  /** math/rand: the n-th draw is the n-th number of some sequence, cut to the range asked for. */
  class Random {
    const numbers: nat -> nat
    var drawn: nat

    constructor (numbers: nat -> nat)
      ensures this.numbers == numbers && drawn == 0
    {
      this.numbers, drawn := numbers, 0;
    }

    method Intn(n: nat) returns (k: nat)
      requires n > 0
      modifies this`drawn
      ensures k == numbers(old(drawn)) % n && drawn == old(drawn) + 1
    {
      k := numbers(drawn) % n;
      drawn := drawn + 1;
    }
  }

  /** A destination for printed lines; writing the n-th of them may fail. */
  class Output {
    const breaks: nat -> bool
    var lines: seq<Line>

    constructor (breaks: nat -> bool)
      ensures this.breaks == breaks && lines == []
    {
      this.breaks, lines := breaks, [];
    }

    method Print(line: Line) returns (ok: bool)
      modifies this`lines
      ensures lines == old(lines) + [line] && ok == !breaks(old(|lines|))
    {
      ok := !breaks(|lines|);
      lines := lines + [line];
    }
  }

  /** Of the lines with these numbers none failed, or the last one only. */
  predicate Printed(breaks: nat -> bool, from: nat, to: nat, ok: bool) {
    && from <= to
    && (forall n: nat :: from <= n < to - 1 ==> !breaks(n))
    && (if ok then from < to ==> !breaks(to - 1) else from < to && breaks(to - 1))
  }

  function PickLines(selection: nat, steps: seq<Step>): seq<Line> {
    seq(|steps|, k requires 0 <= k < |steps| => Picked(selection, steps[k]))
  }

  lemma PickFirst(selection: nat, step: Step, rest: seq<Step>)
    ensures PickLines(selection, [step] + rest) == [Picked(selection, step)] + PickLines(selection, rest)
  {
  }

  // ----- narrowing by steps -----

  /** The records that hold all pairs of the steps, in their order. */
  function Narrowed(records: seq<Record>, steps: seq<Step>): seq<Record>
    decreases |steps|
  {
    if steps == [] then records
    else Narrowed(Holding(records, steps[0].gene, steps[0].cluster), steps[1..])
  }

  /** Each step's number is how many records hold its pair and all pairs before it. */
  predicate CountsRight(records: seq<Record>, steps: seq<Step>)
    decreases |steps|
  {
    steps == []
    || (&& steps[0].left == |Holding(records, steps[0].gene, steps[0].cluster)|
        && CountsRight(Holding(records, steps[0].gene, steps[0].cluster), steps[1..]))
  }

  predicate Chosen(steps: seq<Step>, gene: int) {
    exists k :: 0 <= k < |steps| && steps[k].gene == gene
  }

  /** Steps on new genes with the right counts, at most as many as there is room for. */
  ghost predicate Right(current: seq<Record>, used: set<int>, room: nat, steps: seq<Step>) {
    && CountsRight(current, steps) && |steps| <= room
    && (forall k :: 0 <= k < |steps| ==> steps[k].gene !in used)
    && (forall j, k :: 0 <= j < k < |steps| ==> steps[j].gene != steps[k].gene)
  }

  /** The narrowing went on to the end: there is no room left, or no gene with a cluster that is not used up. */
  ghost predicate Complete(current: seq<Record>, used: set<int>, room: nat, steps: seq<Step>) {
    || |steps| == room
    || forall gene :: gene in UnusedGenes(Narrowed(current, steps), used) ==>
         Chosen(steps, gene) || ClustersOf(Narrowed(current, steps), gene) == {}
  }

  /** What is left after some steps: the records of the pool that hold every pair chosen on the way. */
  lemma {:induction false} NarrowedHolds(records: seq<Record>, steps: seq<Step>, record: Record)
    ensures
      record in Narrowed(records, steps)
      <==> record in records && forall k :: 0 <= k < |steps| ==> Holds(record, steps[k].gene, steps[k].cluster)
    decreases |steps|
  {
    if steps != [] {
      var first, rest := steps[0], steps[1..];
      NarrowedHolds(Holding(records, first.gene, first.cluster), rest, record);
      HoldingHas(records, first.gene, first.cluster, record);
      assert forall k :: 0 < k < |steps| ==> steps[k] == rest[k - 1];
      assert forall k :: 0 <= k < |rest| ==> rest[k] == steps[k + 1];
    }
  }

  lemma ClustersShrink(records: seq<Record>, steps: seq<Step>, gene: int)
    ensures ClustersOf(Narrowed(records, steps), gene) <= ClustersOf(records, gene)
  {
    var left := Narrowed(records, steps);
    forall c | c in ClustersOf(left, gene) ensures c in ClustersOf(records, gene) {
      var k :| 0 <= k < |left| && gene in left[k].geneClusters && c in left[k].geneClusters[gene];
      NarrowedHolds(records, steps, left[k]);
      var m :| 0 <= m < |records| && records[m] == left[k];
      assert c in records[m].geneClusters[gene];
    }
  }

  lemma StepShrinks(records: seq<Record>, rest: seq<Record>, used: set<int>, gene: int)
    requires gene in UnusedGenes(records, used) && forall r :: r in rest ==> r in records
    ensures UnusedGenes(rest, used + {gene}) < UnusedGenes(records, used)
  {
    var a, b := UnusedGenes(rest, used + {gene}), UnusedGenes(records, used);
    forall g | g in a ensures g in b {
      var k :| 0 <= k < |rest| && g in rest[k].geneClusters;
      assert rest[k] in records;
      var m :| 0 <= m < |records| && records[m] == rest[k];
      assert g in records[m].geneClusters;
    }
    assert gene !in a;
  }

  lemma ClusterLeaves(records: seq<Record>, gene: int, cluster: int)
    requires cluster in ClustersOf(records, gene)
    ensures Holding(records, gene, cluster) != []
  {
    var k :| 0 <= k < |records| && gene in records[k].geneClusters && cluster in records[k].geneClusters[gene];
    HoldingHas(records, gene, cluster, records[k]);
  }

  lemma UsedMore(records: seq<Record>, used: set<int>, gene: int)
    ensures UnusedGenes(records, used + {gene}) == UnusedGenes(records, used) - {gene}
  {
    forall g ensures g in UnusedGenes(records, used + {gene}) <==> g in UnusedGenes(records, used) - {gene} {
      if g in UnusedGenes(records, used) {
        var k :| 0 <= k < |records| && g in records[k].geneClusters;
        assert g != gene ==> g !in used + {gene};
      }
    }
  }

  /** A gene without clusters is passed over. */
  lemma SkipGene(current: seq<Record>, used: set<int>, gene: int, room: nat, steps: seq<Step>)
    requires ClustersOf(current, gene) == {}
    requires Right(current, used + {gene}, room, steps)
    ensures Right(current, used, room, steps)
    ensures Complete(current, used + {gene}, room, steps) ==> Complete(current, used, room, steps)
  {
    ClustersShrink(current, steps, gene);
    UsedMore(Narrowed(current, steps), used, gene);
  }

  lemma TakeStep(current: seq<Record>, used: set<int>, step: Step, room: nat, less: nat, rest: seq<Step>)
    requires step.gene !in used && step.left == |Holding(current, step.gene, step.cluster)| && room == less + 1
    requires Right(Holding(current, step.gene, step.cluster), used + {step.gene}, less, rest)
    ensures Right(current, used, room, [step] + rest)
    ensures Narrowed(current, [step] + rest) == Narrowed(Holding(current, step.gene, step.cluster), rest)
    ensures
      Complete(Holding(current, step.gene, step.cluster), used + {step.gene}, less, rest) ==>
        Complete(current, used, room, [step] + rest)
  {
    var steps := [step] + rest;
    assert steps[1..] == rest;
    UsedMore(Narrowed(current, steps), used, step.gene);
    assert forall k :: 0 < k < |steps| ==> steps[k] == rest[k - 1];
    assert steps[0] == step;
    forall gene | Chosen(rest, gene) ensures Chosen(steps, gene) {
      var k :| 0 <= k < |rest| && rest[k].gene == gene;
      assert steps[k + 1].gene == gene;
    }
  }

  // ----- which gene, cluster and record a random number picks -----

  /** The number of smaller items: the position in ascending order. */
  ghost function Rank(items: set<int>, x: int): nat {
    |set y | y in items && y < x|
  }

  ghost predicate PickedBy(items: set<int>, x: int, number: nat) {
    x in items && Rank(items, x) == number % |items|
  }

  /** Every gene of every record has a cluster, as in all records made from rows. */
  ghost predicate Clustered(records: seq<Record>) {
    forall record, gene :: record in records && gene in record.geneClusters ==> record.geneClusters[gene] != {}
  }

  /** The step took the gene and the cluster that two numbers in a row pick, in ascending order. */
  ghost predicate StepDrawn(records: seq<Record>, used: set<int>, step: Step, numbers: nat -> nat, at: nat) {
    && UnusedGenes(records, used) != {} && PickedBy(UnusedGenes(records, used), step.gene, numbers(at))
    && ClustersOf(records, step.gene) != {} && PickedBy(ClustersOf(records, step.gene), step.cluster, numbers(at + 1))
  }

  ghost predicate Drawn(records: seq<Record>, used: set<int>, steps: seq<Step>, numbers: nat -> nat, at: nat)
    decreases |steps|
  {
    steps == []
    || (var step := steps[0];
        && StepDrawn(records, used, step, numbers, at)
        && Drawn(Holding(records, step.gene, step.cluster), used + {step.gene}, steps[1..], numbers, at + 2))
  }

  lemma SameSize(s: seq<int>, items: set<int>)
    requires Ascending(s, SMALLER) && Lists(s, items)
    ensures |s| == |items|
    decreases |s|
  {
    if s == [] {
      assert forall x :: x in items ==> x in s;
      assert items == {};
    } else {
      var front, last := s[..|s| - 1], s[|s| - 1];
      assert s == front + [last];
      SameSize(front, items - {last});
    }
  }

  lemma Before(s: seq<int>, i: nat, k: nat)
    requires Ascending(s, SMALLER) && i < |s| && k < |s| && s[k] < s[i]
    ensures k < i
  {
  }

  lemma RankOf(s: seq<int>, items: set<int>, i: nat)
    requires Ascending(s, SMALLER) && Lists(s, items) && i < |s|
    ensures s[i] in items && Rank(items, s[i]) == i
  {
    var smaller := set y | y in items && y < s[i];
    forall y ensures y in s[..i] <==> y in smaller {
      if y in smaller {
        var k :| 0 <= k < |s| && s[k] == y;
        Before(s, i, k);
      }
      if y in s[..i] {
        var k :| 0 <= k < i && s[k] == y;
        assert SMALLER(s[k], s[i]);
      }
    }
    SameSize(s[..i], smaller);
  }

  /** One member of the list, picked by a random number. */
  lemma ListPicks(s: seq<int>, items: set<int>, number: nat)
    requires Ascending(s, SMALLER) && Lists(s, items) && s != []
    ensures items != {} && PickedBy(items, s[number % |s|], number)
  {
    SameSize(s, items);
    RankOf(s, items, number % |s|);
  }

  lemma ClusteredHas(records: seq<Record>, used: set<int>, gene: int)
    requires Clustered(records) && gene in UnusedGenes(records, used)
    ensures ClustersOf(records, gene) != {}
  {
    var k :| 0 <= k < |records| && gene in records[k].geneClusters;
    var cluster := SomeMember(records[k].geneClusters[gene]);
    assert cluster in ClustersOf(records, gene);
  }

  lemma HoldingWithin(records: seq<Record>, gene: int, cluster: int)
    ensures forall r :: r in Holding(records, gene, cluster) ==> r in records
  {
    forall r | r in Holding(records, gene, cluster) ensures r in records {
      HoldingHas(records, gene, cluster, r);
    }
  }

  // ----- the sampler -----

  function Room(passes: nat, passLimit: nat): nat {
    if passes < passLimit then passLimit - passes else 0
  }

  /** The record picked is the one that the last number picks from what is left. */
  ghost predicate PickedLast(left: seq<Record>, record: Record, number: nat) {
    left != [] && record == left[number % |left|]
  }

  lemma NoneUnused(genes: seq<int>, current: seq<Record>, used: set<int>)
    requires Lists(genes, UnusedGenes(current, used)) && genes == []
    ensures Complete(current, used, 0, []) && forall room :: Complete(current, used, room, [])
  {
    assert forall gene :: gene in UnusedGenes(current, used) ==> gene in genes;
  }

  lemma NoCluster(clusters: seq<int>, current: seq<Record>, used: set<int>, gene: int)
    requires Lists(clusters, ClustersOf(current, gene)) && clusters == [] && gene in UnusedGenes(current, used)
    ensures ClustersOf(current, gene) == {} && !Clustered(current)
  {
    assert forall c :: c in ClustersOf(current, gene) ==> c in clusters;
    if Clustered(current) {
      ClusteredHas(current, used, gene);
    }
  }

  lemma DrawnFirst(
    current: seq<Record>, used: set<int>, step: Step, rest: seq<Step>, numbers: nat -> nat, at: nat, from: nat)
    requires StepDrawn(current, used, step, numbers, at) && from == at + 2
    requires Drawn(Holding(current, step.gene, step.cluster), used + {step.gene}, rest, numbers, from)
    ensures Drawn(current, used, [step] + rest, numbers, at)
  {
    assert ([step] + rest)[1..] == rest;
  }

  lemma ClusteredStays(current: seq<Record>, gene: int, cluster: int)
    requires Clustered(current)
    ensures Clustered(Holding(current, gene, cluster))
  {
    HoldingWithin(current, gene, cluster);
  }

  /**
   * What a sampler that started at draw number `at` may return: the record, or an empty pool, or a trace that
   * failed; and the steps that were traced.
   */
  ghost predicate Sampled(
    current: seq<Record>, used: set<int>, room: nat, numbers: nat -> nat, at: nat, end: nat, picked: Result<Record>,
    steps: seq<Step>)
  {
    && at <= end
    && (if current == [] then picked.EmptyPool? else picked.Ok? || picked.TraceFailed?)
    && Right(current, used, room, steps)
    && (picked.Ok? ==>
          && at < end && Complete(current, used, room, steps)
          && PickedLast(Narrowed(current, steps), picked.value, numbers(end - 1)))
    && (Clustered(current) ==>
          Drawn(current, used, steps, numbers, at) && (picked.Ok? ==> end == at + 2 * |steps| + 1))
  }

  /** Exactly the steps were printed, and only the last of these lines can have failed. */
  ghost predicate Logged(
    breaks: nat -> bool, before: seq<Line>, after: seq<Line>, selection: nat, steps: seq<Step>, ok: bool)
  {
    after == before + PickLines(selection, steps) && Printed(breaks, |before|, |after|, ok)
  }

  lemma LogFirst(
    breaks: nat -> bool, before: seq<Line>, after: seq<Line>, selection: nat, step: Step, rest: seq<Step>, ok: bool)
    requires !breaks(|before|) && Logged(breaks, before + [Picked(selection, step)], after, selection, rest, ok)
    ensures Logged(breaks, before, after, selection, [step] + rest, ok)
  {
    PickFirst(selection, step, rest);
    Assoc(before, [Picked(selection, step)], PickLines(selection, rest));
  }

  lemma LogOne(breaks: nat -> bool, before: seq<Line>, selection: nat, step: Step)
    requires breaks(|before|)
    ensures Logged(breaks, before, before + [Picked(selection, step)], selection, [step], false)
  {
    PickFirst(selection, step, []);
    assert [Picked(selection, step)] + [] == [Picked(selection, step)] && [step] + [] == [step];
  }

  lemma LogNone(breaks: nat -> bool, before: seq<Line>, selection: nat)
    ensures Logged(breaks, before, before, selection, [], true)
  {
    assert before + [] == before;
  }

  lemma Stops(current: seq<Record>, used: set<int>, genes: seq<int>, room: nat, numbers: nat -> nat, at: nat)
    requires current != [] && Lists(genes, UnusedGenes(current, used)) && (genes == [] || room == 0)
    ensures Sampled(current, used, room, numbers, at, at + 1, Ok(current[numbers(at) % |current|]), [])
  {
    if genes == [] {
      NoneUnused(genes, current, used);
    }
  }

  lemma Skips(
    current: seq<Record>, used: set<int>, gene: int, next: set<int>, clusters: seq<int>, room: nat,
    numbers: nat -> nat, at: nat, from: nat, end: nat, picked: Result<Record>, steps: seq<Step>)
    requires Lists(clusters, ClustersOf(current, gene)) && clusters == [] && gene in UnusedGenes(current, used)
    requires next == used + {gene} && from == at + 1
    requires Sampled(current, next, room, numbers, from, end, picked, steps)
    ensures Sampled(current, used, room, numbers, at, end, picked, steps)
  {
    NoCluster(clusters, current, used, gene);
    SkipGene(current, used, gene, room, steps);
  }

  lemma Goes(
    current: seq<Record>, used: set<int>, step: Step, filtered: seq<Record>, next: set<int>, room: nat, less: nat,
    numbers: nat -> nat, at: nat, from: nat, end: nat, picked: Result<Record>, rest: seq<Step>)
    requires StepDrawn(current, used, step, numbers, at)
    requires filtered == Holding(current, step.gene, step.cluster) && step.left == |filtered|
    requires next == used + {step.gene} && room == less + 1 && from == at + 2
    requires Sampled(filtered, next, less, numbers, from, end, picked, rest)
    ensures Sampled(current, used, room, numbers, at, end, picked, [step] + rest)
  {
    ClusterLeaves(current, step.gene, step.cluster);
    TakeStep(current, used, step, room, less, rest);
    if Clustered(current) {
      ClusteredStays(current, step.gene, step.cluster);
      DrawnFirst(current, used, step, rest, numbers, at, from);
    }
  }

  /** A random member of a sorted list. */
  method Pick(s: seq<int>, ghost items: set<int>, rng: Random) returns (x: int)
    requires Ascending(s, SMALLER) && Lists(s, items) && s != []
    modifies rng`drawn
    ensures items != {} && PickedBy(items, x, rng.numbers(old(rng.drawn))) && rng.drawn == old(rng.drawn) + 1
  {
    ListPicks(s, items, rng.numbers(rng.drawn));
    var k := rng.Intn(|s|);
    x := s[k];
  }

  lemma Shrinks(
    current: seq<Record>, filtered: seq<Record>, used: set<int>, next: set<int>, step: Step, numbers: nat -> nat,
    at: nat)
    requires StepDrawn(current, used, step, numbers, at) && next == used + {step.gene}
    requires filtered == Holding(current, step.gene, step.cluster)
    ensures filtered != [] && UnusedGenes(filtered, next) < UnusedGenes(current, used)
  {
    ClusterLeaves(current, step.gene, step.cluster);
    HoldingWithin(current, step.gene, step.cluster);
    StepShrinks(current, filtered, used, step.gene);
  }

  /** The rest of a step whose gene the last number has picked. */
  method Narrow(current: seq<Record>, used: set<int>, gene: int, clusters: seq<int>, rng: Random)
    returns (step: Step, filtered: seq<Record>)
    requires rng.drawn > 0 && UnusedGenes(current, used) != {}
    requires PickedBy(UnusedGenes(current, used), gene, rng.numbers(rng.drawn - 1))
    requires clusters != [] && Ascending(clusters, SMALLER) && Lists(clusters, ClustersOf(current, gene))
    modifies rng`drawn
    ensures step.gene == gene && StepDrawn(current, used, step, rng.numbers, old(rng.drawn) - 1)
    ensures filtered == Holding(current, gene, step.cluster) && step.left == |filtered|
    ensures filtered != [] && UnusedGenes(filtered, used + {gene}) < UnusedGenes(current, used)
    ensures rng.drawn == old(rng.drawn) + 1
  {
    var cluster := Pick(clusters, ClustersOf(current, gene), rng);
    filtered := FilterPoolRecords(current, gene, cluster);
    step := Step(gene, cluster, |filtered|);
    Shrinks(current, filtered, used, used + {gene}, step, rng.numbers, old(rng.drawn) - 1);
  }

  /**
   * Narrows the records by one random gene and cluster after the other, then takes any record left.  The
   * set of unused genes shrinks strictly with every call.
   */
  method SampleOne(
    current: seq<Record>, used: set<int>, selection: nat, passes: nat, passLimit: nat, rng: Random, log: Output)
    returns (picked: Result<Record>, steps: seq<Step>)
    modifies rng`drawn, log`lines
    ensures
      Sampled(current, used, Room(passes, passLimit), rng.numbers, old(rng.drawn), rng.drawn, picked, steps)
    ensures Logged(log.breaks, old(log.lines), log.lines, selection, steps, !picked.TraceFailed?)
    decreases UnusedGenes(current, used)
  {
    LogNone(log.breaks, log.lines, selection);
    if |current| == 0 {
      return EmptyPool, [];
    }
    ghost var room, numbers, at := Room(passes, passLimit), rng.numbers, rng.drawn;
    var genes := AvailableGenes(current, used);
    if |genes| == 0 || passes >= passLimit {
      Stops(current, used, genes, room, numbers, at);
      var k := rng.Intn(|current|);
      return Ok(current[k]), [];
    }
    var gene := Pick(genes, UnusedGenes(current, used), rng);
    var nextUsed := used + {gene};
    ghost var from := rng.drawn;
    var clusters := AvailableClusters(current, gene);
    if |clusters| == 0 {
      StepShrinks(current, current, used, gene);
      picked, steps := SampleOne(current, nextUsed, selection, passes, passLimit, rng, log);
      Skips(current, used, gene, nextUsed, clusters, room, numbers, at, from, rng.drawn, picked, steps);
      return;
    }
    var step, filtered := Narrow(current, used, gene, clusters, rng);
    var ok := log.Print(Picked(selection, step));
    if !ok {
      LogOne(log.breaks, old(log.lines), selection, step);
      GoesNoFurther(current, used, step, room, numbers, at);
      return TraceFailed, [step];
    }
    from := rng.drawn;
    var rest;
    picked, rest := SampleOne(filtered, nextUsed, selection, passes + 1, passLimit, rng, log);
    steps := [step] + rest;
    Goes(
      current, used, step, filtered, nextUsed, room, Room(passes + 1, passLimit), numbers, at, from, rng.drawn, picked,
      rest);
    LogFirst(log.breaks, old(log.lines), log.lines, selection, step, rest, !picked.TraceFailed?);
  }

  lemma GoesNoFurther(
    current: seq<Record>, used: set<int>, step: Step, room: nat, numbers: nat -> nat, at: nat)
    requires room > 0 && StepDrawn(current, used, step, numbers, at)
    requires step.left == |Holding(current, step.gene, step.cluster)|
    ensures Sampled(current, used, room, numbers, at, at + 2, TraceFailed, [step])
  {
    ClusterLeaves(current, step.gene, step.cluster);
    Goes(
      current, used, step, Holding(current, step.gene, step.cluster), used + {step.gene}, room, room - 1, numbers, at,
      at + 2, at + 2, TraceFailed, []);
    assert [step] + [] == [step];
  }

  // ----- many selections -----

  /** One selection: the limit drawn for it, and its steps. */
  datatype Pass = Pass(limit: nat, steps: seq<Step>)

  /**
   * A selection: at least one step and at most as many as its limit, fewer only when every gene left was
   * chosen; and a record that holds every pair chosen.
   */
  ghost predicate GoodPick(available: seq<Record>, record: Record, pass: Pass) {
    var steps := pass.steps;
    && 1 <= |steps| <= pass.limit <= |UnusedGenes(available, {})|
    && (|steps| < pass.limit ==>
          forall gene :: gene in UnusedGenes(Narrowed(available, steps), {}) ==> Chosen(steps, gene))
    && record in available && CountsRight(available, steps)
    && (forall k :: 0 <= k < |steps| ==> Holds(record, steps[k].gene, steps[k].cluster))
    && (forall j, k :: 0 <= j < k < |steps| ==> steps[j].gene != steps[k].gene)
  }

  /** The numbers from one on picked the limit, the gene and the cluster of each step, and the record. */
  ghost predicate PassDrawn(available: seq<Record>, record: Record, pass: Pass, numbers: nat -> nat, at: nat) {
    && UnusedGenes(available, {}) != {} && pass.limit == numbers(at) % |UnusedGenes(available, {})| + 1
    && Drawn(available, {}, pass.steps, numbers, at + 1)
    && PickedLast(Narrowed(available, pass.steps), record, numbers(at + 2 * |pass.steps| + 1))
  }

  function PassLines(selection: nat, pass: Pass): seq<Line> {
    [MaxPasses(selection, pass.limit)] + PickLines(selection, pass.steps)
  }

  /** The lines of all passes, which are numbered from one. */
  function AllLines(passes: seq<Pass>): seq<Line> {
    if passes == [] then []
    else AllLines(passes[..|passes| - 1]) + PassLines(|passes|, passes[|passes| - 1])
  }

  /** How many numbers some whole selections take. */
  function NumbersTaken(passes: seq<Pass>): nat {
    if passes == [] then 0
    else NumbersTaken(passes[..|passes| - 1]) + 2 * |passes[|passes| - 1].steps| + 2
  }

  lemma StepsTaken(
    available: seq<Record>, pass: Pass, room: nat, numbers: nat -> nat, at: nat, from: nat, end: nat,
    picked: Result<Record>)
    requires Clustered(available) && picked.Ok? && UnusedGenes(available, {}) != {}
    requires pass.limit == numbers(at) % |UnusedGenes(available, {})| + 1 && room == pass.limit && from == at + 1
    requires Sampled(available, {}, room, numbers, from, end, picked, pass.steps)
    ensures GoodPick(available, picked.value, pass) && PassDrawn(available, picked.value, pass, numbers, at)
    ensures end == at + 2 * |pass.steps| + 2
  {
    var steps := pass.steps;
    NarrowedHolds(available, steps, picked.value);
    forall gene | gene in UnusedGenes(Narrowed(available, steps), {})
      ensures ClustersOf(Narrowed(available, steps), gene) != {}
    {
      NarrowedClustered(available, steps);
      ClusteredHas(Narrowed(available, steps), {}, gene);
    }
    FirstTaken(available, steps, pass.limit);
  }

  lemma FirstTaken(available: seq<Record>, steps: seq<Step>, limit: nat)
    requires UnusedGenes(available, {}) != {} && limit > 0
    requires
      |steps| < limit ==> forall gene :: gene in UnusedGenes(Narrowed(available, steps), {}) ==> Chosen(steps, gene)
    ensures steps != []
  {
    var gene := SomeMember(UnusedGenes(available, {}));
    assert Narrowed(available, []) == available && gene in UnusedGenes(Narrowed(available, []), {});
  }

  lemma NarrowedClustered(records: seq<Record>, steps: seq<Step>)
    requires Clustered(records)
    ensures Clustered(Narrowed(records, steps))
  {
    forall record | record in Narrowed(records, steps) ensures record in records {
      NarrowedHolds(records, steps, record);
    }
  }

  lemma PassLogged(breaks: nat -> bool, before: seq<Line>, after: seq<Line>, selection: nat, pass: Pass, ok: bool)
    requires !breaks(|before|)
    requires Logged(breaks, before + [MaxPasses(selection, pass.limit)], after, selection, pass.steps, ok)
    ensures after == before + PassLines(selection, pass) && Printed(breaks, |before|, |after|, ok)
  {
    Assoc(before, [MaxPasses(selection, pass.limit)], PickLines(selection, pass.steps));
  }

  lemma PassUnlogged(breaks: nat -> bool, before: seq<Line>, selection: nat, limit: nat)
    requires breaks(|before|)
    ensures
      var after := before + [MaxPasses(selection, limit)];
      after == before + PassLines(selection, Pass(limit, [])) && Printed(breaks, |before|, |after|, false)
  {
    assert [MaxPasses(selection, limit)] + PickLines(selection, []) == [MaxPasses(selection, limit)];
  }

  /** One turn of the selection loop. */
  method SampleNext(available: seq<Record>, selection: nat, rng: Random, log: Output)
    returns (picked: Result<Record>, pass: Pass)
    requires available != [] && Clustered(available)
    modifies rng`drawn, log`lines
    ensures picked.Ok? || picked.NoGenes? || picked.TraceFailed?
    ensures picked.NoGenes? <==> UnusedGenes(available, {}) == {}
    ensures picked.Ok? ==> GoodPick(available, picked.value, pass)
    ensures picked.Ok? ==> PassDrawn(available, picked.value, pass, rng.numbers, old(rng.drawn))
    ensures picked.Ok? ==> rng.drawn == old(rng.drawn) + 2 * |pass.steps| + 2
    ensures log.lines == old(log.lines) + if picked.NoGenes? then [] else PassLines(selection, pass)
    ensures Printed(log.breaks, old(|log.lines|), |log.lines|, !picked.TraceFailed?)
  {
    ghost var at := rng.drawn;
    var genes := AvailableGenes(available, {});
    SameSize(genes, UnusedGenes(available, {}));
    if |genes| == 0 {
      assert log.lines + [] == log.lines;
      return NoGenes, Pass(0, []);
    }
    var n := rng.Intn(|genes|);
    var limit := n + 1;
    assert genes[0] in UnusedGenes(available, {});
    var ok := log.Print(MaxPasses(selection, limit));
    if !ok {
      PassUnlogged(log.breaks, old(log.lines), selection, limit);
      return TraceFailed, Pass(limit, []);
    }
    ghost var from := rng.drawn;
    var steps;
    picked, steps := SampleOne(available, {}, selection, 0, limit, rng, log);
    pass := Pass(limit, steps);
    PassLogged(log.breaks, old(log.lines), log.lines, selection, pass, !picked.TraceFailed?);
    if picked.Ok? {
      StepsTaken(available, pass, Room(0, limit), rng.numbers, at, from, rng.drawn, picked);
    }
  }

  lemma LinesNext(passes: seq<Pass>, pass: Pass)
    ensures AllLines(passes + [pass]) == AllLines(passes) + PassLines(|passes| + 1, pass)
    ensures NumbersTaken(passes + [pass]) == NumbersTaken(passes) + 2 * |pass.steps| + 2
  {
    assert (passes + [pass])[..|passes|] == passes;
  }

  /** Selection k is good, and drawn with the numbers behind those of the selections before. */
  ghost predicate PickedAt(
    available: seq<Record>, records: seq<Record>, passes: seq<Pass>, numbers: nat -> nat, at: nat, k: nat)
    requires k < |records| && k < |passes|
  {
    && GoodPick(available, records[k], passes[k])
    && PassDrawn(available, records[k], passes[k], numbers, at + NumbersTaken(passes[..k]))
  }

  ghost predicate GoodPicks(
    available: seq<Record>, records: seq<Record>, passes: seq<Pass>, numbers: nat -> nat, at: nat)
  {
    && |records| == |passes|
    && forall k :: 0 <= k < |passes| ==> PickedAt(available, records, passes, numbers, at, k)
  }

  lemma PickKept(
    available: seq<Record>, records: seq<Record>, passes: seq<Pass>, record: Record, pass: Pass, numbers: nat -> nat,
    at: nat, k: nat)
    requires k < |records| && k < |passes| && PickedAt(available, records, passes, numbers, at, k)
    ensures PickedAt(available, records + [record], passes + [pass], numbers, at, k)
  {
    assert (passes + [pass])[..k] == passes[..k];
  }

  lemma PickAdded(
    available: seq<Record>, records: seq<Record>, passes: seq<Pass>, record: Record, pass: Pass, numbers: nat -> nat,
    at: nat, from: nat)
    requires |records| == |passes| && from == at + NumbersTaken(passes)
    requires GoodPick(available, record, pass) && PassDrawn(available, record, pass, numbers, from)
    ensures PickedAt(available, records + [record], passes + [pass], numbers, at, |passes|)
  {
    assert (passes + [pass])[..|passes|] == passes;
  }

  lemma GoodNext(
    available: seq<Record>, records: seq<Record>, passes: seq<Pass>, record: Record, pass: Pass, numbers: nat -> nat,
    at: nat, from: nat)
    requires GoodPicks(available, records, passes, numbers, at) && from == at + NumbersTaken(passes)
    requires GoodPick(available, record, pass) && PassDrawn(available, record, pass, numbers, from)
    ensures GoodPicks(available, records + [record], passes + [pass], numbers, at)
  {
    var records1, passes1 := records + [record], passes + [pass];
    forall k | 0 <= k < |passes1| ensures PickedAt(available, records1, passes1, numbers, at, k) {
      if k < |passes| {
        PickKept(available, records, passes, record, pass, numbers, at, k);
      } else {
        PickAdded(available, records, passes, record, pass, numbers, at, from);
      }
    }
  }

  lemma PrintedOn(breaks: nat -> bool, from: nat, mid: nat, to: nat, ok: bool)
    requires Printed(breaks, from, mid, true) && Printed(breaks, mid, to, ok)
    ensures Printed(breaks, from, to, ok)
  {
  }

  /** The selection loop. */
  method Draw(available: seq<Record>, size: nat, rng: Random, log: Output)
    returns (selected: Result<seq<Record>>, passes: seq<Pass>)
    requires available != [] && Clustered(available) && UnusedGenes(available, {}) != {}
    modifies rng`drawn, log`lines
    ensures selected.Ok? || selected.TraceFailed?
    ensures selected.Ok? ==> |selected.value| == size
    ensures selected.Ok? ==> GoodPicks(available, selected.value, passes, rng.numbers, old(rng.drawn))
    ensures selected.TraceFailed? ==> |passes| <= size
    ensures log.lines == old(log.lines) + AllLines(passes)
    ensures Printed(log.breaks, old(|log.lines|), |log.lines|, !selected.TraceFailed?)
  {
    ghost var at := rng.drawn;
    var records := [];
    passes := [];
    assert log.lines + [] == log.lines;
    while |records| < size
      invariant |records| == |passes| <= size
      invariant GoodPicks(available, records, passes, rng.numbers, at)
      invariant rng.drawn == at + NumbersTaken(passes)
      invariant log.lines == old(log.lines) + AllLines(passes)
      invariant Printed(log.breaks, old(|log.lines|), |log.lines|, true)
    {
      ghost var from, mid := rng.drawn, |log.lines|;
      var picked, pass := SampleNext(available, |records| + 1, rng, log);
      LinesNext(passes, pass);
      Assoc(old(log.lines), AllLines(passes), PassLines(|passes| + 1, pass));
      PrintedOn(log.breaks, old(|log.lines|), mid, |log.lines|, !picked.TraceFailed?);
      if !picked.Ok? {
        return TraceFailed, passes + [pass];
      }
      GoodNext(available, records, passes, picked.value, pass, rng.numbers, at, from);
      records, passes := records + [picked.value], passes + [pass];
    }
    selected := Ok(records);
  }

  lemma RecordsUsable(rows: seq<Row>)
    requires rows != []
    ensures Exact(Collapsed(rows), rows)
    ensures Records(Collapsed(rows)) != [] && UnusedGenes(Records(Collapsed(rows)), {}) != {}
  {
    CollapsedExact(rows);
    var found, key := Collapsed(rows), Key(rows[0]);
    assert FirstRow(rows, key) == 0;
    assert key in found.order;
    var k :| 0 <= k < |found.order| && found.order[k] == key;
    assert Entry(found.byPair[key], rows, key) && RowWith(rows, key, rows[0].gene, rows[0].cluster);
    assert Holds(Records(found)[k], rows[0].gene, rows[0].cluster);
    GeneUnused(Records(found), {}, k, rows[0].gene);
  }

  lemma GeneUnused(records: seq<Record>, used: set<int>, k: nat, gene: int)
    requires k < |records| && gene in records[k].geneClusters && gene !in used
    ensures gene in UnusedGenes(records, used)
  {
  }

  lemma RecordsClustered(rows: seq<Row>)
    ensures Exact(Collapsed(rows), rows) && Clustered(Records(Collapsed(rows)))
  {
    CollapsedExact(rows);
    var found := Collapsed(rows);
    var records := Records(found);
    forall record, gene | record in records && gene in record.geneClusters ensures record.geneClusters[gene] != {} {
      var k :| 0 <= k < |records| && records[k] == record;
      assert Entry(found.byPair[found.order[k]], rows, found.order[k]);
    }
  }

  function WarningLines(size: int, records: nat): seq<Line> {
    if size > records then [Oversized(size, records)] else []
  }

  /**
   * Draws `size` records with replacement.  On rows from the loader, of which there is at least one, only
   * a line that cannot be printed stops it: it never runs out of records or genes.
   */
  method SamplePoolRecords(rows: seq<Row>, size: int, rng: Random, warnings: Output, log: Output)
    returns (selected: Result<seq<Record>>, passes: seq<Pass>)
    modifies rng`drawn, warnings`lines, log`lines
    ensures selected.BadSize? <==> size <= 0
    ensures selected.EmptyPool? <==> size > 0 && rows == []
    ensures !selected.NoGenes? && Exact(Collapsed(rows), rows)
    ensures selected.Ok? ==> |selected.value| == size
    ensures selected.Ok? ==>
      GoodPicks(Records(Collapsed(rows)), selected.value, passes, rng.numbers, old(rng.drawn))
    ensures
      var warned := if size > 0 && rows != [] then WarningLines(size, |Records(Collapsed(rows))|) else [];
      var failed := warned != [] && warnings.breaks(old(|warnings.lines|));
      && (warnings != log ==> warnings.lines == old(warnings.lines) + warned)
      && log.lines == old(log.lines) + (if warnings == log then warned else []) + AllLines(passes)
      && (failed ==> selected.TraceFailed? && passes == [])
      && (!failed ==>
            Printed(log.breaks, |log.lines| - |AllLines(passes)|, |log.lines|, !selected.TraceFailed?))
  {
    RecordsClustered(rows);
    passes := [];
    NothingAdded(log.lines);
    NothingAdded(warnings.lines);
    if size <= 0 {
      return BadSize, [];
    }
    var available := CollapsePoolRows(rows);
    if |available| == 0 {
      if rows != [] {
        RecordsUsable(rows);
      }
      return EmptyPool, [];
    }
    RecordsUsable(rows);
    if size > |available| {
      var ok := warnings.Print(Oversized(size, |available|));
      if !ok {
        NothingAdded(log.lines);
        return TraceFailed, [];
      }
    }
    selected, passes := Draw(available, size, rng, log);
  }

  lemma NothingAdded(lines: seq<Line>)
    ensures lines + [] == lines && lines + AllLines([]) == lines
  {
  }
}
