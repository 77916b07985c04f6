/** Planning the line-extraction jobs: which type batches of the solver get a
    job, where each job's lines go in the output, how large a job may be, and
    how an oversized job is split into sub-jobs that tile it. */
module JobPlanning {
  import opened Arith
  import opened LineExtraction

  datatype Option<T> = None | Some(value: T)

  /** The extractor table, indexed by constraint type id; `None` for a type
      without a registered extractor. */
  type ExtractorTable = seq<Option<TypeLineExtractor>>

  /** The solver's storage: sets of batches of type batches. */
  datatype ConstraintBatch = ConstraintBatch(typeBatches: seq<TypeBatch>)
  datatype ConstraintSet = ConstraintSet(isAllocated: bool, batches: seq<ConstraintBatch>)

  /** `ConstraintLineExtractor.jobsPerThread`. */
  const JobsPerThread: nat := 4
  /** The cap on a job's constraint count. */
  const JobSizeCap: nat := 32

  /** `ThreadJob`: a range of one type batch's slots and where its lines go. */
  datatype ThreadJob = ThreadJob(
    setIndex: nat,
    batchIndex: nat,
    typeBatchIndex: nat,
    constraintStart: nat,
    constraintCount: nat,
    lineStart: nat,
    linesPerConstraint: nat,
    jobLines: seq<LineInstance>)

  /** What the planner shows: `NarrowPhase.IsContactConstraintType` and the two
      switches. */
  datatype Filter = Filter(isContact: nat -> bool, showConstraints: bool, showContacts: bool)

  /** A type id gets a job when an extractor is registered for it and its kind
      (contact or not) is switched on. */
  predicate Shown(table: ExtractorTable, filter: Filter, typeId: nat)
  {
    typeId < |table| && table[typeId].Some?
    && ((filter.isContact(typeId) && filter.showContacts) || (!filter.isContact(typeId) && filter.showConstraints))
  }

  /** A type batch chosen by the planner: where it is, its constraint count and
      its extractor's lines per constraint. */
  datatype Site = Site(setIndex: nat, batchIndex: nat, typeBatchIndex: nat, constraintCount: nat, linesPerConstraint: nat)

  /** `x` describes type batch `t` of `typeBatches`, and that batch is shown. */
  predicate SiteFor(table: ExtractorTable, filter: Filter, typeBatches: seq<TypeBatch>, x: Site)
  {
    x.typeBatchIndex < |typeBatches|
    && Shown(table, filter, typeBatches[x.typeBatchIndex].typeId)
    && x.constraintCount == typeBatches[x.typeBatchIndex].constraintCount
    && x.linesPerConstraint == table[typeBatches[x.typeBatchIndex].typeId].value.linesPerConstraint
  }

  /** `x` describes a shown type batch of an allocated set of `sets`. */
  predicate Selected(table: ExtractorTable, filter: Filter, sets: seq<ConstraintSet>, x: Site)
  {
    x.setIndex < |sets| && sets[x.setIndex].isAllocated
    && x.batchIndex < |sets[x.setIndex].batches|
    && SiteFor(table, filter, sets[x.setIndex].batches[x.batchIndex].typeBatches, x)
  }

  /** The sites the planner picks among the first `n` type batches of batch
      `batchIndex` of set `setIndex`, in order. */
  function TypeBatchSites(table: ExtractorTable, filter: Filter, setIndex: nat, batchIndex: nat,
                          typeBatches: seq<TypeBatch>, n: nat): seq<Site>
    requires n <= |typeBatches|
  {
    if n == 0 then []
    else
      TypeBatchSites(table, filter, setIndex, batchIndex, typeBatches, n - 1)
      + SitesOf(table, filter, setIndex, batchIndex, typeBatches, n - 1)
  }

  /** The site type batch `t` contributes: one when its type is shown,
      none otherwise. */
  function SitesOf(table: ExtractorTable, filter: Filter, setIndex: nat, batchIndex: nat,
                   typeBatches: seq<TypeBatch>, t: nat): seq<Site>
    requires t < |typeBatches|
  {
    var tb := typeBatches[t];
    if Shown(table, filter, tb.typeId)
    then [Site(setIndex, batchIndex, t, tb.constraintCount, table[tb.typeId].value.linesPerConstraint)]
    else []
  }

  /** The sites picked among the first `n` batches of set `setIndex`. */
  function BatchSites(table: ExtractorTable, filter: Filter, setIndex: nat, batches: seq<ConstraintBatch>, n: nat)
    : seq<Site>
    requires n <= |batches|
  {
    if n == 0 then []
    else
      BatchSites(table, filter, setIndex, batches, n - 1)
      + TypeBatchSites(table, filter, setIndex, n - 1, batches[n - 1].typeBatches, |batches[n - 1].typeBatches|)
  }

  /** The sites picked among the first `n` sets; unallocated sets are skipped. */
  function SetSites(table: ExtractorTable, filter: Filter, sets: seq<ConstraintSet>, n: nat): seq<Site>
    requires n <= |sets|
  {
    if n == 0 then []
    else
      SetSites(table, filter, sets, n - 1)
      + (if sets[n - 1].isAllocated then BatchSites(table, filter, n - 1, sets[n - 1].batches, |sets[n - 1].batches|)
         else [])
  }

  /** Every site the planner picks, in walk order. */
  function PlannedSites(table: ExtractorTable, filter: Filter, sets: seq<ConstraintSet>): seq<Site>
  {
    SetSites(table, filter, sets, |sets|)
  }

  lemma {:induction false} TypeBatchSitesMembers(table: ExtractorTable, filter: Filter, setIndex: nat, batchIndex: nat,
                                                 typeBatches: seq<TypeBatch>, n: nat, x: Site)
    requires n <= |typeBatches|
    ensures x in TypeBatchSites(table, filter, setIndex, batchIndex, typeBatches, n)
            <==> x.setIndex == setIndex && x.batchIndex == batchIndex && x.typeBatchIndex < n
                 && SiteFor(table, filter, typeBatches, x)
  {
    if n > 0 {
      TypeBatchSitesMembers(table, filter, setIndex, batchIndex, typeBatches, n - 1, x);
    }
  }

  lemma {:induction false} BatchSitesMembers(table: ExtractorTable, filter: Filter, setIndex: nat,
                                             batches: seq<ConstraintBatch>, n: nat, x: Site)
    requires n <= |batches|
    ensures x in BatchSites(table, filter, setIndex, batches, n)
            <==> x.setIndex == setIndex && x.batchIndex < n
                 && SiteFor(table, filter, batches[x.batchIndex].typeBatches, x)
  {
    if n > 0 {
      BatchSitesMembers(table, filter, setIndex, batches, n - 1, x);
      var typeBatches := batches[n - 1].typeBatches;
      TypeBatchSitesMembers(table, filter, setIndex, n - 1, typeBatches, |typeBatches|, x);
    }
  }

  lemma {:induction false} SetSitesMembers(table: ExtractorTable, filter: Filter, sets: seq<ConstraintSet>, n: nat,
                                           x: Site)
    requires n <= |sets|
    ensures x in SetSites(table, filter, sets, n) <==> x.setIndex < n && Selected(table, filter, sets, x)
  {
    if n > 0 {
      SetSitesMembers(table, filter, sets, n - 1, x);
      BatchSitesMembers(table, filter, n - 1, sets[n - 1].batches, |sets[n - 1].batches|, x);
    }
  }

  /** The planner picks exactly the shown type batches of the allocated sets:
      a site is planned if and only if it describes one of them. */
  lemma PlannedSitesAreSelected(table: ExtractorTable, filter: Filter, sets: seq<ConstraintSet>, x: Site)
    ensures x in PlannedSites(table, filter, sets) <==> Selected(table, filter, sets, x)
  {
    SetSitesMembers(table, filter, sets, |sets|, x);
  }

  /** Walk order: by set, then batch, then type batch. */
  predicate Precedes(x: Site, y: Site)
  {
    x.setIndex < y.setIndex
    || (x.setIndex == y.setIndex && x.batchIndex < y.batchIndex)
    || (x.setIndex == y.setIndex && x.batchIndex == y.batchIndex && x.typeBatchIndex < y.typeBatchIndex)
  }

  predicate Ascending(sites: seq<Site>)
  {
    forall i, j :: 0 <= i < j < |sites| ==> Precedes(sites[i], sites[j])
  }

  /** Joining two ascending runs, the first wholly before the second, is ascending. */
  lemma AscendingJoin(a: seq<Site>, b: seq<Site>)
    requires Ascending(a) && Ascending(b)
    requires forall x, y :: x in a && y in b ==> Precedes(x, y)
    ensures Ascending(a + b)
  {
    forall i, j | 0 <= i < j < |a + b|
      ensures Precedes((a + b)[i], (a + b)[j])
    {
      if j < |a| {
      } else if i >= |a| {
        assert (a + b)[i] == b[i - |a|] && (a + b)[j] == b[j - |a|];
      } else {
        assert (a + b)[i] in a && (a + b)[j] in b;
      }
    }
  }

  /** A site picked among the first `n` type batches of a batch lies in
      that batch, at a type batch below `n`. */
  lemma {:induction false} TypeBatchSitesPlace(table: ExtractorTable, filter: Filter, setIndex: nat, batchIndex: nat,
                                               typeBatches: seq<TypeBatch>, n: nat, x: Site)
    requires n <= |typeBatches| && x in TypeBatchSites(table, filter, setIndex, batchIndex, typeBatches, n)
    ensures x.setIndex == setIndex && x.batchIndex == batchIndex && x.typeBatchIndex < n
  {
    if x !in SitesOf(table, filter, setIndex, batchIndex, typeBatches, n - 1) {
      TypeBatchSitesPlace(table, filter, setIndex, batchIndex, typeBatches, n - 1, x);
    }
  }

  /** A site picked among the first `n` batches of a set lies in that set,
      at a batch below `n`. */
  lemma {:induction false} BatchSitesPlace(table: ExtractorTable, filter: Filter, setIndex: nat,
                                           batches: seq<ConstraintBatch>, n: nat, x: Site)
    requires n <= |batches| && x in BatchSites(table, filter, setIndex, batches, n)
    ensures x.setIndex == setIndex && x.batchIndex < n
  {
    var typeBatches := batches[n - 1].typeBatches;
    if x in TypeBatchSites(table, filter, setIndex, n - 1, typeBatches, |typeBatches|) {
      TypeBatchSitesPlace(table, filter, setIndex, n - 1, typeBatches, |typeBatches|, x);
    } else {
      BatchSitesPlace(table, filter, setIndex, batches, n - 1, x);
    }
  }

  /** A site picked among the first `n` sets lies in a set below `n`. */
  lemma {:induction false} SetSitesPlace(table: ExtractorTable, filter: Filter, sets: seq<ConstraintSet>, n: nat,
                                         x: Site)
    requires n <= |sets| && x in SetSites(table, filter, sets, n)
    ensures x.setIndex < n
  {
    var batches := sets[n - 1].batches;
    if sets[n - 1].isAllocated && x in BatchSites(table, filter, n - 1, batches, |batches|) {
      BatchSitesPlace(table, filter, n - 1, batches, |batches|, x);
    } else {
      SetSitesPlace(table, filter, sets, n - 1, x);
    }
  }

  lemma {:induction false} TypeBatchSitesAscending(table: ExtractorTable, filter: Filter, setIndex: nat,
                                                   batchIndex: nat, typeBatches: seq<TypeBatch>, n: nat)
    requires n <= |typeBatches|
    ensures Ascending(TypeBatchSites(table, filter, setIndex, batchIndex, typeBatches, n))
  {
    if n > 0 {
      var front := TypeBatchSites(table, filter, setIndex, batchIndex, typeBatches, n - 1);
      var tail := SitesOf(table, filter, setIndex, batchIndex, typeBatches, n - 1);
      TypeBatchSitesAscending(table, filter, setIndex, batchIndex, typeBatches, n - 1);
      forall x, y | x in front && y in tail
        ensures Precedes(x, y)
      {
        TypeBatchSitesPlace(table, filter, setIndex, batchIndex, typeBatches, n - 1, x);
      }
      AscendingJoin(front, tail);
    }
  }

  lemma {:induction false} BatchSitesAscending(table: ExtractorTable, filter: Filter, setIndex: nat,
                                               batches: seq<ConstraintBatch>, n: nat)
    requires n <= |batches|
    ensures Ascending(BatchSites(table, filter, setIndex, batches, n))
  {
    if n > 0 {
      var front := BatchSites(table, filter, setIndex, batches, n - 1);
      var typeBatches := batches[n - 1].typeBatches;
      var tail := TypeBatchSites(table, filter, setIndex, n - 1, typeBatches, |typeBatches|);
      BatchSitesAscending(table, filter, setIndex, batches, n - 1);
      TypeBatchSitesAscending(table, filter, setIndex, n - 1, typeBatches, |typeBatches|);
      forall x, y | x in front && y in tail
        ensures Precedes(x, y)
      {
        BatchSitesPlace(table, filter, setIndex, batches, n - 1, x);
        TypeBatchSitesPlace(table, filter, setIndex, n - 1, typeBatches, |typeBatches|, y);
      }
      AscendingJoin(front, tail);
    }
  }

  lemma {:induction false} SetSitesAscending(table: ExtractorTable, filter: Filter, sets: seq<ConstraintSet>, n: nat)
    requires n <= |sets|
    ensures Ascending(SetSites(table, filter, sets, n))
  {
    if n > 0 {
      var front := SetSites(table, filter, sets, n - 1);
      var batches := sets[n - 1].batches;
      SetSitesAscending(table, filter, sets, n - 1);
      if sets[n - 1].isAllocated {
        var tail := BatchSites(table, filter, n - 1, batches, |batches|);
        BatchSitesAscending(table, filter, n - 1, batches, |batches|);
        forall x, y | x in front && y in tail
          ensures Precedes(x, y)
        {
          SetSitesPlace(table, filter, sets, n - 1, x);
          BatchSitesPlace(table, filter, n - 1, batches, |batches|, y);
        }
        AscendingJoin(front, tail);
      } else {
        assert SetSites(table, filter, sets, n) == front + [];
        assert front + [] == front;
      }
    }
  }

  /** The planned sites come in walk order, so no type batch is planned twice:
      together with `PlannedSitesAreSelected`, every shown type batch of an
      allocated set gets exactly one job. */
  lemma PlannedSitesAscending(table: ExtractorTable, filter: Filter, sets: seq<ConstraintSet>)
    ensures Ascending(PlannedSites(table, filter, sets))
    ensures forall i, j :: 0 <= i < j < |PlannedSites(table, filter, sets)| ==>
              PlannedSites(table, filter, sets)[i] != PlannedSites(table, filter, sets)[j]
  {
    SetSitesAscending(table, filter, sets, |sets|);
  }

  /** The lines a site (or job) is estimated to produce. */
  function SiteLines(x: Site): nat
  {
    x.linesPerConstraint * x.constraintCount
  }

  /** The summed estimate over `sites`. */
  function LineTotal(sites: seq<Site>): nat
  {
    if |sites| == 0 then 0 else LineTotal(sites[..|sites| - 1]) + SiteLines(sites[|sites| - 1])
  }

  /** The job the planner creates for a site, given the running line count. */
  function JobFor(x: Site, lineStart: nat): ThreadJob
  {
    ThreadJob(x.setIndex, x.batchIndex, x.typeBatchIndex, 0, x.constraintCount, lineStart, x.linesPerConstraint, [])
  }

  /** The jobs created for `sites`, in order, when the running line count
      starts at `base`. */
  function JobsFor(sites: seq<Site>, base: nat): (jobs: seq<ThreadJob>)
    ensures |jobs| == |sites|
  {
    if |sites| == 0 then []
    else JobsFor(sites[..|sites| - 1], base) + [JobFor(sites[|sites| - 1], base + LineTotal(sites[..|sites| - 1]))]
  }

  /** Job `k` covers its whole type batch (`ConstraintStart` 0, the full
      `ConstraintCount`) and starts at the running prefix of the line estimate. */
  lemma {:induction false} JobsForAt(sites: seq<Site>, base: nat, k: nat)
    requires k < |sites|
    ensures JobsFor(sites, base)[k] == JobFor(sites[k], base + LineTotal(sites[..k]))
    decreases |sites|
  {
    if k < |sites| - 1 {
      var front := sites[..|sites| - 1];
      JobsForAt(front, base, k);
      assert front[..k] == sites[..k];
    } else {
      assert sites[..k] == sites[..|sites| - 1];
    }
  }

  /** Adding one site appends its job and grows the estimate by its lines. */
  lemma JobsForSnoc(sites: seq<Site>, x: Site, base: nat)
    ensures JobsFor(sites + [x], base) == JobsFor(sites, base) + [JobFor(x, base + LineTotal(sites))]
    ensures LineTotal(sites + [x]) == LineTotal(sites) + SiteLines(x)
  {
    assert (sites + [x])[..|sites|] == sites;
  }

  function Min(a: int, b: int): int
  {
    if a <= b then a else b
  }

  function Max(a: int, b: int): int
  {
    if a >= b then a else b
  }

  /** The job size above which a job is split: the line estimate shared out
      over `JobsPerThread` jobs per processor, clamped to `[1, 32]`. */
  function MaximumJobSize(neededLineCapacity: nat, processorCount: nat): (size: nat)
    requires processorCount > 0
    ensures 1 <= size <= JobSizeCap
    ensures 1 <= neededLineCapacity / (JobsPerThread * processorCount) <= JobSizeCap
            ==> size == neededLineCapacity / (JobsPerThread * processorCount)
  {
    Min(JobSizeCap, Max(1, neededLineCapacity / (JobsPerThread * processorCount)))
  }

  /** `Math.Round` of the exact quotient `p / q`, rounding a midpoint to the
      even neighbour (the default `MidpointRounding.ToEven`). */
  function RoundHalfToEven(p: nat, q: nat): nat
    requires q > 0
  {
    var whole := p / q;
    var fraction := p % q;
    if 2 * fraction < q then whole
    else if 2 * fraction > q then whole + 1
    else if whole % 2 == 0 then whole
    else whole + 1
  }

  /** The rounding lands on a nearest integer to `p / q` (at most half a unit
      away on either side), and on a midpoint it lands on the even one. */
  lemma RoundHalfToEvenIsNearest(p: nat, q: nat)
    requires q > 0
    ensures 2 * (RoundHalfToEven(p, q) * q - p) <= q
    ensures 2 * (p - RoundHalfToEven(p, q) * q) <= q
    ensures 2 * (p - RoundHalfToEven(p, q) * q) == q || 2 * (RoundHalfToEven(p, q) * q - p) == q
            ==> RoundHalfToEven(p, q) % 2 == 0
  {
    var whole, fraction := p / q, p % q;
    DivModBounds(p, q);
    MulAdd(whole, 1, q);
  }

  /** `(int)Math.Round(0.5 + count / (double)maximumJobSize)`. The double
      arithmetic is exact enough here: a midpoint arises only when `count` is a
      multiple of `maximumJobSize`, where the quotient is an exact integer, and
      otherwise the true value lies at least `1 / 64` away from one. */
  function SubjobCount(count: nat, maximumJobSize: nat): nat
    requires maximumJobSize > 0
  {
    RoundHalfToEven(2 * count + maximumJobSize, 2 * maximumJobSize)
  }

  /** The sub-job count is the number of `maximumJobSize`-sized pieces needed,
      `⌈count / maximumJobSize⌉`, except that an odd multiple of
      `maximumJobSize` rounds up to one piece more. */
  lemma SubjobCountValue(count: nat, maximumJobSize: nat)
    requires maximumJobSize > 0
    ensures count % maximumJobSize != 0 ==> SubjobCount(count, maximumJobSize) == count / maximumJobSize + 1
    ensures count % maximumJobSize == 0 && (count / maximumJobSize) % 2 == 0
            ==> SubjobCount(count, maximumJobSize) == count / maximumJobSize
    ensures count % maximumJobSize == 0 && (count / maximumJobSize) % 2 == 1
            ==> SubjobCount(count, maximumJobSize) == count / maximumJobSize + 1
  {
    var m := maximumJobSize;
    var k, r := count / m, count % m;
    DivModBounds(count, m);
    MulDouble(k, m);
    MulDouble(k + 1, m);
    MulAdd(k, 1, 2 * m);
    if r == 0 {
      DivModUnique(2 * count + m, 2 * m, k, m);
    } else if 2 * r < m {
      DivModUnique(2 * count + m, 2 * m, k, 2 * r + m);
    } else {
      DivModUnique(2 * count + m, 2 * m, k + 1, 2 * r - m);
    }
  }

  /** An oversized job is split into at least two sub-jobs, and enough of
      them that no sub-job exceeds `maximumJobSize`. */
  lemma SubjobCountBounds(count: nat, maximumJobSize: nat)
    requires 0 < maximumJobSize < count
    ensures SubjobCount(count, maximumJobSize) >= 2
    ensures SubjobCount(count, maximumJobSize) * maximumJobSize >= count
    ensures SubjobCount(count, maximumJobSize) <= count / maximumJobSize + 1
  {
    var m := maximumJobSize;
    var k, r := count / m, count % m;
    SubjobCountValue(count, m);
    DivModBounds(count, m);
    MulAdd(k, 1, m);
    if k == 0 {
      assert false;
    }
    if r == 0 && k == 1 {
      assert false;
    }
    MulLeIff(k, SubjobCount(count, m), m);
  }

  /** With `maximumJobSize` 1 and an odd count, the rounding asks for one
      sub-job more than there are constraints, and the last sub-job is empty. */
  lemma SubjobCountWithUnitSize(count: nat)
    requires count > 1 && count % 2 == 1
    ensures SubjobCount(count, 1) == count + 1
    ensures SubjobSize(count, count + 1, count) == 0
  {
    SubjobCountValue(count, 1);
  }

  /** Sub-job `j`'s constraint count: `count / subjobCount`, plus one for each
      of the first `count - (count / subjobCount) * subjobCount` sub-jobs. */
  function SubjobSize(count: nat, subjobCount: nat, j: nat): nat
    requires subjobCount > 0
  {
    var perSubjob := count / subjobCount;
    var remainder := count - perSubjob * subjobCount;
    if remainder > j then perSubjob + 1 else perSubjob
  }

  /** Where sub-job `j` starts, relative to the parent's first constraint: the
      sizes of the sub-jobs before it. */
  function SubjobOffset(count: nat, subjobCount: nat, j: nat): nat
    requires subjobCount > 0
  {
    if j == 0 then 0 else SubjobOffset(count, subjobCount, j - 1) + SubjobSize(count, subjobCount, j - 1)
  }

  /** Closed form of the offset: `j` full shares plus one per earlier
      sub-job that takes part of the remainder. */
  lemma {:induction false} SubjobOffsetValue(count: nat, subjobCount: nat, j: nat)
    requires subjobCount > 0
    ensures SubjobOffset(count, subjobCount, j)
            == j * (count / subjobCount) + Min(j, count - (count / subjobCount) * subjobCount)
  {
    if j > 0 {
      SubjobOffsetValue(count, subjobCount, j - 1);
      MulAdd(j - 1, 1, count / subjobCount);
    }
  }

  /** The sub-job sizes add up to the parent's count. */
  lemma SubjobSizesTotal(count: nat, subjobCount: nat)
    requires subjobCount > 0
    ensures SubjobOffset(count, subjobCount, subjobCount) == count
  {
    DivModBounds(count, subjobCount);
    SubjobOffsetValue(count, subjobCount, subjobCount);
  }

  /** The sub-job sizes add up to the parent's count, none is more than one
      larger than another, and offsets never pass the parent's end. */
  lemma SubjobPartition(count: nat, subjobCount: nat)
    requires subjobCount > 0
    ensures SubjobOffset(count, subjobCount, subjobCount) == count
    ensures forall j, k :: 0 <= j < subjobCount && 0 <= k < subjobCount ==>
              SubjobSize(count, subjobCount, j) <= SubjobSize(count, subjobCount, k) + 1
    ensures forall j :: 0 <= j <= subjobCount ==> SubjobOffset(count, subjobCount, j) <= count
  {
    var per := count / subjobCount;
    DivModBounds(count, subjobCount);
    SubjobSizesTotal(count, subjobCount);
    forall j | 0 <= j <= subjobCount
      ensures SubjobOffset(count, subjobCount, j) <= count
    {
      SubjobOffsetValue(count, subjobCount, j);
      MulMono(per, j, subjobCount);
    }
  }

  /** When the sub-jobs are at least `count / maximumJobSize`-many and enough
      to hold `count`, none has more than `maximumJobSize` constraints. */
  lemma SubjobSizeBound(count: nat, maximumJobSize: nat, j: nat)
    requires 0 < maximumJobSize < count
    ensures SubjobSize(count, SubjobCount(count, maximumJobSize), j) <= maximumJobSize
  {
    var sc := SubjobCount(count, maximumJobSize);
    SubjobCountBounds(count, maximumJobSize);
    var per := count / sc;
    DivModBounds(count, sc);
    var remainder := count - per * sc;
    if remainder > 0 {
      if per >= maximumJobSize {
        MulMono(sc, maximumJobSize, per);
        assert false;
      }
    } else {
      if per > maximumJobSize {
        MulMono(sc, maximumJobSize + 1, per);
        MulAdd(maximumJobSize, 1, sc);
        assert false;
      }
    }
  }

  /** Sub-job `j` of `job`: the next `SubjobSize` constraints after the
      earlier sub-jobs, with its lines placed after theirs. */
  function SubJob(job: ThreadJob, subjobCount: nat, j: nat): ThreadJob
    requires subjobCount > 0
  {
    var offset := SubjobOffset(job.constraintCount, subjobCount, j);
    job.(constraintStart := job.constraintStart + offset,
         constraintCount := SubjobSize(job.constraintCount, subjobCount, j),
         lineStart := job.lineStart + job.linesPerConstraint * offset)
  }

  /** What becomes of one planned job: itself when it is small enough,
      otherwise its `SubjobCount` sub-jobs, in order. */
  function Split(job: ThreadJob, maximumJobSize: nat): (parts: seq<ThreadJob>)
    requires maximumJobSize > 0
    ensures |parts| >= 1
  {
    if job.constraintCount <= maximumJobSize then [job]
    else
      var subjobCount := SubjobCount(job.constraintCount, maximumJobSize);
      SubjobCountBounds(job.constraintCount, maximumJobSize);
      seq(subjobCount, j requires 0 <= j < subjobCount => SubJob(job, subjobCount, j))
  }

  /** The line slot just past a job's estimated lines. */
  function LineEnd(job: ThreadJob): nat
  {
    job.lineStart + job.linesPerConstraint * job.constraintCount
  }

  /** `b` works on the same type batch as `a`, with the same extractor. */
  predicate SameTarget(a: ThreadJob, b: ThreadJob)
  {
    a.setIndex == b.setIndex && a.batchIndex == b.batchIndex && a.typeBatchIndex == b.typeBatchIndex
    && a.linesPerConstraint == b.linesPerConstraint && a.jobLines == b.jobLines
  }

  /** Each sub-job starts where the one before it ends, in constraints and in
      lines. */
  lemma SubJobNext(job: ThreadJob, subjobCount: nat, j: nat)
    requires 0 < j
    requires subjobCount > 0
    ensures SubJob(job, subjobCount, j).constraintStart
            == SubJob(job, subjobCount, j - 1).constraintStart + SubJob(job, subjobCount, j - 1).constraintCount
    ensures SubJob(job, subjobCount, j).lineStart == LineEnd(SubJob(job, subjobCount, j - 1))
  {
    var offset := SubjobOffset(job.constraintCount, subjobCount, j - 1);
    MulAdd(offset, SubjobSize(job.constraintCount, subjobCount, j - 1), job.linesPerConstraint);
  }

  /** The parts of a split job tile the parent: the first starts where the
      parent starts, each starts where the previous ends, and the last ends
      where the parent ends, both in the constraint range and in the line
      range. */
  lemma SplitContiguous(job: ThreadJob, maximumJobSize: nat)
    requires maximumJobSize > 0
    ensures var parts := Split(job, maximumJobSize);
            parts[0].constraintStart == job.constraintStart && parts[0].lineStart == job.lineStart
            && (forall j :: 0 < j < |parts| ==>
                  parts[j].constraintStart == parts[j - 1].constraintStart + parts[j - 1].constraintCount
                  && parts[j].lineStart == LineEnd(parts[j - 1]))
            && parts[|parts| - 1].constraintStart + parts[|parts| - 1].constraintCount
               == job.constraintStart + job.constraintCount
            && LineEnd(parts[|parts| - 1]) == LineEnd(job)
  {
    SplitLinked(job, maximumJobSize);
    SplitEnds(job, maximumJobSize);
  }

  /** Each part after the first starts where the previous one ends. */
  lemma SplitLinked(job: ThreadJob, maximumJobSize: nat)
    requires maximumJobSize > 0
    ensures var parts := Split(job, maximumJobSize);
            forall j :: 0 < j < |parts| ==>
              parts[j].constraintStart == parts[j - 1].constraintStart + parts[j - 1].constraintCount
              && parts[j].lineStart == LineEnd(parts[j - 1])
  {
    var parts := Split(job, maximumJobSize);
    if job.constraintCount > maximumJobSize {
      var sc := SubjobCount(job.constraintCount, maximumJobSize);
      SubjobCountBounds(job.constraintCount, maximumJobSize);
      forall j | 0 < j < |parts|
        ensures parts[j].constraintStart == parts[j - 1].constraintStart + parts[j - 1].constraintCount
        ensures parts[j].lineStart == LineEnd(parts[j - 1])
      {
        SubJobNext(job, sc, j);
      }
    }
  }

  /** The first part starts where the job starts and the last ends where
      the job ends. */
  lemma SplitEnds(job: ThreadJob, maximumJobSize: nat)
    requires maximumJobSize > 0
    ensures var parts := Split(job, maximumJobSize);
            parts[0].constraintStart == job.constraintStart && parts[0].lineStart == job.lineStart
            && parts[|parts| - 1].constraintStart + parts[|parts| - 1].constraintCount
               == job.constraintStart + job.constraintCount
            && LineEnd(parts[|parts| - 1]) == LineEnd(job)
  {
    if job.constraintCount > maximumJobSize {
      var count := job.constraintCount;
      var sc := SubjobCount(count, maximumJobSize);
      SubjobCountBounds(count, maximumJobSize);
      SubjobSizesTotal(count, sc);
      SubJobNext(job, sc, sc);
    }
  }

  /** Every part works on the parent's type batch, part sizes differ by at
      most one, and when the parent was too large no part exceeds
      `maximumJobSize`; a job that was small enough is left as it is. */
  lemma SplitBalanced(job: ThreadJob, maximumJobSize: nat)
    requires maximumJobSize > 0
    ensures job.constraintCount <= maximumJobSize ==> Split(job, maximumJobSize) == [job]
    ensures var parts := Split(job, maximumJobSize);
            (forall j :: 0 <= j < |parts| ==> SameTarget(parts[j], job))
            && (forall j, k :: 0 <= j < |parts| && 0 <= k < |parts| ==>
                  parts[j].constraintCount <= parts[k].constraintCount + 1)
            && (job.constraintCount > maximumJobSize ==>
                  forall j :: 0 <= j < |parts| ==> parts[j].constraintCount <= maximumJobSize)
  {
    var parts := Split(job, maximumJobSize);
    if job.constraintCount > maximumJobSize {
      var count := job.constraintCount;
      var sc := SubjobCount(count, maximumJobSize);
      SubjobCountBounds(count, maximumJobSize);
      SubjobPartition(count, sc);
      forall j | 0 <= j < |parts|
        ensures parts[j].constraintCount <= maximumJobSize
      {
        SubjobSizeBound(count, maximumJobSize, j);
      }
    }
  }

  /** `part` works on `job`'s type batch, inside `job`'s constraint range. */
  predicate Within(part: ThreadJob, job: ThreadJob)
  {
    SameTarget(part, job)
    && job.constraintStart <= part.constraintStart
    && part.constraintStart + part.constraintCount <= job.constraintStart + job.constraintCount
  }

  lemma SplitWithin(job: ThreadJob, maximumJobSize: nat)
    requires maximumJobSize > 0
    ensures forall part :: part in Split(job, maximumJobSize) ==> Within(part, job)
  {
    if job.constraintCount > maximumJobSize {
      var count := job.constraintCount;
      var sc := SubjobCount(count, maximumJobSize);
      SubjobCountBounds(count, maximumJobSize);
      SubjobPartition(count, sc);
      forall j | 0 <= j < sc
        ensures Within(SubJob(job, sc, j), job)
      {
        assert SubjobOffset(count, sc, j + 1) <= count;
      }
    }
  }

  /** The jobs in their original places, each replaced by its first part. */
  function FirstParts(jobs: seq<ThreadJob>, maximumJobSize: nat): (firsts: seq<ThreadJob>)
    requires maximumJobSize > 0
    ensures |firsts| == |jobs|
  {
    if |jobs| == 0 then []
    else FirstParts(jobs[..|jobs| - 1], maximumJobSize) + [Split(jobs[|jobs| - 1], maximumJobSize)[0]]
  }

  /** The remaining parts of every split job, job by job, in order. */
  function Tails(jobs: seq<ThreadJob>, maximumJobSize: nat): seq<ThreadJob>
    requires maximumJobSize > 0
  {
    if |jobs| == 0 then []
    else Tails(jobs[..|jobs| - 1], maximumJobSize) + Split(jobs[|jobs| - 1], maximumJobSize)[1..]
  }

  /** The job list after splitting: the first part of each job where the job
      was, the other parts appended after the original jobs. */
  function SplitJobs(jobs: seq<ThreadJob>, maximumJobSize: nat): seq<ThreadJob>
    requires maximumJobSize > 0
  {
    FirstParts(jobs, maximumJobSize) + Tails(jobs, maximumJobSize)
  }

  lemma {:induction false} FirstPartsAt(jobs: seq<ThreadJob>, maximumJobSize: nat, i: nat)
    requires maximumJobSize > 0 && i < |jobs|
    ensures FirstParts(jobs, maximumJobSize)[i] == Split(jobs[i], maximumJobSize)[0]
    decreases |jobs|
  {
    if i < |jobs| - 1 {
      FirstPartsAt(jobs[..|jobs| - 1], maximumJobSize, i);
    }
  }

  lemma {:induction false} TailsMembers(jobs: seq<ThreadJob>, maximumJobSize: nat, part: ThreadJob)
    requires maximumJobSize > 0 && part in Tails(jobs, maximumJobSize)
    ensures exists i :: 0 <= i < |jobs| && part in Split(jobs[i], maximumJobSize)
    decreases |jobs|
  {
    var front := jobs[..|jobs| - 1];
    if part in Tails(front, maximumJobSize) {
      TailsMembers(front, maximumJobSize, part);
      var i :| 0 <= i < |front| && part in Split(front[i], maximumJobSize);
      assert front[i] == jobs[i];
    } else {
      assert part in Split(jobs[|jobs| - 1], maximumJobSize);
    }
  }

  /** Splitting keeps every job's place: the job list grows, entry `i` is
      job `i`'s first part, and a job that was small enough is unchanged. */
  lemma SplitJobsKeepPlaces(jobs: seq<ThreadJob>, maximumJobSize: nat)
    requires maximumJobSize > 0
    ensures |SplitJobs(jobs, maximumJobSize)| >= |jobs|
    ensures forall i :: 0 <= i < |jobs| ==> SplitJobs(jobs, maximumJobSize)[i] == Split(jobs[i], maximumJobSize)[0]
    ensures forall i :: 0 <= i < |jobs| && jobs[i].constraintCount <= maximumJobSize ==>
              SplitJobs(jobs, maximumJobSize)[i] == jobs[i]
  {
    forall i | 0 <= i < |jobs|
      ensures SplitJobs(jobs, maximumJobSize)[i] == Split(jobs[i], maximumJobSize)[0]
    {
      FirstPartsAt(jobs, maximumJobSize, i);
    }
    forall i | 0 <= i < |jobs| && jobs[i].constraintCount <= maximumJobSize
      ensures Split(jobs[i], maximumJobSize) == [jobs[i]]
    {
      SplitBalanced(jobs[i], maximumJobSize);
    }
  }

  /** Every job after splitting lies within some original job. */
  lemma SplitJobsWithin(jobs: seq<ThreadJob>, maximumJobSize: nat, k: nat)
    requires maximumJobSize > 0 && k < |SplitJobs(jobs, maximumJobSize)|
    ensures exists i :: 0 <= i < |jobs| && Within(SplitJobs(jobs, maximumJobSize)[k], jobs[i])
  {
    var part := SplitJobs(jobs, maximumJobSize)[k];
    var i;
    if k < |jobs| {
      FirstPartsAt(jobs, maximumJobSize, k);
      i := k;
    } else {
      assert part in Tails(jobs, maximumJobSize);
      TailsMembers(jobs, maximumJobSize, part);
      i :| 0 <= i < |jobs| && part in Split(jobs[i], maximumJobSize);
    }
    SplitWithin(jobs[i], maximumJobSize);
  }

  /** The summed line estimate of a job list. */
  function JobBudget(jobs: seq<ThreadJob>): nat
  {
    if |jobs| == 0 then 0
    else JobBudget(jobs[..|jobs| - 1]) + jobs[|jobs| - 1].linesPerConstraint * jobs[|jobs| - 1].constraintCount
  }

  lemma {:induction false} JobBudgetAppend(a: seq<ThreadJob>, b: seq<ThreadJob>)
    ensures JobBudget(a + b) == JobBudget(a) + JobBudget(b)
    decreases |b|
  {
    if |b| == 0 {
      assert a + b == a;
    } else {
      assert (a + b)[..|a + b| - 1] == a + b[..|b| - 1];
      JobBudgetAppend(a, b[..|b| - 1]);
    }
  }

  /** Jobs whose line ranges follow each other have a budget equal to the
      span from the first start to the last end. */
  lemma {:induction false} JobBudgetOfChain(parts: seq<ThreadJob>)
    requires |parts| >= 1
    requires forall j :: 0 < j < |parts| ==> parts[j].lineStart == LineEnd(parts[j - 1])
    ensures JobBudget(parts) + parts[0].lineStart == LineEnd(parts[|parts| - 1])
    decreases |parts|
  {
    if |parts| > 1 {
      JobBudgetOfChain(parts[..|parts| - 1]);
    }
  }

  /** Splitting a job does not change the line estimate. */
  lemma SplitBudget(job: ThreadJob, maximumJobSize: nat)
    requires maximumJobSize > 0
    ensures JobBudget(Split(job, maximumJobSize)) == job.linesPerConstraint * job.constraintCount
  {
    SplitContiguous(job, maximumJobSize);
    JobBudgetOfChain(Split(job, maximumJobSize));
  }

  /** Moving a job's first part to one list and its other parts to another
      moves its whole budget. */
  lemma BudgetRegroup(firsts: seq<ThreadJob>, tails: seq<ThreadJob>, parts: seq<ThreadJob>)
    requires |parts| >= 1
    ensures JobBudget(firsts + [parts[0]]) + JobBudget(tails + parts[1..])
            == JobBudget(firsts) + JobBudget(tails) + JobBudget(parts)
  {
    JobBudgetAppend(firsts, [parts[0]]);
    JobBudgetAppend(tails, parts[1..]);
    JobBudgetAppend([parts[0]], parts[1..]);
    assert [parts[0]] + parts[1..] == parts;
  }

  lemma {:induction false} FirstPartsTailsBudget(jobs: seq<ThreadJob>, maximumJobSize: nat)
    requires maximumJobSize > 0
    ensures JobBudget(FirstParts(jobs, maximumJobSize)) + JobBudget(Tails(jobs, maximumJobSize)) == JobBudget(jobs)
    decreases |jobs|
  {
    if |jobs| > 0 {
      var front, last := jobs[..|jobs| - 1], jobs[|jobs| - 1];
      var parts := Split(last, maximumJobSize);
      FirstPartsTailsBudget(front, maximumJobSize);
      BudgetRegroup(FirstParts(front, maximumJobSize), Tails(front, maximumJobSize), parts);
      SplitBudget(last, maximumJobSize);
    }
  }

  /** Splitting the job list does not change the total line estimate. */
  lemma SplitJobsBudget(jobs: seq<ThreadJob>, maximumJobSize: nat)
    requires maximumJobSize > 0
    ensures JobBudget(SplitJobs(jobs, maximumJobSize)) == JobBudget(jobs)
  {
    JobBudgetAppend(FirstParts(jobs, maximumJobSize), Tails(jobs, maximumJobSize));
    FirstPartsTailsBudget(jobs, maximumJobSize);
  }

  /** The planned jobs' budget is the summed estimate of their sites. */
  lemma {:induction false} JobsForBudget(sites: seq<Site>, base: nat)
    ensures JobBudget(JobsFor(sites, base)) == LineTotal(sites)
    decreases |sites|
  {
    if |sites| > 0 {
      var front := sites[..|sites| - 1];
      JobsForBudget(front, base);
      assert JobsFor(sites, base)[..|sites| - 1] == JobsFor(front, base);
    }
  }

  /** Every type batch of an allocated set whose type has a registered
      extractor is laid out as that extractor expects. */
  predicate SolverShape(table: ExtractorTable, sets: seq<ConstraintSet>)
  {
    forall s, b, t ::
      0 <= s < |sets| && sets[s].isAllocated
      && 0 <= b < |sets[s].batches| && 0 <= t < |sets[s].batches[b].typeBatches|
      && sets[s].batches[b].typeBatches[t].typeId < |table|
      && table[sets[s].batches[b].typeBatches[t].typeId].Some?
      ==> WellFormed(sets[s].batches[b].typeBatches[t],
                     table[sets[s].batches[b].typeBatches[t].typeId].value.bodyCount)
  }

  /** `job` names an existing type batch. */
  predicate Addressable(sets: seq<ConstraintSet>, job: ThreadJob)
  {
    job.setIndex < |sets| && job.batchIndex < |sets[job.setIndex].batches|
    && job.typeBatchIndex < |sets[job.setIndex].batches[job.batchIndex].typeBatches|
  }

  /** The type batch a job works on. */
  function TargetBatch(sets: seq<ConstraintSet>, job: ThreadJob): TypeBatch
    requires Addressable(sets, job)
  {
    sets[job.setIndex].batches[job.batchIndex].typeBatches[job.typeBatchIndex]
  }

  /** `job` names an existing type batch with a registered extractor whose
      line count it carries, and its constraint range lies within the type
      batch's constraints: `ExecuteJob` can run it. */
  predicate Executable(table: ExtractorTable, sets: seq<ConstraintSet>, job: ThreadJob)
  {
    Addressable(sets, job)
    && var tb := TargetBatch(sets, job);
       tb.typeId < |table| && table[tb.typeId].Some?
       && job.linesPerConstraint == table[tb.typeId].value.linesPerConstraint
       && WellFormed(tb, table[tb.typeId].value.bodyCount)
       && job.constraintStart + job.constraintCount <= tb.constraintCount
  }

  /** The extractor registered for a job's type. */
  function JobExtractor(table: ExtractorTable, sets: seq<ConstraintSet>, job: ThreadJob): TypeLineExtractor
    requires Executable(table, sets, job)
  {
    table[TargetBatch(sets, job).typeId].value
  }

  /** A part within a runnable job is runnable, on the same type batch with
      the same extractor. */
  lemma WithinExecutable(table: ExtractorTable, sets: seq<ConstraintSet>, part: ThreadJob, job: ThreadJob)
    requires Executable(table, sets, job) && Within(part, job)
    ensures Executable(table, sets, part)
    ensures TargetBatch(sets, part) == TargetBatch(sets, job)
    ensures JobExtractor(table, sets, part) == JobExtractor(table, sets, job)
  {
  }

  /** Each planned job can be run. */
  lemma PlannedJobsExecutable(table: ExtractorTable, filter: Filter, sets: seq<ConstraintSet>, base: nat)
    requires SolverShape(table, sets)
    ensures forall k :: 0 <= k < |PlannedSites(table, filter, sets)| ==>
              Executable(table, sets, JobsFor(PlannedSites(table, filter, sets), base)[k])
  {
    var sites := PlannedSites(table, filter, sets);
    forall k | 0 <= k < |sites|
      ensures Executable(table, sets, JobsFor(sites, base)[k])
    {
      JobsForAt(sites, base, k);
      PlannedSitesAreSelected(table, filter, sets, sites[k]);
    }
  }

  /** Every job left after splitting can be run when every planned one could. */
  lemma SplitJobsExecutable(table: ExtractorTable, sets: seq<ConstraintSet>, jobs: seq<ThreadJob>, maximumJobSize: nat)
    requires maximumJobSize > 0
    requires forall i {:trigger Executable(table, sets, jobs[i])} :: 0 <= i < |jobs| ==> Executable(table, sets, jobs[i])
    ensures forall k :: 0 <= k < |SplitJobs(jobs, maximumJobSize)| ==>
              Executable(table, sets, SplitJobs(jobs, maximumJobSize)[k])
  {
    forall k | 0 <= k < |SplitJobs(jobs, maximumJobSize)|
      ensures Executable(table, sets, SplitJobs(jobs, maximumJobSize)[k])
    {
      SplitJobsWithin(jobs, maximumJobSize, k);
      var i :| 0 <= i < |jobs| && Within(SplitJobs(jobs, maximumJobSize)[k], jobs[i]);
      WithinExecutable(table, sets, SplitJobs(jobs, maximumJobSize)[k], jobs[i]);
    }
  }

  /** The lines a job extracts: its range of its type batch, through the
      registered extractor. */
  function JobOutput(table: ExtractorTable, bodies: Bodies, sets: seq<ConstraintSet>, job: ThreadJob)
    : seq<LineInstance>
    requires Executable(table, sets, job)
  {
    ExtractedLines(JobExtractor(table, sets, job), bodies, job.setIndex, TargetBatch(sets, job),
                   job.constraintStart, job.constraintStart + job.constraintCount)
  }

  /** A job yields no more lines than its estimate when its extractor keeps
      to its reported line count. */
  lemma JobOutputBound(table: ExtractorTable, bodies: Bodies, sets: seq<ConstraintSet>, job: ThreadJob)
    requires Executable(table, sets, job) && BoundedOutput(JobExtractor(table, sets, job))
    ensures |JobOutput(table, bodies, sets, job)| <= job.linesPerConstraint * job.constraintCount
  {
    ExtractedLinesBound(JobExtractor(table, sets, job), bodies, job.setIndex, TargetBatch(sets, job),
                        job.constraintStart, job.constraintStart + job.constraintCount);
  }

  /** The lines of a run of jobs, job after job. */
  function Outputs(table: ExtractorTable, bodies: Bodies, sets: seq<ConstraintSet>, jobs: seq<ThreadJob>)
    : seq<LineInstance>
    requires forall i {:trigger Executable(table, sets, jobs[i])} :: 0 <= i < |jobs| ==> Executable(table, sets, jobs[i])
  {
    if |jobs| == 0 then []
    else Outputs(table, bodies, sets, jobs[..|jobs| - 1]) + JobOutput(table, bodies, sets, jobs[|jobs| - 1])
  }

  /** Runnable parts of a runnable job, the first starting where the job
      starts and each starting where the previous one ends. */
  predicate Chain(table: ExtractorTable, sets: seq<ConstraintSet>, parts: seq<ThreadJob>, job: ThreadJob)
  {
    1 <= |parts| && Executable(table, sets, job)
    && (forall j :: 0 <= j < |parts| ==> Within(parts[j], job))
    && (forall j {:trigger Executable(table, sets, parts[j])} :: 0 <= j < |parts| ==> Executable(table, sets, parts[j]))
    && parts[0].constraintStart == job.constraintStart
    && (forall i, j {:trigger parts[i], parts[j]} :: 0 <= i && j == i + 1 < |parts| ==>
          parts[j].constraintStart == parts[i].constraintStart + parts[i].constraintCount)
  }

  /** A part within a runnable job extracts its own range of the job's type
      batch, through the job's extractor. */
  lemma PartOutput(table: ExtractorTable, bodies: Bodies, sets: seq<ConstraintSet>, part: ThreadJob, job: ThreadJob)
    requires Executable(table, sets, job) && Within(part, job)
    ensures Executable(table, sets, part)
    ensures part.constraintStart + part.constraintCount <= |TargetBatch(sets, job).indexToHandle|
    ensures JobOutput(table, bodies, sets, part)
            == ExtractedLines(JobExtractor(table, sets, job), bodies, job.setIndex, TargetBatch(sets, job),
                              part.constraintStart, part.constraintStart + part.constraintCount)
  {
    WithinExecutable(table, sets, part, job);
  }

  /** A chain's parts extract together exactly the lines of their combined
      range. */
  lemma {:induction false} OutputsOfChain(table: ExtractorTable, bodies: Bodies, sets: seq<ConstraintSet>,
                                          parts: seq<ThreadJob>, job: ThreadJob)
    requires Chain(table, sets, parts, job)
    ensures job.constraintStart <= parts[|parts| - 1].constraintStart + parts[|parts| - 1].constraintCount
            <= |TargetBatch(sets, job).indexToHandle|
    ensures Outputs(table, bodies, sets, parts)
            == ExtractedLines(JobExtractor(table, sets, job), bodies, job.setIndex, TargetBatch(sets, job),
                              job.constraintStart, parts[|parts| - 1].constraintStart + parts[|parts| - 1].constraintCount)
    decreases |parts|
  {
    var front, last := parts[..|parts| - 1], parts[|parts| - 1];
    var e, tb := JobExtractor(table, sets, job), TargetBatch(sets, job);
    var start, mid, end := job.constraintStart, last.constraintStart, last.constraintStart + last.constraintCount;
    assert mid <= end <= |tb.indexToHandle| && JobOutput(table, bodies, sets, last)
           == ExtractedLines(e, bodies, job.setIndex, tb, mid, end) by {
      PartOutput(table, bodies, sets, last, job);
    }
    if |front| > 0 {
      assert start <= mid && Outputs(table, bodies, sets, front)
             == ExtractedLines(e, bodies, job.setIndex, tb, start, mid) by {
        ChainFront(table, sets, parts, job);
        OutputsOfChain(table, bodies, sets, front, job);
      }
      ExtractedLinesSplit(e, bodies, job.setIndex, tb, start, mid, end);
    }
  }

  /** Dropping the last part of a chain of two or more leaves a chain, which
      ends where the dropped part starts. */
  lemma ChainFront(table: ExtractorTable, sets: seq<ConstraintSet>, parts: seq<ThreadJob>, job: ThreadJob)
    requires Chain(table, sets, parts, job) && |parts| >= 2
    ensures Chain(table, sets, parts[..|parts| - 1], job)
    ensures parts[|parts| - 1].constraintStart
            == parts[..|parts| - 1][|parts| - 2].constraintStart + parts[..|parts| - 1][|parts| - 2].constraintCount
  {
    var front := parts[..|parts| - 1];
    forall j | 0 <= j < |front|
      ensures Executable(table, sets, front[j])
    {
      assert front[j] == parts[j];
      assert Executable(table, sets, parts[j]);
    }
  }

  /** A chain that ends where its job ends extracts, part after part, exactly
      the job's lines. */
  lemma ChainOutputs(table: ExtractorTable, bodies: Bodies, sets: seq<ConstraintSet>,
                     parts: seq<ThreadJob>, job: ThreadJob)
    requires Chain(table, sets, parts, job)
    requires parts[|parts| - 1].constraintStart + parts[|parts| - 1].constraintCount
             == job.constraintStart + job.constraintCount
    ensures Outputs(table, bodies, sets, parts) == JobOutput(table, bodies, sets, job)
  {
    OutputsOfChain(table, bodies, sets, parts, job);
  }

  /** The parts of a runnable job form a chain that ends where the job ends. */
  lemma SplitChain(table: ExtractorTable, sets: seq<ConstraintSet>, job: ThreadJob, maximumJobSize: nat)
    requires maximumJobSize > 0 && Executable(table, sets, job)
    ensures Chain(table, sets, Split(job, maximumJobSize), job)
    ensures var parts := Split(job, maximumJobSize);
            parts[|parts| - 1].constraintStart + parts[|parts| - 1].constraintCount
            == job.constraintStart + job.constraintCount
  {
    var parts := Split(job, maximumJobSize);
    SplitContiguous(job, maximumJobSize);
    SplitWithin(job, maximumJobSize);
    forall j | 0 <= j < |parts|
      ensures Within(parts[j], job) && Executable(table, sets, parts[j])
    {
      assert parts[j] in parts;
      WithinExecutable(table, sets, parts[j], job);
    }
    forall i, j | 0 <= i && j == i + 1 < |parts|
      ensures parts[j].constraintStart == parts[i].constraintStart + parts[i].constraintCount
    {
    }
  }

  /** The sub-jobs of a split job extract, one after the other, exactly the
      lines the unsplit job would have: splitting changes where the lines are
      produced, not what they are. */
  lemma SplitOutputs(table: ExtractorTable, bodies: Bodies, sets: seq<ConstraintSet>, job: ThreadJob,
                     maximumJobSize: nat)
    requires maximumJobSize > 0 && Executable(table, sets, job)
    ensures forall j :: 0 <= j < |Split(job, maximumJobSize)| ==> Executable(table, sets, Split(job, maximumJobSize)[j])
    ensures Outputs(table, bodies, sets, Split(job, maximumJobSize)) == JobOutput(table, bodies, sets, job)
  {
    SplitChain(table, sets, job, maximumJobSize);
    ChainOutputs(table, bodies, sets, Split(job, maximumJobSize), job);
  }

  /** Every registered extractor keeps to its reported line count. */
  ghost predicate AllBounded(table: ExtractorTable)
  {
    forall id :: 0 <= id < |table| && table[id].Some? ==> BoundedOutput(table[id].value)
  }

  /** A run of jobs yields no more lines than its summed estimate. */
  lemma {:induction false} OutputsBound(table: ExtractorTable, bodies: Bodies, sets: seq<ConstraintSet>,
                                        jobs: seq<ThreadJob>)
    requires AllBounded(table)
    requires forall i {:trigger Executable(table, sets, jobs[i])} :: 0 <= i < |jobs| ==> Executable(table, sets, jobs[i])
    ensures |Outputs(table, bodies, sets, jobs)| <= JobBudget(jobs)
    decreases |jobs|
  {
    if |jobs| > 0 {
      var last := jobs[|jobs| - 1];
      OutputsBound(table, bodies, sets, jobs[..|jobs| - 1]);
      JobOutputBound(table, bodies, sets, last);
    }
  }

  /** Running one more job of a run appends its lines. */
  lemma OutputsNext(table: ExtractorTable, bodies: Bodies, sets: seq<ConstraintSet>, jobs: seq<ThreadJob>, i: nat)
    requires i < |jobs|
    requires forall k {:trigger Executable(table, sets, jobs[k])} :: 0 <= k < |jobs| ==> Executable(table, sets, jobs[k])
    ensures Outputs(table, bodies, sets, jobs[..i + 1])
            == Outputs(table, bodies, sets, jobs[..i]) + JobOutput(table, bodies, sets, jobs[i])
  {
    assert jobs[..i + 1][..i] == jobs[..i];
  }

  /** The lines of the first `n` jobs of a run stay within the whole run's
      estimate. */
  lemma OutputsPrefixBound(table: ExtractorTable, bodies: Bodies, sets: seq<ConstraintSet>, jobs: seq<ThreadJob>, n: nat)
    requires AllBounded(table) && n <= |jobs|
    requires forall k {:trigger Executable(table, sets, jobs[k])} :: 0 <= k < |jobs| ==> Executable(table, sets, jobs[k])
    ensures |Outputs(table, bodies, sets, jobs[..n])| <= JobBudget(jobs)
  {
    OutputsBound(table, bodies, sets, jobs[..n]);
    JobBudgetAppend(jobs[..n], jobs[n..]);
    assert jobs[..n] + jobs[n..] == jobs;
  }

  /** The job list `AddInstances` runs: one job per planned site, with line
      starts counted from `lineCount`, split at the clamped maximum job size. */
  function PlannedJobs(table: ExtractorTable, filter: Filter, sets: seq<ConstraintSet>, lineCount: nat,
                       processorCount: nat): seq<ThreadJob>
    requires processorCount > 0
  {
    var sites := PlannedSites(table, filter, sets);
    SplitJobs(JobsFor(sites, lineCount), MaximumJobSize(lineCount + LineTotal(sites), processorCount))
  }

  /** Splitting copies a job's own lines into each of its parts: jobs that
      start with no lines give parts with no lines. */
  lemma SplitJobsNoLines(jobs: seq<ThreadJob>, maximumJobSize: nat)
    requires maximumJobSize > 0 && forall i :: 0 <= i < |jobs| ==> jobs[i].jobLines == []
    ensures forall k :: 0 <= k < |SplitJobs(jobs, maximumJobSize)| ==> SplitJobs(jobs, maximumJobSize)[k].jobLines == []
  {
    forall k | 0 <= k < |SplitJobs(jobs, maximumJobSize)|
      ensures SplitJobs(jobs, maximumJobSize)[k].jobLines == []
    {
      SplitJobsWithin(jobs, maximumJobSize, k);
    }
  }

  /** Every job `AddInstances` runs can be run and starts with no lines of
      its own. */
  lemma PlannedJobsExecutableAll(table: ExtractorTable, filter: Filter, sets: seq<ConstraintSet>, lineCount: nat,
                                 processorCount: nat)
    requires processorCount > 0 && SolverShape(table, sets)
    ensures var jobs := PlannedJobs(table, filter, sets, lineCount, processorCount);
            forall k :: 0 <= k < |jobs| ==> Executable(table, sets, jobs[k]) && jobs[k].jobLines == []
  {
    var sites := PlannedSites(table, filter, sets);
    var planned := JobsFor(sites, lineCount);
    var m := MaximumJobSize(lineCount + LineTotal(sites), processorCount);
    PlannedJobsExecutable(table, filter, sets, lineCount);
    SplitJobsExecutable(table, sets, planned, m);
    forall i | 0 <= i < |planned|
      ensures planned[i].jobLines == []
    {
      JobsForAt(sites, lineCount, i);
    }
    SplitJobsNoLines(planned, m);
  }

  /** The jobs `AddInstances` runs are estimated at exactly the planned line
      count. */
  lemma PlannedJobsBudget(table: ExtractorTable, filter: Filter, sets: seq<ConstraintSet>, lineCount: nat,
                          processorCount: nat)
    requires processorCount > 0
    ensures JobBudget(PlannedJobs(table, filter, sets, lineCount, processorCount))
            == LineTotal(PlannedSites(table, filter, sets))
  {
    var sites := PlannedSites(table, filter, sets);
    var planned := JobsFor(sites, lineCount);
    var m := MaximumJobSize(lineCount + LineTotal(sites), processorCount);
    assert PlannedJobs(table, filter, sets, lineCount, processorCount) == SplitJobs(planned, m);
    SplitJobsBudget(planned, m);
    JobsForBudget(sites, lineCount);
    assert JobBudget(SplitJobs(planned, m)) == LineTotal(sites);
  }

  /** The lines of a whole `AddInstances` run: the outputs of the planned
      jobs, in job order. */
  ghost function PlannedOutput(table: ExtractorTable, bodies: Bodies, filter: Filter, sets: seq<ConstraintSet>,
                               lineCount: nat, processorCount: nat): seq<LineInstance>
    requires processorCount > 0 && SolverShape(table, sets)
  {
    PlannedJobsExecutableAll(table, filter, sets, lineCount, processorCount);
    Outputs(table, bodies, sets, PlannedJobs(table, filter, sets, lineCount, processorCount))
  }

  /** Every job of `jobs` can be run. */
  predicate AllExecutable(table: ExtractorTable, sets: seq<ConstraintSet>, jobs: seq<ThreadJob>)
  {
    forall i {:trigger Executable(table, sets, jobs[i])} :: 0 <= i < |jobs| ==> Executable(table, sets, jobs[i])
  }

  /** Running two runs of jobs one after the other yields the first run's
      lines followed by the second's. */
  lemma {:induction false} OutputsAppend(table: ExtractorTable, bodies: Bodies, sets: seq<ConstraintSet>,
                                         a: seq<ThreadJob>, b: seq<ThreadJob>)
    requires AllExecutable(table, sets, a) && AllExecutable(table, sets, b)
    ensures AllExecutable(table, sets, a + b)
    ensures Outputs(table, bodies, sets, a + b) == Outputs(table, bodies, sets, a) + Outputs(table, bodies, sets, b)
    decreases |b|
  {
    forall i | 0 <= i < |a + b|
      ensures Executable(table, sets, (a + b)[i])
    {
      if i < |a| {
        assert (a + b)[i] == a[i];
      } else {
        assert (a + b)[i] == b[i - |a|];
      }
    }
    if |b| == 0 {
      assert a + b == a;
    } else {
      var front := b[..|b| - 1];
      assert (a + b)[..|a + b| - 1] == a + front;
      OutputsAppend(table, bodies, sets, a, front);
    }
  }

  /** A nonempty run of jobs yields its first job's lines, then the rest's. */
  lemma OutputsFirstRest(table: ExtractorTable, bodies: Bodies, sets: seq<ConstraintSet>, parts: seq<ThreadJob>)
    requires |parts| > 0 && AllExecutable(table, sets, parts)
    ensures Executable(table, sets, parts[0]) && AllExecutable(table, sets, parts[1..])
    ensures Outputs(table, bodies, sets, parts)
            == JobOutput(table, bodies, sets, parts[0]) + Outputs(table, bodies, sets, parts[1..])
  {
    var first, rest := [parts[0]], parts[1..];
    assert parts == first + rest;
    assert AllExecutable(table, sets, rest) by {
      forall i | 0 <= i < |rest|
        ensures Executable(table, sets, rest[i])
      {
        assert rest[i] == parts[i + 1];
      }
    }
    assert AllExecutable(table, sets, first) by {
      assert Executable(table, sets, first[0]);
    }
    assert Outputs(table, bodies, sets, first) == JobOutput(table, bodies, sets, parts[0]) by {
      assert first[..0] == [];
    }
    OutputsAppend(table, bodies, sets, first, rest);
  }

  /** A split job's first part, then its remaining parts, yield the job's
      lines. */
  lemma SplitOutputsFirstRest(table: ExtractorTable, bodies: Bodies, sets: seq<ConstraintSet>, job: ThreadJob,
                              maximumJobSize: nat)
    requires maximumJobSize > 0 && Executable(table, sets, job)
    ensures Executable(table, sets, Split(job, maximumJobSize)[0])
    ensures AllExecutable(table, sets, Split(job, maximumJobSize)[1..])
    ensures JobOutput(table, bodies, sets, Split(job, maximumJobSize)[0])
            + Outputs(table, bodies, sets, Split(job, maximumJobSize)[1..])
            == JobOutput(table, bodies, sets, job)
  {
    SplitOutputs(table, bodies, sets, job, maximumJobSize);
    OutputsFirstRest(table, bodies, sets, Split(job, maximumJobSize));
  }

  /** Adding one job to a run adds its first part to the first parts and its
      remaining parts to the tails. */
  lemma FirstPartsTailsStep(table: ExtractorTable, bodies: Bodies, sets: seq<ConstraintSet>,
                            jobs: seq<ThreadJob>, maximumJobSize: nat)
    requires maximumJobSize > 0 && |jobs| > 0 && AllExecutable(table, sets, jobs)
    requires AllExecutable(table, sets, FirstParts(jobs[..|jobs| - 1], maximumJobSize))
    requires AllExecutable(table, sets, Tails(jobs[..|jobs| - 1], maximumJobSize))
    ensures Executable(table, sets, Split(jobs[|jobs| - 1], maximumJobSize)[0])
    ensures AllExecutable(table, sets, Split(jobs[|jobs| - 1], maximumJobSize)[1..])
    ensures AllExecutable(table, sets, FirstParts(jobs, maximumJobSize))
    ensures AllExecutable(table, sets, Tails(jobs, maximumJobSize))
    ensures Outputs(table, bodies, sets, FirstParts(jobs, maximumJobSize))
            == Outputs(table, bodies, sets, FirstParts(jobs[..|jobs| - 1], maximumJobSize))
               + JobOutput(table, bodies, sets, Split(jobs[|jobs| - 1], maximumJobSize)[0])
    ensures Outputs(table, bodies, sets, Tails(jobs, maximumJobSize))
            == Outputs(table, bodies, sets, Tails(jobs[..|jobs| - 1], maximumJobSize))
               + Outputs(table, bodies, sets, Split(jobs[|jobs| - 1], maximumJobSize)[1..])
  {
    var front, last := jobs[..|jobs| - 1], jobs[|jobs| - 1];
    assert Executable(table, sets, jobs[|jobs| - 1]);
    SplitOutputsFirstRest(table, bodies, sets, last, maximumJobSize);
    var parts := Split(last, maximumJobSize);
    var firsts, frontFirsts := FirstParts(jobs, maximumJobSize), FirstParts(front, maximumJobSize);
    assert firsts[..|firsts| - 1] == frontFirsts;
    assert AllExecutable(table, sets, firsts) by {
      forall i | 0 <= i < |firsts|
        ensures Executable(table, sets, firsts[i])
      {
        if i < |firsts| - 1 {
          assert firsts[i] == frontFirsts[i];
        }
      }
    }
    assert Tails(jobs, maximumJobSize) == Tails(front, maximumJobSize) + parts[1..];
    OutputsAppend(table, bodies, sets, Tails(front, maximumJobSize), parts[1..]);
  }

  /** The first parts and the remaining parts of a run of runnable jobs are
      runnable, and together they yield the run's lines, in another order. */
  lemma {:induction false} FirstPartsTailsOutputs(table: ExtractorTable, bodies: Bodies, sets: seq<ConstraintSet>,
                                                  jobs: seq<ThreadJob>, maximumJobSize: nat)
    requires maximumJobSize > 0 && AllExecutable(table, sets, jobs)
    ensures AllExecutable(table, sets, FirstParts(jobs, maximumJobSize))
    ensures AllExecutable(table, sets, Tails(jobs, maximumJobSize))
    ensures multiset(Outputs(table, bodies, sets, FirstParts(jobs, maximumJobSize)))
            + multiset(Outputs(table, bodies, sets, Tails(jobs, maximumJobSize)))
            == multiset(Outputs(table, bodies, sets, jobs))
    decreases |jobs|
  {
    if |jobs| > 0 {
      var front, last := jobs[..|jobs| - 1], jobs[|jobs| - 1];
      assert AllExecutable(table, sets, front) by {
        forall i | 0 <= i < |front|
          ensures Executable(table, sets, front[i])
        {
          assert front[i] == jobs[i];
        }
      }
      FirstPartsTailsOutputs(table, bodies, sets, front, maximumJobSize);
      FirstPartsTailsStep(table, bodies, sets, jobs, maximumJobSize);
      SplitOutputsFirstRest(table, bodies, sets, last, maximumJobSize);
      assert Outputs(table, bodies, sets, jobs)
             == Outputs(table, bodies, sets, front) + JobOutput(table, bodies, sets, last);
    }
  }

  /** Splitting a run of runnable jobs keeps every job runnable and keeps the
      lines they yield, up to order. */
  lemma SplitJobsOutputs(table: ExtractorTable, bodies: Bodies, sets: seq<ConstraintSet>,
                         jobs: seq<ThreadJob>, maximumJobSize: nat)
    requires maximumJobSize > 0 && AllExecutable(table, sets, jobs)
    ensures AllExecutable(table, sets, SplitJobs(jobs, maximumJobSize))
    ensures multiset(Outputs(table, bodies, sets, SplitJobs(jobs, maximumJobSize)))
            == multiset(Outputs(table, bodies, sets, jobs))
  {
    FirstPartsTailsOutputs(table, bodies, sets, jobs, maximumJobSize);
    OutputsAppend(table, bodies, sets, FirstParts(jobs, maximumJobSize), Tails(jobs, maximumJobSize));
  }

  /** The unsplit job for a picked site extracts the whole constraint range
      of the site's type batch through its registered extractor. */
  lemma PlannedJobOutput(table: ExtractorTable, bodies: Bodies, filter: Filter, sets: seq<ConstraintSet>,
                         base: nat, k: nat)
    requires SolverShape(table, sets) && k < |PlannedSites(table, filter, sets)|
    ensures var job := JobsFor(PlannedSites(table, filter, sets), base)[k];
            Executable(table, sets, job)
            && JobOutput(table, bodies, sets, job)
               == ExtractedLines(JobExtractor(table, sets, job), bodies, job.setIndex, TargetBatch(sets, job),
                                 0, TargetBatch(sets, job).constraintCount)
  {
    var sites := PlannedSites(table, filter, sets);
    JobsForAt(sites, base, k);
    PlannedSitesAreSelected(table, filter, sets, sites[k]);
    PlannedJobsExecutable(table, filter, sets, base);
  }

  /** The lines of a whole `AddInstances` run are, up to order, the lines of
      the unsplit planned jobs: each shown type batch's whole constraint
      range, in walk order. */
  lemma PlannedOutputPermutes(table: ExtractorTable, bodies: Bodies, filter: Filter, sets: seq<ConstraintSet>,
                              lineCount: nat, processorCount: nat)
    requires processorCount > 0 && SolverShape(table, sets)
    ensures AllExecutable(table, sets, JobsFor(PlannedSites(table, filter, sets), lineCount))
    ensures multiset(PlannedOutput(table, bodies, filter, sets, lineCount, processorCount))
            == multiset(Outputs(table, bodies, sets, JobsFor(PlannedSites(table, filter, sets), lineCount)))
  {
    var sites := PlannedSites(table, filter, sets);
    var planned := JobsFor(sites, lineCount);
    var m := MaximumJobSize(lineCount + LineTotal(sites), processorCount);
    assert PlannedJobs(table, filter, sets, lineCount, processorCount) == SplitJobs(planned, m);
    PlannedJobsExecutable(table, filter, sets, lineCount);
    assert AllExecutable(table, sets, planned);
    SplitJobsOutputs(table, bodies, sets, planned, m);
  }
}
