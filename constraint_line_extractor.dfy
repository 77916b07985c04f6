/** The renderer's constraint line extractor: a table of per-type extractors
    that grows on demand, and `AddInstances`, which plans one job per shown
    type batch, splits oversized jobs, runs every job and gathers their lines
    into the caller's line buffer. */
module ConstraintLineExtraction {
  import opened Arith
  import opened LineExtraction
  import opened JobPlanning

  /** The table after `AllocateSlot(typeId)`: grown with empty entries to
      `typeId + 1` entries when it was too short, otherwise unchanged. */
  function Allocated(table: ExtractorTable, typeId: nat): ExtractorTable
  {
    if typeId >= |table| then table + seq(typeId + 1 - |table|, _ => None) else table
  }

  /** After `AllocateSlot(typeId)` the table has a slot for `typeId`, every
      earlier entry is kept, new entries are empty, and the length changes
      only when it had to, to exactly `typeId + 1`. */
  lemma AllocatedSlot(table: ExtractorTable, typeId: nat)
    ensures |Allocated(table, typeId)| > typeId
    ensures |Allocated(table, typeId)| == if typeId < |table| then |table| else typeId + 1
    ensures Allocated(table, typeId)[..|table|] == table
    ensures forall id :: |table| <= id < |Allocated(table, typeId)| ==> Allocated(table, typeId)[id] == None
  {
  }

  /** The table the constructor builds: 32 empty entries, then each
      registration in turn allocates its type id's slot and fills it. */
  function Registered(registrations: seq<(nat, TypeLineExtractor)>): ExtractorTable
  {
    if |registrations| == 0 then seq(32, _ => None)
    else
      var (typeId, extractor) := registrations[|registrations| - 1];
      Allocated(Registered(registrations[..|registrations| - 1]), typeId)[typeId := Some(extractor)]
  }

  /** The constructed table has at least 32 entries and a slot for every
      registered type id. */
  lemma {:induction false} RegisteredCovers(registrations: seq<(nat, TypeLineExtractor)>)
    ensures |Registered(registrations)| >= 32
    ensures forall k :: 0 <= k < |registrations| ==> registrations[k].0 < |Registered(registrations)|
    decreases |registrations|
  {
    if |registrations| > 0 {
      var front := registrations[..|registrations| - 1];
      RegisteredCovers(front);
      AllocatedSlot(Registered(front), registrations[|registrations| - 1].0);
      forall k | 0 <= k < |registrations|
        ensures registrations[k].0 < |Registered(registrations)|
      {
        if k < |front| {
          assert front[k] == registrations[k];
        }
      }
    }
  }

  /** A registered type id holds the extractor of its last registration. */
  lemma {:induction false} RegisteredLast(registrations: seq<(nat, TypeLineExtractor)>, k: nat)
    requires k < |registrations|
    requires forall k' :: k < k' < |registrations| ==> registrations[k'].0 != registrations[k].0
    ensures registrations[k].0 < |Registered(registrations)|
    ensures Registered(registrations)[registrations[k].0] == Some(registrations[k].1)
    decreases |registrations|
  {
    var front := registrations[..|registrations| - 1];
    var typeId := registrations[|registrations| - 1].0;
    AllocatedSlot(Registered(front), typeId);
    if k < |front| {
      assert front[k] == registrations[k];
      forall k' | k < k' < |front|
        ensures front[k'].0 != front[k].0
      {
        assert front[k'] == registrations[k'];
      }
      RegisteredLast(front, k);
      assert typeId != front[k].0;
    }
  }

  /** A type id nobody registered holds nothing. */
  lemma {:induction false} RegisteredUnset(registrations: seq<(nat, TypeLineExtractor)>, id: nat)
    requires id < |Registered(registrations)|
    requires forall k :: 0 <= k < |registrations| ==> registrations[k].0 != id
    ensures Registered(registrations)[id] == None
    decreases |registrations|
  {
    if |registrations| > 0 {
      var front := registrations[..|registrations| - 1];
      var typeId := registrations[|registrations| - 1].0;
      AllocatedSlot(Registered(front), typeId);
      assert typeId != id;
      if id < |Registered(front)| {
        forall k | 0 <= k < |front|
          ensures front[k].0 != id
        {
          assert front[k] == registrations[k];
        }
        RegisteredUnset(front, id);
      }
    }
  }

  /** The constructed table has at least 32 entries and a slot for every
      registered type id; a type id holds the extractor of its last
      registration, and a type id nobody registered holds nothing. */
  lemma RegisteredEntries(registrations: seq<(nat, TypeLineExtractor)>)
    ensures |Registered(registrations)| >= 32
    ensures forall k :: 0 <= k < |registrations| ==> registrations[k].0 < |Registered(registrations)|
    ensures forall k :: 0 <= k < |registrations|
                        && (forall k' :: k < k' < |registrations| ==> registrations[k'].0 != registrations[k].0)
                        ==> Registered(registrations)[registrations[k].0] == Some(registrations[k].1)
    ensures forall id :: 0 <= id < |Registered(registrations)|
                         && (forall k :: 0 <= k < |registrations| ==> registrations[k].0 != id)
                         ==> Registered(registrations)[id] == None
  {
    RegisteredCovers(registrations);
    forall k | 0 <= k < |registrations|
               && (forall k' :: k < k' < |registrations| ==> registrations[k'].0 != registrations[k].0)
      ensures Registered(registrations)[registrations[k].0] == Some(registrations[k].1)
    {
      RegisteredLast(registrations, k);
    }
    forall id | 0 <= id < |Registered(registrations)|
                && (forall k :: 0 <= k < |registrations| ==> registrations[k].0 != id)
      ensures Registered(registrations)[id] == None
    {
      RegisteredUnset(registrations, id);
    }
  }

  /** The buffer with room for `capacity` lines: the same buffer when it is
      large enough, otherwise a larger one holding its first `count` lines
      (`QuickList.EnsureCapacity`). */
  method EnsureCapacity(lines: array<LineInstance>, count: nat, capacity: nat) returns (result: array<LineInstance>)
    requires count <= lines.Length
    ensures capacity <= result.Length && count <= result.Length
    ensures result[..count] == lines[..count]
    ensures result == lines || fresh(result)
  {
    if capacity <= lines.Length {
      result := lines;
    } else {
      result := new LineInstance[capacity](_ => LineInstance([]));
      forall k | 0 <= k < count {
        result[k] := lines[k];
      }
    }
  }

  /** Copies `source` into `target` from `start` on (`Span.CopyTo`). */
  method CopyTo(source: seq<LineInstance>, target: array<LineInstance>, start: nat)
    requires start + |source| <= target.Length
    modifies target
    ensures target[..start + |source|] == old(target[..start]) + source
    ensures target[start + |source|..] == old(target[start + |source|..])
  {
    forall k | 0 <= k < |source| {
      target[start + k] := source[k];
    }
    assert target[..start + |source|] == old(target[..start]) + source;
  }

  /** A job's extraction: its type batch's registered extractor run over the
      job's constraint range, appending to the job's own line list. */
  method ExtractJobLines(table: ExtractorTable, bodies: Bodies, sets: seq<ConstraintSet>, job: ThreadJob)
    returns (lines: seq<LineInstance>)
    requires Executable(table, sets, job)
    ensures lines == job.jobLines + JobOutput(table, bodies, sets, job)
  {
    var typeBatch := sets[job.setIndex].batches[job.batchIndex].typeBatches[job.typeBatchIndex];
    var extractor := table[typeBatch.typeId].value;
    lines := ExtractLines(extractor, bodies, job.setIndex, typeBatch, job.constraintStart, job.constraintCount,
                          job.jobLines);
  }

  /** The first parts and the tails of one more job: the job's first part
      and its other parts follow those of the jobs before it. */
  lemma SplitPrefixStep(jobs: seq<ThreadJob>, maximumJobSize: nat, i: nat)
    requires maximumJobSize > 0 && i < |jobs|
    ensures FirstParts(jobs[..i + 1], maximumJobSize)
            == FirstParts(jobs[..i], maximumJobSize) + [Split(jobs[i], maximumJobSize)[0]]
    ensures Tails(jobs[..i + 1], maximumJobSize)
            == Tails(jobs[..i], maximumJobSize) + Split(jobs[i], maximumJobSize)[1..]
    ensures jobs[i..] == [jobs[i]] + jobs[i + 1..]
  {
    assert jobs[..i + 1][..i] == jobs[..i];
  }

  /** Sub-job `j` of an oversized job follows sub-job `j - 1`: it starts
      where that one ends, in constraints and in lines, and takes
      `count / subjobCount` constraints, one more while `j` is below the
      remainder. */
  lemma NextSubjob(job: ThreadJob, maximumJobSize: nat, j: nat)
    requires 0 < maximumJobSize < job.constraintCount
    requires 0 < j < SubjobCount(job.constraintCount, maximumJobSize)
    ensures var subjobCount := SubjobCount(job.constraintCount, maximumJobSize);
            var per := job.constraintCount / subjobCount;
            var previous := Split(job, maximumJobSize)[j - 1];
            Split(job, maximumJobSize)[j]
            == previous.(lineStart := LineEnd(previous),
                         constraintStart := previous.constraintStart + previous.constraintCount,
                         constraintCount := if job.constraintCount - per * subjobCount > j then per + 1 else per)
  {
    var subjobCount := SubjobCount(job.constraintCount, maximumJobSize);
    SubjobCountBounds(job.constraintCount, maximumJobSize);
    SubJobNext(job, subjobCount, j);
  }

  /** An oversized job's first sub-job keeps the job's start and takes
      `count / subjobCount` constraints, one more when the division leaves a
      remainder. */
  lemma FirstSubjob(job: ThreadJob, maximumJobSize: nat)
    requires 0 < maximumJobSize < job.constraintCount
    ensures var subjobCount := SubjobCount(job.constraintCount, maximumJobSize);
            subjobCount > 0
            && var per := job.constraintCount / subjobCount;
               Split(job, maximumJobSize)[0]
               == job.(constraintCount := if job.constraintCount - per * subjobCount > 0 then per + 1 else per)
  {
    SubjobCountBounds(job.constraintCount, maximumJobSize);
  }

  /** A job within the limit is its own only part. */
  lemma SmallJobStays(job: ThreadJob, maximumJobSize: nat)
    requires 0 < maximumJobSize && job.constraintCount <= maximumJobSize
    ensures Split(job, maximumJobSize)[0] == job && Split(job, maximumJobSize)[1..] == []
  {
  }

  /** The element at `|a|` of `a + ([x] + b) + c` is `x`. */
  lemma ReplaceAt<T>(a: seq<T>, x: T, b: seq<T>, c: seq<T>)
    ensures (a + ([x] + b) + c)[|a|] == x
  {
  }

  /** Replacing the element at `|a|` of `a + ([x] + b) + c` by `y` and then
      appending `d` gives `a + [y]`, then `b`, then `c + d`. */
  lemma ReplaceThenAppend<T>(a: seq<T>, x: T, b: seq<T>, c: seq<T>, y: T, d: seq<T>)
    ensures (a + ([x] + b) + c)[|a| := y] + d == (a + [y]) + b + (c + d)
  {
    assert (a + ([x] + b) + c)[|a| := y] == a + [y] + b + c;
  }

  lemma AppendAssoc<T>(a: seq<T>, b: seq<T>, c: seq<T>)
    ensures a + b + c == a + (b + c)
  {
  }

  lemma AppendEmpty<T>(a: seq<T>)
    ensures a + [] == a
  {
  }

  /** The run of `ExecuteJobs` after the first `i` of the `original` jobs:
      each of them holds its output, the others are as they were, and the
      buffer's used part `lines` is what it held `before` followed by the
      outputs of those `i` jobs. */
  ghost predicate Ran(table: ExtractorTable, bodies: Bodies, sets: seq<ConstraintSet>, original: seq<ThreadJob>,
                      i: nat, jobs: seq<ThreadJob>, lines: seq<LineInstance>, before: seq<LineInstance>)
  {
    i <= |original| && (forall k :: 0 <= k < |original| ==> Executable(table, sets, original[k]))
    && |jobs| == |original|
    && (forall k :: 0 <= k < i ==> jobs[k] == original[k].(jobLines := JobOutput(table, bodies, sets, original[k])))
    && (forall k :: i <= k < |jobs| ==> jobs[k] == original[k])
    && lines == before + Outputs(table, bodies, sets, original[..i])
  }

  /** Before job `i` runs it is still the original job, it can run, and its
      lines fit within the run's estimate. */
  lemma RanReady(table: ExtractorTable, bodies: Bodies, sets: seq<ConstraintSet>, original: seq<ThreadJob>,
                 i: nat, jobs: seq<ThreadJob>, lines: seq<LineInstance>, before: seq<LineInstance>)
    requires i < |original| && Ran(table, bodies, sets, original, i, jobs, lines, before) && AllBounded(table)
    ensures jobs[i] == original[i] && Executable(table, sets, jobs[i])
    ensures |lines| + |JobOutput(table, bodies, sets, original[i])| <= |before| + JobBudget(original)
  {
    OutputsPrefixBound(table, bodies, sets, original, i + 1);
    OutputsNext(table, bodies, sets, original, i);
  }

  /** Job `i` appending its output to its empty line list and to the buffer
      extends the run by one job. */
  lemma RanStep(table: ExtractorTable, bodies: Bodies, sets: seq<ConstraintSet>, original: seq<ThreadJob>,
                i: nat, jobs: seq<ThreadJob>, lines: seq<LineInstance>, before: seq<LineInstance>,
                jobs': seq<ThreadJob>, lines': seq<LineInstance>)
    requires i < |original| && Ran(table, bodies, sets, original, i, jobs, lines, before)
    requires original[i].jobLines == [] && Executable(table, sets, original[i])
    requires jobs' == jobs[i := jobs[i].(jobLines := jobs[i].jobLines + JobOutput(table, bodies, sets, original[i]))]
    requires lines' == lines + jobs'[i].jobLines
    ensures Ran(table, bodies, sets, original, i + 1, jobs', lines', before)
  {
    var output := JobOutput(table, bodies, sets, original[i]);
    assert jobs'[i] == original[i].(jobLines := output);
    forall k | 0 <= k < i + 1
      ensures jobs'[k] == original[k].(jobLines := JobOutput(table, bodies, sets, original[k]))
    {
      if k < i {
        assert jobs'[k] == jobs[k];
      }
    }
    OutputsNext(table, bodies, sets, original, i);
    AppendAssoc(before, Outputs(table, bodies, sets, original[..i]), output);
  }

  class ConstraintLineExtractor {
    /** The extractor registered for each constraint type id. */
    var lineExtractors: ExtractorTable
    /** The jobs of the latest `AddInstances`. */
    var jobs: seq<ThreadJob>

    /** Registers the renderer's per-type extractors; their type ids are the
        constraint types' `BatchTypeId`s, given here as `registrations`. */
    constructor(registrations: seq<(nat, TypeLineExtractor)>)
      ensures lineExtractors == Registered(registrations)
      ensures jobs == []
    {
      lineExtractors := seq(32, _ => None);
      jobs := [];
      new;
      for k := 0 to |registrations|
        invariant lineExtractors == Registered(registrations[..k])
        invariant jobs == []
      {
        var (typeId, extractor) := registrations[k];
        AllocateSlot(typeId);
        lineExtractors := lineExtractors[typeId := Some(extractor)];
        assert registrations[..k + 1][..k] == registrations[..k];
      }
      assert registrations[..|registrations|] == registrations;
    }

    /** Makes room in the table for `typeId`. */
    method AllocateSlot(typeId: nat)
      modifies this
      ensures lineExtractors == Allocated(old(lineExtractors), typeId)
      ensures jobs == old(jobs)
    {
      if typeId >= |lineExtractors| {
        lineExtractors := lineExtractors + seq(typeId + 1 - |lineExtractors|, _ => None);
      }
    }

    /** Runs job `jobIndex`: extracts its lines into the job's own list, then
        reserves the next `n` slots of the target buffer by advancing its
        count by `n` (the job's line count) and copies the job's lines there.
        Reservations made one after another are disjoint and contiguous. */
    method ExecuteJob(jobIndex: nat, bodies: Bodies, sets: seq<ConstraintSet>,
                      target: array<LineInstance>, targetCount: nat)
      returns (newCount: nat)
      requires jobIndex < |jobs| && Executable(lineExtractors, sets, jobs[jobIndex])
      requires targetCount + |jobs[jobIndex].jobLines| + |JobOutput(lineExtractors, bodies, sets, jobs[jobIndex])|
               <= target.Length
      modifies this, target
      ensures lineExtractors == old(lineExtractors)
      ensures jobs == old(jobs)[jobIndex := old(jobs)[jobIndex].(jobLines := old(jobs)[jobIndex].jobLines
                                             + JobOutput(lineExtractors, bodies, sets, old(jobs)[jobIndex]))]
      ensures newCount == targetCount + |jobs[jobIndex].jobLines|
      ensures target[..newCount] == old(target[..targetCount]) + jobs[jobIndex].jobLines
      ensures target[newCount..] == old(target[newCount..])
    {
      var job := jobs[jobIndex];
      var jobLines := ExtractJobLines(lineExtractors, bodies, sets, job);
      jobs := jobs[jobIndex := job.(jobLines := jobLines)];
      newCount := targetCount + |jobLines|;
      var targetStart := newCount - |jobLines|;
      CopyTo(jobLines, target, targetStart);
    }

    /** The planning state: the table is `table`, the jobs are those of
        `sites` with lines counted from `base`, and the running estimate is
        `base` plus the lines of `sites`. */
    ghost predicate PlannedFor(table: ExtractorTable, sites: seq<Site>, base: nat, needed: nat)
      reads this
    {
      lineExtractors == table && jobs == JobsFor(sites, base) && needed == base + LineTotal(sites)
    }

    /** One turn of the innermost planning loop: type batch `typeBatchIndex`
        gets a job when its type has a registered extractor and passes the
        filter; the job covers all its constraints and its lines start at the
        running estimate, which then grows by the job's lines. */
    method PlanTypeBatch(filter: Filter, setIndex: nat, batchIndex: nat, typeBatches: seq<TypeBatch>,
                         typeBatchIndex: nat, ghost table: ExtractorTable, ghost sites: seq<Site>, ghost base: nat,
                         neededLineCapacity: nat)
      returns (needed: nat)
      requires typeBatchIndex < |typeBatches| && PlannedFor(table, sites, base, neededLineCapacity)
      modifies this
      ensures PlannedFor(table, sites + SitesOf(table, filter, setIndex, batchIndex, typeBatches, typeBatchIndex),
                         base, needed)
    {
      needed := neededLineCapacity;
      var typeBatch := typeBatches[typeBatchIndex];
      if typeBatch.typeId >= |lineExtractors| {
        assert sites + SitesOf(table, filter, setIndex, batchIndex, typeBatches, typeBatchIndex) == sites;
        return;
      }
      var extractor := lineExtractors[typeBatch.typeId];
      var isContactBatch := filter.isContact(typeBatch.typeId);
      if extractor.Some? && ((isContactBatch && filter.showContacts) || (!isContactBatch && filter.showConstraints)) {
        var site := Site(setIndex, batchIndex, typeBatchIndex, typeBatch.constraintCount,
                         extractor.value.linesPerConstraint);
        JobsForSnoc(sites, site, base);
        jobs := jobs + [ThreadJob(setIndex, batchIndex, typeBatchIndex, 0, typeBatch.constraintCount,
                                  needed, extractor.value.linesPerConstraint, [])];
        MulNonneg(extractor.value.linesPerConstraint, typeBatch.constraintCount);
        needed := needed + extractor.value.linesPerConstraint * typeBatch.constraintCount;
      } else {
        assert sites + SitesOf(table, filter, setIndex, batchIndex, typeBatches, typeBatchIndex) == sites;
      }
    }

    /** The innermost planning loop, over the type batches of one batch. */
    method PlanTypeBatches(filter: Filter, setIndex: nat, batchIndex: nat, typeBatches: seq<TypeBatch>,
                           ghost table: ExtractorTable, ghost before: seq<Site>, ghost base: nat,
                           neededLineCapacity: nat)
      returns (needed: nat)
      requires PlannedFor(table, before, base, neededLineCapacity)
      modifies this
      ensures PlannedFor(table, before + TypeBatchSites(table, filter, setIndex, batchIndex, typeBatches,
                                                        |typeBatches|), base, needed)
    {
      needed := neededLineCapacity;
      AppendEmpty(before);
      for typeBatchIndex := 0 to |typeBatches|
        invariant PlannedFor(table, before + TypeBatchSites(table, filter, setIndex, batchIndex, typeBatches,
                                                            typeBatchIndex), base, needed)
      {
        ghost var done := TypeBatchSites(table, filter, setIndex, batchIndex, typeBatches, typeBatchIndex);
        ghost var next := SitesOf(table, filter, setIndex, batchIndex, typeBatches, typeBatchIndex);
        needed := PlanTypeBatch(filter, setIndex, batchIndex, typeBatches, typeBatchIndex, table, before + done, base,
                                needed);
        AppendAssoc(before, done, next);
      }
    }

    /** The middle planning loop, over the batches of one allocated set. */
    method PlanBatches(filter: Filter, setIndex: nat, batches: seq<ConstraintBatch>,
                       ghost table: ExtractorTable, ghost before: seq<Site>, ghost base: nat, neededLineCapacity: nat)
      returns (needed: nat)
      requires PlannedFor(table, before, base, neededLineCapacity)
      modifies this
      ensures PlannedFor(table, before + BatchSites(table, filter, setIndex, batches, |batches|), base, needed)
    {
      needed := neededLineCapacity;
      AppendEmpty(before);
      for batchIndex := 0 to |batches|
        invariant PlannedFor(table, before + BatchSites(table, filter, setIndex, batches, batchIndex), base, needed)
      {
        ghost var done := BatchSites(table, filter, setIndex, batches, batchIndex);
        var typeBatches := batches[batchIndex].typeBatches;
        ghost var next := TypeBatchSites(table, filter, setIndex, batchIndex, typeBatches, |typeBatches|);
        needed := PlanTypeBatches(filter, setIndex, batchIndex, typeBatches, table, before + done, base, needed);
        AppendAssoc(before, done, next);
      }
    }

    /** The planning walk of `AddInstances`: sets, then their batches, then
        their type batches; unallocated sets are skipped. The jobs are one per
        planned site and the estimate is `lineCount` plus their lines. */
    method PlanJobs(filter: Filter, sets: seq<ConstraintSet>, lineCount: nat) returns (needed: nat)
      modifies this
      ensures lineExtractors == old(lineExtractors)
      ensures jobs == JobsFor(PlannedSites(lineExtractors, filter, sets), lineCount)
      ensures needed == lineCount + LineTotal(PlannedSites(lineExtractors, filter, sets))
    {
      ghost var table := lineExtractors;
      needed := lineCount;
      jobs := [];
      for setIndex := 0 to |sets|
        invariant PlannedFor(table, SetSites(table, filter, sets, setIndex), lineCount, needed)
      {
        ghost var done := SetSites(table, filter, sets, setIndex);
        if sets[setIndex].isAllocated {
          needed := PlanBatches(filter, setIndex, sets[setIndex].batches, table, done, lineCount, needed);
        } else {
          AppendEmpty(done);
        }
      }
    }

    /** The sub-jobs after the first: each starts where the previous one
        ends, in constraints and in lines, and takes `constraintsPerSubjob`
        constraints, one more while `j < remainder`. */
    method AppendSubjobs(ghost job: ThreadJob, maximumJobSize: nat, first: ThreadJob, subjobCount: nat,
                         constraintsPerSubjob: nat, remainder: int)
      requires 0 < maximumJobSize < job.constraintCount
      requires subjobCount == SubjobCount(job.constraintCount, maximumJobSize)
      requires constraintsPerSubjob == job.constraintCount / subjobCount
      requires remainder == job.constraintCount - constraintsPerSubjob * subjobCount
      requires first == Split(job, maximumJobSize)[0]
      modifies this
      ensures lineExtractors == old(lineExtractors)
      ensures jobs == old(jobs) + Split(job, maximumJobSize)[1..]
    {
      SubjobCountBounds(job.constraintCount, maximumJobSize);
      ghost var parts := Split(job, maximumJobSize);
      var previousJob := first;
      for j := 1 to subjobCount
        invariant previousJob == parts[j - 1]
        invariant lineExtractors == old(lineExtractors)
        invariant jobs == old(jobs) + parts[1..j]
      {
        var newJob := previousJob;
        MulNonneg(previousJob.constraintCount, newJob.linesPerConstraint);
        newJob := newJob.(lineStart := newJob.lineStart + previousJob.constraintCount * newJob.linesPerConstraint);
        newJob := newJob.(constraintStart := newJob.constraintStart + previousJob.constraintCount);
        newJob := newJob.(constraintCount := constraintsPerSubjob);
        if remainder > j {
          newJob := newJob.(constraintCount := newJob.constraintCount + 1);
        }
        NextSubjob(job, maximumJobSize, j);
        jobs := jobs + [newJob];
        assert parts[1..j + 1] == parts[1..j] + [parts[j]];
        previousJob := newJob;
      }
    }

    /** The state of the split loop after the first `i` of the `original`
        jobs: each has become its first sub-job in place, the rest are as they
        were, and the other sub-jobs of the first `i` follow them in order. */
    ghost predicate SplitFirst(table: ExtractorTable, original: seq<ThreadJob>, maximumJobSize: nat, i: nat)
      reads this
    {
      maximumJobSize > 0 && i <= |original| && lineExtractors == table
      && jobs == FirstParts(original[..i], maximumJobSize) + original[i..] + Tails(original[..i], maximumJobSize)
    }

    /** One turn of the split loop: job `i`, when larger than
        `maximumJobSize`, is replaced by its first sub-job and its other
        sub-jobs are appended. */
    method SplitNext(ghost table: ExtractorTable, ghost original: seq<ThreadJob>, maximumJobSize: nat, i: nat)
      requires i < |original| && SplitFirst(table, original, maximumJobSize, i)
      modifies this
      ensures SplitFirst(table, original, maximumJobSize, i + 1)
    {
      ghost var job := original[i];
      ghost var firsts := FirstParts(original[..i], maximumJobSize);
      ghost var tails := Tails(original[..i], maximumJobSize);
      SplitPrefixStep(original, maximumJobSize, i);
      ReplaceAt(firsts, job, original[i + 1..], tails);
      if jobs[i].constraintCount > maximumJobSize {
        SplitJob(i, maximumJobSize);
        ReplaceThenAppend(firsts, job, original[i + 1..], tails, Split(job, maximumJobSize)[0],
                          Split(job, maximumJobSize)[1..]);
      } else {
        SmallJobStays(job, maximumJobSize);
        ReplaceThenAppend(firsts, job, original[i + 1..], tails, job, []);
      }
    }

    /** Splits job `i`, which is larger than `maximumJobSize`: its first
        sub-job takes its place and the others are appended. */
    method SplitJob(i: nat, maximumJobSize: nat)
      requires i < |jobs| && 0 < maximumJobSize < jobs[i].constraintCount
      modifies this
      ensures lineExtractors == old(lineExtractors)
      ensures jobs == old(jobs)[i := Split(old(jobs)[i], maximumJobSize)[0]] + Split(old(jobs)[i], maximumJobSize)[1..]
    {
      ghost var job := jobs[i];
      var count := jobs[i].constraintCount;
      var subjobCount := SubjobCount(count, maximumJobSize);
      SubjobCountBounds(count, maximumJobSize);
      DivModBounds(count, subjobCount);
      var constraintsPerSubjob: nat := count / subjobCount;
      var remainder: int := count - constraintsPerSubjob * subjobCount;
      var first := jobs[i].(constraintCount := constraintsPerSubjob);
      if remainder > 0 {
        first := first.(constraintCount := first.constraintCount + 1);
      }
      FirstSubjob(job, maximumJobSize);
      jobs := jobs[i := first];
      AppendSubjobs(job, maximumJobSize, first, subjobCount, constraintsPerSubjob, remainder);
    }

    /** The split loop of `AddInstances`: every job larger than
        `maximumJobSize` becomes its first sub-job in place, and its other
        sub-jobs are appended after the jobs already there. */
    method SplitOversizedJobs(maximumJobSize: nat)
      requires maximumJobSize > 0
      modifies this
      ensures lineExtractors == old(lineExtractors)
      ensures jobs == SplitJobs(old(jobs), maximumJobSize)
    {
      ghost var table := lineExtractors;
      ghost var original := jobs;
      var originalJobCount := |jobs|;
      assert original[..0] == [] && original[0..] == original;
      for i := 0 to originalJobCount
        invariant SplitFirst(table, original, maximumJobSize, i)
      {
        SplitNext(table, original, maximumJobSize, i);
      }
      assert original[..originalJobCount] == original;
    }

    /** Gives every job an empty line list: `AddInstances` does this before
        running the jobs, and when it disposes of their lists afterwards. */
    method ClearJobLines()
      modifies this
      ensures lineExtractors == old(lineExtractors)
      ensures |jobs| == |old(jobs)|
      ensures forall k :: 0 <= k < |jobs| ==> jobs[k] == old(jobs)[k].(jobLines := [])
    {
      for i := 0 to |jobs|
        invariant lineExtractors == old(lineExtractors)
        invariant |jobs| == |old(jobs)|
        invariant forall k :: 0 <= k < |jobs| ==> jobs[k] == if k < i then old(jobs)[k].(jobLines := []) else old(jobs)[k]
      {
        jobs := jobs[i := jobs[i].(jobLines := [])];
      }
    }

    /** One turn of the `ExecuteJobs` loop: job `i` runs and its lines follow
        those of the jobs before it. */
    method RunNext(ghost table: ExtractorTable, bodies: Bodies, sets: seq<ConstraintSet>, ghost original: seq<ThreadJob>,
                   i: nat, target: array<LineInstance>, ghost before: seq<LineInstance>, count: nat)
      returns (newCount: nat)
      requires lineExtractors == table && count <= target.Length
      requires i < |original| && Ran(table, bodies, sets, original, i, jobs, target[..count], before)
      requires original[i].jobLines == [] && AllBounded(table)
      requires |before| + JobBudget(original) <= target.Length
      modifies this, target
      ensures lineExtractors == table && newCount <= target.Length
      ensures Ran(table, bodies, sets, original, i + 1, jobs, target[..newCount], before)
    {
      ghost var lines := target[..count];
      ghost var previous := jobs;
      RanReady(table, bodies, sets, original, i, jobs, lines, before);
      newCount := ExecuteJob(i, bodies, sets, target, count);
      RanStep(table, bodies, sets, original, i, previous, lines, before, jobs, target[..newCount]);
    }

    /** Runs every job, in job order, into the target buffer: the buffer then
        holds its earlier `targetCount` lines followed by every job's lines. */
    method ExecuteJobs(bodies: Bodies, sets: seq<ConstraintSet>, target: array<LineInstance>, targetCount: nat)
      returns (newCount: nat)
      requires forall k :: 0 <= k < |jobs| ==> Executable(lineExtractors, sets, jobs[k]) && jobs[k].jobLines == []
      requires AllBounded(lineExtractors)
      requires targetCount + JobBudget(jobs) <= target.Length
      modifies this, target
      ensures lineExtractors == old(lineExtractors)
      ensures |jobs| == |old(jobs)|
      ensures forall k :: 0 <= k < |jobs| ==>
                jobs[k] == old(jobs)[k].(jobLines := JobOutput(lineExtractors, bodies, sets, old(jobs)[k]))
      ensures newCount == targetCount + |Outputs(lineExtractors, bodies, sets, old(jobs))| <= target.Length
      ensures target[..newCount] == old(target[..targetCount]) + Outputs(lineExtractors, bodies, sets, old(jobs))
    {
      ghost var table := lineExtractors;
      ghost var original := jobs;
      ghost var before := target[..targetCount];
      newCount := targetCount;
      assert original[..0] == [];
      for i := 0 to |jobs|
        invariant lineExtractors == table && newCount <= target.Length
        invariant Ran(table, bodies, sets, original, i, jobs, target[..newCount], before)
      {
        newCount := RunNext(table, bodies, sets, original, i, target, before, newCount);
      }
      assert original[..|original|] == original;
    }

    /** The planning half of `AddInstances`: one job per shown type batch of
        the allocated sets, then the oversized jobs split by the maximum job
        size derived from the estimate. */
    method Plan(filter: Filter, sets: seq<ConstraintSet>, lineCount: nat, processorCount: nat)
      returns (neededLineCapacity: nat)
      requires processorCount > 0
      modifies this
      ensures lineExtractors == old(lineExtractors)
      ensures jobs == PlannedJobs(lineExtractors, filter, sets, lineCount, processorCount)
      ensures neededLineCapacity == lineCount + LineTotal(PlannedSites(lineExtractors, filter, sets))
    {
      neededLineCapacity := PlanJobs(filter, sets, lineCount);
      var maximumJobSize := Min(JobSizeCap, Max(1, neededLineCapacity / (JobsPerThread * processorCount)));
      assert maximumJobSize == MaximumJobSize(neededLineCapacity, processorCount);
      SplitOversizedJobs(maximumJobSize);
    }

    /** The running half of `AddInstances`: every job gets a fresh empty line
        list, runs into the target buffer, and its list is disposed of. */
    method RunJobs(bodies: Bodies, sets: seq<ConstraintSet>, target: array<LineInstance>, targetCount: nat)
      returns (newCount: nat)
      requires forall k :: 0 <= k < |jobs| ==> Executable(lineExtractors, sets, jobs[k]) && jobs[k].jobLines == []
      requires AllBounded(lineExtractors)
      requires targetCount + JobBudget(jobs) <= target.Length
      modifies this, target
      ensures lineExtractors == old(lineExtractors) && jobs == old(jobs)
      ensures newCount <= targetCount + JobBudget(jobs)
      ensures target[..newCount] == old(target[..targetCount]) + Outputs(lineExtractors, bodies, sets, jobs)
    {
      ghost var planned := jobs;
      ClearJobLines();
      assert jobs == planned;
      OutputsBound(lineExtractors, bodies, sets, planned);
      newCount := ExecuteJobs(bodies, sets, target, targetCount);
      ClearJobLines();
      assert jobs == planned;
    }

    /** Plans one job per shown type batch of the allocated sets, splits the
        oversized ones, makes room in `lines` for the estimate, runs every
        job and appends their lines after the `lineCount` lines already
        there. The jobs are left with empty line lists. */
    method AddInstances(bodies: Bodies, sets: seq<ConstraintSet>, filter: Filter,
                        lines: array<LineInstance>, lineCount: nat, processorCount: nat)
      returns (result: array<LineInstance>, resultCount: nat)
      requires processorCount > 0 && lineCount <= lines.Length
      requires SolverShape(lineExtractors, sets) && AllBounded(lineExtractors)
      modifies this, lines
      ensures lineExtractors == old(lineExtractors)
      ensures jobs == PlannedJobs(lineExtractors, filter, sets, lineCount, processorCount)
      ensures result == lines || fresh(result)
      ensures lineCount + LineTotal(PlannedSites(lineExtractors, filter, sets)) <= result.Length
      ensures resultCount <= lineCount + LineTotal(PlannedSites(lineExtractors, filter, sets))
      ensures result[..resultCount]
              == old(lines[..lineCount]) + PlannedOutput(lineExtractors, bodies, filter, sets, lineCount, processorCount)
    {
      var neededLineCapacity := Plan(filter, sets, lineCount, processorCount);
      PlannedJobsExecutableAll(lineExtractors, filter, sets, lineCount, processorCount);
      PlannedJobsBudget(lineExtractors, filter, sets, lineCount, processorCount);
      result := EnsureCapacity(lines, lineCount, neededLineCapacity);
      resultCount := RunJobs(bodies, sets, result, lineCount);
    }
  }
}
