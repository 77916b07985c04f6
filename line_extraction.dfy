/** Per-type line extraction: walk a range of constraint slots of one type
    batch, skip the empty ones, gather each live constraint's body indices
    from its lane of the body-reference bundles, and hand the constraint's
    lane of the prestep data to the type's extractor, which appends lines. */
module LineExtraction {
  import opened Arith
  import opened GatherScatter

  /** `Bodies.BodyReferenceMask` keeps the low bits of a stored body reference,
      which hold the body's index or handle; the bits above carry flags. The
      mask is `2^ReferenceBits - 1`, with the bit count left unknown. */
  type ReferenceBitCount = k: nat | 1 <= k <= 31 witness 30
  const ReferenceBits: ReferenceBitCount

  function Pow2(k: nat): (p: nat)
    ensures p >= 1
  {
    if k == 0 then 1 else 2 * Pow2(k - 1)
  }

  /** `reference & BodyReferenceMask` on a 32-bit two's-complement integer:
      with a mask of the low `ReferenceBits` bits this is the Euclidean
      remainder modulo `2^ReferenceBits`, also for negative references. */
  function Masked(reference: int): (index: nat)
    ensures index < Pow2(ReferenceBits)
  {
    reference % Pow2(ReferenceBits)
  }

  /** One line to draw. Its float geometry and colour are opaque here: a line
      is carried as its raw 4-byte words. */
  datatype LineInstance = LineInstance(words: seq<int>)

  /** What the extractor may consult about bodies: `Bodies.HandleToLocation`,
      from a body handle to the index of the body within its set. */
  datatype Bodies = Bodies(handleToIndex: int -> int)

  /** A type batch of the solver. Constraint `i` lives in lane `i % W` of
      bundle `i / W`; `prestepData` and `bodyReferences` hold one record per
      bundle, as runs of 4-byte slots; a negative handle marks an empty slot. */
  datatype TypeBatch = TypeBatch(
    typeId: nat,
    constraintCount: nat,
    indexToHandle: seq<int>,
    prestepData: seq<seq<int>>,
    bodyReferences: seq<seq<int>>)

  /** A registered per-type extractor: how many lines it reports per
      constraint, how many bodies a constraint of its type references (the
      body-reference record is that many `Vector<int>`), and the line
      extraction itself, from a constraint's prestep lane, its set index, its
      body indices and the bodies. */
  datatype TypeLineExtractor = TypeLineExtractor(
    linesPerConstraint: nat,
    bodyCount: nat,
    extract: (seq<int>, nat, seq<nat>, Bodies) -> seq<LineInstance>)

  /** The extractor never appends more lines than it reports per constraint. */
  ghost predicate BoundedOutput(e: TypeLineExtractor)
  {
    forall prestep, setIndex, bodyIndices, bodies ::
      |e.extract(prestep, setIndex, bodyIndices, bodies)| <= e.linesPerConstraint
  }

  /** The shape a type batch has in the solver: its slots (at least
      `ConstraintCount` of them) fall in bundles that exist, and every bundle
      has a prestep record of at least one vector and a body-reference record
      of `bodyCount` vectors. */
  predicate WellFormed(tb: TypeBatch, bodyCount: nat)
  {
    tb.constraintCount <= |tb.indexToHandle| <= Slot(|tb.bodyReferences|, 0)
    && |tb.prestepData| == |tb.bodyReferences|
    && (forall b :: 0 <= b < |tb.bodyReferences| ==> Slot(bodyCount, 0) <= |tb.bodyReferences[b]|)
    && (forall b :: 0 <= b < |tb.prestepData| ==> W <= |tb.prestepData[b]|)
  }

  /** `BundleIndexing.GetBundleIndices`: constraint index to bundle and lane. */
  function BundleIndices(i: nat): (r: (nat, nat))
    ensures r.1 < W && i == Slot(r.0, r.1)
  {
    SlotOfPosition(i);
    (i / W, i % W)
  }

  /** A slot of a well-formed type batch lies in a bundle that has records. */
  lemma BundleOfSlot(tb: TypeBatch, bodyCount: nat, i: nat)
    requires WellFormed(tb, bodyCount) && i < |tb.indexToHandle|
    ensures BundleIndices(i).0 < |tb.bodyReferences| && BundleIndices(i).0 < |tb.prestepData|
  {
    var (b, l) := BundleIndices(i);
    SlotLane(b, l);
    SlotBefore(|tb.bodyReferences|, b, 0);
  }

  /** The body index passed for one stored reference: the masked reference
      itself in the active set (set 0); in an inactive set the masked
      reference is a body handle, and the index is the masked index of that
      body. Either way the result has its flag bits clear. */
  function BodyIndex(bodies: Bodies, setIndex: nat, reference: int): (index: nat)
    ensures index < Pow2(ReferenceBits)
  {
    if setIndex == 0 then Masked(reference) else Masked(bodies.handleToIndex(Masked(reference)))
  }

  /** The first `n` body indices of the constraint in lane `lane` of a bundle
      whose body-reference record is `references`: body `j`'s reference is
      lane `lane` of the `j`-th vector of the record. */
  function BodyIndices(bodies: Bodies, setIndex: nat, references: seq<int>, lane: nat, n: nat)
    : (indices: seq<nat>)
    requires lane < W && Slot(n, 0) <= |references|
    ensures |indices| == n
  {
    if n == 0 then []
    else
      SlotBefore(n - 1, n, lane);
      SlotBefore(n - 1, n, 0);
      SlotLane(n - 1, lane);
      BodyIndices(bodies, setIndex, references, lane, n - 1)
      + [BodyIndex(bodies, setIndex, references[Get(Slot(n - 1, 0), lane)])]
  }

  /** Body `j`'s index is read from slot `Slot(j, lane)` of the record, i.e.
      from lane `lane` of its `j`-th vector, and has its flag bits clear. */
  lemma {:induction false} BodyIndicesFromLane(bodies: Bodies, setIndex: nat, references: seq<int>, lane: nat,
                                               n: nat, j: nat)
    requires lane < W && Slot(n, 0) <= |references| && j < n
    ensures Slot(j, lane) < |references|
    ensures BodyIndices(bodies, setIndex, references, lane, n)[j] == BodyIndex(bodies, setIndex, references[Slot(j, lane)])
    ensures BodyIndices(bodies, setIndex, references, lane, n)[j] < Pow2(ReferenceBits)
    decreases n
  {
    SlotBefore(j, n, lane);
    SlotLane(j, lane);
    if j < n - 1 {
      SlotBefore(n - 1, n, 0);
      BodyIndicesFromLane(bodies, setIndex, references, lane, n - 1, j);
    }
  }

  /** What the extractor is handed for the prestep data:
      `GetOffsetInstance(prestepBundle, lane)`, the bundle's record seen from
      slot `lane` on. */
  function PrestepView(prestep: seq<int>, lane: nat): (view: seq<int>)
    requires lane < W <= |prestep|
    ensures |view| == |prestep| - lane
  {
    prestep[GetOffsetInstance(0, lane)..]
  }

  /** Reading the first slot of vector `k` of the view, as an extractor that
      works on lane 0 does, reads lane `lane` of vector `k` of the record. */
  lemma PrestepViewReadsLane(prestep: seq<int>, lane: nat, k: nat)
    requires lane < W <= |prestep| && Slot(k, lane) < |prestep|
    ensures GetFirst(Slot(k, 0)) < |PrestepView(prestep, lane)|
    ensures PrestepView(prestep, lane)[GetFirst(Slot(k, 0))] == prestep[Slot(k, lane)]
  {
    OffsetInstanceReadsLane(0, lane, k);
  }

  /** The lines the extractor appends for the constraint in slot `i`. */
  function ConstraintLines(e: TypeLineExtractor, bodies: Bodies, setIndex: nat, tb: TypeBatch, i: nat)
    : seq<LineInstance>
    requires WellFormed(tb, e.bodyCount) && i < |tb.indexToHandle|
  {
    BundleOfSlot(tb, e.bodyCount, i);
    var (bundle, lane) := BundleIndices(i);
    e.extract(PrestepView(tb.prestepData[bundle], lane), setIndex,
              BodyIndices(bodies, setIndex, tb.bodyReferences[bundle], lane, e.bodyCount), bodies)
  }

  /** The constraint in slot `i` is read from bundle `i / W`, lane `i % W`. */
  lemma ConstraintLinesAt(e: TypeLineExtractor, bodies: Bodies, setIndex: nat, tb: TypeBatch, i: nat)
    requires WellFormed(tb, e.bodyCount) && i < |tb.indexToHandle|
    ensures BundleIndices(i).0 < |tb.bodyReferences| && BundleIndices(i).0 < |tb.prestepData|
    ensures ConstraintLines(e, bodies, setIndex, tb, i)
            == e.extract(PrestepView(tb.prestepData[BundleIndices(i).0], BundleIndices(i).1), setIndex,
                         BodyIndices(bodies, setIndex, tb.bodyReferences[BundleIndices(i).0], BundleIndices(i).1,
                                     e.bodyCount),
                         bodies)
  {
    BundleOfSlot(tb, e.bodyCount, i);
  }

  /** The lines appended for slot `i`: the extractor's lines for a live
      slot, nothing for an empty one (negative handle). */
  function SlotLines(e: TypeLineExtractor, bodies: Bodies, setIndex: nat, tb: TypeBatch, i: nat)
    : seq<LineInstance>
    requires WellFormed(tb, e.bodyCount) && i < |tb.indexToHandle|
  {
    if tb.indexToHandle[i] >= 0 then ConstraintLines(e, bodies, setIndex, tb, i) else []
  }

  /** The lines extracted from slots `[start, end)`: each live slot's lines,
      in ascending slot order; empty slots contribute nothing. */
  function ExtractedLines(e: TypeLineExtractor, bodies: Bodies, setIndex: nat, tb: TypeBatch, start: nat, end: nat)
    : seq<LineInstance>
    requires WellFormed(tb, e.bodyCount) && start <= end <= |tb.indexToHandle|
    decreases end - start
  {
    if start == end then []
    else ExtractedLines(e, bodies, setIndex, tb, start, end - 1) + SlotLines(e, bodies, setIndex, tb, end - 1)
  }

  /** Extracting two adjacent ranges one after the other gives the lines of the
      whole range: a range can be split into sub-ranges without changing the
      output, only where it is placed. */
  lemma {:induction false} ExtractedLinesSplit(e: TypeLineExtractor, bodies: Bodies, setIndex: nat, tb: TypeBatch,
                                               start: nat, mid: nat, end: nat)
    requires WellFormed(tb, e.bodyCount) && start <= mid <= end <= |tb.indexToHandle|
    ensures ExtractedLines(e, bodies, setIndex, tb, start, mid) + ExtractedLines(e, bodies, setIndex, tb, mid, end)
            == ExtractedLines(e, bodies, setIndex, tb, start, end)
    decreases end - mid
  {
    if mid < end {
      ExtractedLinesSplit(e, bodies, setIndex, tb, start, mid, end - 1);
    }
  }

  /** A slot yields at most `LinesPerConstraint` lines when its extractor
      keeps to that count. */
  lemma SlotLinesBound(e: TypeLineExtractor, bodies: Bodies, setIndex: nat, tb: TypeBatch, i: nat)
    requires WellFormed(tb, e.bodyCount) && i < |tb.indexToHandle| && BoundedOutput(e)
    ensures |SlotLines(e, bodies, setIndex, tb, i)| <= e.linesPerConstraint
  {
    if tb.indexToHandle[i] >= 0 {
      ConstraintLinesAt(e, bodies, setIndex, tb, i);
    }
  }

  /** One more slot adds at most `LinesPerConstraint` lines to a range. */
  lemma ExtractedLinesGrow(e: TypeLineExtractor, bodies: Bodies, setIndex: nat, tb: TypeBatch, start: nat, end: nat)
    requires WellFormed(tb, e.bodyCount) && start < end <= |tb.indexToHandle| && BoundedOutput(e)
    ensures |ExtractedLines(e, bodies, setIndex, tb, start, end)|
            <= |ExtractedLines(e, bodies, setIndex, tb, start, end - 1)| + e.linesPerConstraint
  {
    SlotLinesBound(e, bodies, setIndex, tb, end - 1);
  }

  /** An extractor that keeps to its reported line count yields at most
      `LinesPerConstraint` lines per slot of the range: the estimate
      `LinesPerConstraint * ConstraintCount` is conservative. */
  lemma {:induction false} ExtractedLinesBound(e: TypeLineExtractor, bodies: Bodies, setIndex: nat, tb: TypeBatch,
                                               start: nat, end: nat)
    requires WellFormed(tb, e.bodyCount) && start <= end <= |tb.indexToHandle| && BoundedOutput(e)
    ensures |ExtractedLines(e, bodies, setIndex, tb, start, end)| <= e.linesPerConstraint * (end - start)
    decreases end - start
  {
    if start < end {
      ExtractedLinesBound(e, bodies, setIndex, tb, start, end - 1);
      ExtractedLinesGrow(e, bodies, setIndex, tb, start, end);
      MulStep(e.linesPerConstraint, start, end);
    }
  }

  /** One step of `ExtractLines` on a live slot: appending the extractor's
      lines for the constraint's prestep lane and body indices extends the
      output by that slot. */
  lemma ExtendByLiveSlot(e: TypeLineExtractor, bodies: Bodies, setIndex: nat, tb: TypeBatch, start: nat, i: nat,
                         lines: seq<LineInstance>, indices: seq<nat>)
    requires WellFormed(tb, e.bodyCount) && start <= i < |tb.indexToHandle| && tb.indexToHandle[i] >= 0
    requires BundleIndices(i).0 < |tb.bodyReferences| && BundleIndices(i).0 < |tb.prestepData|
    requires indices == BodyIndices(bodies, setIndex, tb.bodyReferences[BundleIndices(i).0], BundleIndices(i).1,
                                    e.bodyCount)
    ensures lines + ExtractedLines(e, bodies, setIndex, tb, start, i)
              + e.extract(PrestepView(tb.prestepData[BundleIndices(i).0], BundleIndices(i).1), setIndex, indices, bodies)
            == lines + ExtractedLines(e, bodies, setIndex, tb, start, i + 1)
  {
    ConstraintLinesAt(e, bodies, setIndex, tb, i);
  }

  /** The inner loop of the active-set branch: body `j`'s index is its
      stored reference, masked. */
  method LoadActiveBodyIndices(bodies: Bodies, references: seq<int>, bodyCount: nat, innerIndex: nat,
                               bodyIndices: array<nat>)
    requires innerIndex < W && Slot(bodyCount, 0) <= |references| && bodyIndices.Length == bodyCount
    modifies bodyIndices
    ensures bodyIndices[..] == BodyIndices(bodies, 0, references, innerIndex, bodyCount)
  {
    ghost var expected := BodyIndices(bodies, 0, references, innerIndex, bodyCount);
    for j := 0 to bodyCount
      invariant bodyIndices[..j] == expected[..j]
    {
      BodyIndicesFromLane(bodies, 0, references, innerIndex, bodyCount, j);
      SlotLane(j, innerIndex);
      bodyIndices[j] := Masked(references[Get(Slot(j, 0), innerIndex)]);
    }
    assert bodyIndices[..] == bodyIndices[..bodyCount];
  }

  /** The inner loop of the inactive-set branch: a stored reference is a body
      handle, which is masked, followed to the body's index, and masked again. */
  method LoadInactiveBodyIndices(bodies: Bodies, setIndex: nat, references: seq<int>, bodyCount: nat,
                                 innerIndex: nat, bodyIndices: array<nat>)
    requires setIndex != 0
    requires innerIndex < W && Slot(bodyCount, 0) <= |references| && bodyIndices.Length == bodyCount
    modifies bodyIndices
    ensures bodyIndices[..] == BodyIndices(bodies, setIndex, references, innerIndex, bodyCount)
  {
    ghost var expected := BodyIndices(bodies, setIndex, references, innerIndex, bodyCount);
    for j := 0 to bodyCount
      invariant bodyIndices[..j] == expected[..j]
    {
      BodyIndicesFromLane(bodies, setIndex, references, innerIndex, bodyCount, j);
      SlotLane(j, innerIndex);
      var bodyHandle := Masked(references[Get(Slot(j, 0), innerIndex)]);
      bodyIndices[j] := Masked(bodies.handleToIndex(bodyHandle));
    }
    assert bodyIndices[..] == bodyIndices[..bodyCount];
  }

  /** `TypeLineExtractor.ExtractLines`: append the lines of every live slot in
      `[constraintStart, constraintStart + constraintCount)` to `lines`, in
      ascending slot order. Body references are read from the constraint's
      lane and masked; in an inactive set (`setIndex != 0`) they are handles,
      resolved to body indices and masked again. */
  method ExtractLines(e: TypeLineExtractor, bodies: Bodies, setIndex: nat, tb: TypeBatch,
                      constraintStart: nat, constraintCount: nat, lines: seq<LineInstance>)
    returns (result: seq<LineInstance>)
    requires WellFormed(tb, e.bodyCount) && constraintStart + constraintCount <= |tb.indexToHandle|
    ensures result == lines + ExtractedLines(e, bodies, setIndex, tb, constraintStart, constraintStart + constraintCount)
  {
    var bodyCount := e.bodyCount;
    var bodyIndices := new nat[bodyCount];
    var constraintEnd := constraintStart + constraintCount;
    result := lines;
    if setIndex == 0 {
      for i := constraintStart to constraintEnd
        invariant result == lines + ExtractedLines(e, bodies, setIndex, tb, constraintStart, i)
      {
        if tb.indexToHandle[i] >= 0 {
          BundleOfSlot(tb, bodyCount, i);
          var (bundleIndex, innerIndex) := BundleIndices(i);
          LoadActiveBodyIndices(bodies, tb.bodyReferences[bundleIndex], bodyCount, innerIndex, bodyIndices);
          ExtendByLiveSlot(e, bodies, setIndex, tb, constraintStart, i, lines, bodyIndices[..]);
          result := result + e.extract(PrestepView(tb.prestepData[bundleIndex], innerIndex), setIndex,
                                       bodyIndices[..], bodies);
        }
      }
    } else {
      for i := constraintStart to constraintEnd
        invariant result == lines + ExtractedLines(e, bodies, setIndex, tb, constraintStart, i)
      {
        if tb.indexToHandle[i] >= 0 {
          BundleOfSlot(tb, bodyCount, i);
          var (bundleIndex, innerIndex) := BundleIndices(i);
          LoadInactiveBodyIndices(bodies, setIndex, tb.bodyReferences[bundleIndex], bodyCount, innerIndex, bodyIndices);
          ExtendByLiveSlot(e, bodies, setIndex, tb, constraintStart, i, lines, bodyIndices[..]);
          result := result + e.extract(PrestepView(tb.prestepData[bundleIndex], innerIndex), setIndex,
                                       bodyIndices[..], bodies);
        }
      }
    }
  }
}
