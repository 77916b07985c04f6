/** Lane primitives over SIMD bundles.

    A bundle-shaped record is a run of `W`-wide vectors laid out one after the
    other. A record is modelled as an array of 4-byte slots (its length is the
    record's byte size shifted right by two); slot `p` belongs to bundle
    `p / W` and to lane `p % W`, so lane `k` of the record is the slots
    `k, k + W, k + 2W, ...`. A reference into a record is modelled as the flat
    slot position it designates. */
module GatherScatter {
  import opened Arith

  /** Lane counts a vector can have: a vector is at least 16 bytes wide, so a
      vector of 4-byte values has at least four lanes. */
  type Width = w: nat | w >= 4 witness 4

  /** `Vector<int>.Count`, which equals `Vector<float>.Count`: the number of
      lanes in a bundle. The platform fixes it; the model fixes no value, so
      every proof below holds for every width. */
  const W: Width

  /** The flat position of lane `lane` of bundle `bundle`: one bundle's worth
      of slots (`W`) past the same lane of the previous bundle. */
  function Slot(bundle: nat, lane: nat): nat
  {
    if bundle == 0 then lane else Slot(bundle - 1, lane) + W
  }

  lemma {:induction false} SlotIsProduct(bundle: nat, lane: nat)
    ensures Slot(bundle, lane) == bundle * W + lane
  {
    if bundle > 0 {
      SlotIsProduct(bundle - 1, lane);
      MulAdd(bundle - 1, 1, W);
    }
  }

  lemma SlotLane(bundle: nat, lane: nat)
    ensures Slot(bundle, lane) == Slot(bundle, 0) + lane
  {
    SlotIsProduct(bundle, lane);
    SlotIsProduct(bundle, 0);
  }

  /** `BundleIndexing.GetBundleIndices`: a constraint index splits into a
      bundle index and a lane, and `Slot` puts them back together. */
  lemma SlotDecompose(bundle: nat, lane: nat)
    requires lane < W
    ensures Slot(bundle, lane) / W == bundle && Slot(bundle, lane) % W == lane
  {
    SlotIsProduct(bundle, lane);
    DivModUnique(Slot(bundle, lane), W, bundle, lane);
  }

  lemma SlotOfPosition(p: nat)
    ensures p / W >= 0 && p % W < W && p == Slot(p / W, p % W)
  {
    DivModBounds(p, W);
    SlotIsProduct(p / W, p % W);
  }

  lemma SlotMono(b1: nat, b2: nat, lane: nat)
    requires b1 <= b2
    ensures Slot(b1, lane) <= Slot(b2, lane)
  {
    SlotIsProduct(b1, lane);
    SlotIsProduct(b2, lane);
    MulLeIff(b1, b2, W);
  }

  /** Lane `lane` of the first `bundles` bundles lies inside a record of
      `length` slots. */
  predicate LaneFits(length: nat, lane: nat, bundles: nat)
  {
    bundles == 0 || Slot(bundles - 1, lane) < length
  }

  lemma LaneFitsAt(length: nat, lane: nat, bundles: nat, b: nat)
    requires LaneFits(length, lane, bundles) && b < bundles
    ensures Slot(b, lane) < length
  {
    SlotMono(b, bundles - 1, lane);
  }

  /** Number of whole bundles in a record of `length` slots. */
  function BundleCount(length: nat): nat
  {
    length / W
  }

  lemma BundleCountBounds(length: nat)
    ensures BundleCount(length) * W <= length < BundleCount(length) * W + W
  {
    DivModBounds(length, W);
  }

  /** Every lane of every whole bundle lies inside the record. */
  lemma WholeBundlesFit(length: nat, lane: nat)
    requires lane < W
    ensures LaneFits(length, lane, BundleCount(length))
  {
    BundleCountBounds(length);
    if BundleCount(length) > 0 {
      SlotIsProduct(BundleCount(length) - 1, lane);
      SlotBelow(BundleCount(length) - 1, lane, BundleCount(length), W);
    }
  }

  // ---------------------------------------------------------------------------
  // Addressing: Get, GetFirst, GetOffsetInstance

  /** `Get(vector, index)`: the slot `index` places past the vector's first
      slot, with no bounds check. */
  function Get(vector: nat, index: nat): nat
  {
    vector + index
  }

  /** For a vector that starts a bundle, `Get(vector, index)` with
      `index < W` is lane `index` of that same bundle. */
  lemma GetInBundle(vector: nat, index: nat)
    requires vector % W == 0 && index < W
    ensures Get(vector, index) / W == vector / W && Get(vector, index) % W == index
  {
    DivModBounds(vector, W);
    SlotDecompose(vector / W, index);
    SlotIsProduct(vector / W, index);
  }

  /** `GetFirst(vector)`: the vector's lane 0. */
  function GetFirst(vector: nat): nat
  {
    Get(vector, 0)
  }

  /** `GetOffsetInstance(container, innerIndex)`: a record reference shifted by
      `innerIndex` slots, so that slot 0 of the shifted record is lane
      `innerIndex` of the container's first bundle. */
  function GetOffsetInstance(container: nat, innerIndex: nat): nat
  {
    Get(container, innerIndex)
  }

  /** Through the shifted record, the first slot of its `k`-th vector is lane
      `innerIndex` of bundle `k` of the original record: a consumer that reads
      only lane 0 of a shifted record reads exactly the chosen lane. */
  lemma {:induction false} OffsetInstanceReadsLane(container: nat, innerIndex: nat, k: nat)
    requires innerIndex < W && container % W == 0
    ensures GetFirst(GetOffsetInstance(container, innerIndex) + Slot(k, 0))
            == Slot(container / W + k, innerIndex)
  {
    DivModBounds(container, W);
    MulAdd(container / W, k, W);
    SlotIsProduct(k, 0);
    SlotIsProduct(container / W + k, innerIndex);
  }

  // ---------------------------------------------------------------------------
  // What a lane operation leaves behind

  /** `dst` with lane `dstLane` of its first `bundles` bundles replaced by lane
      `srcLane` of the same bundles of `src`; every other slot kept. */
  function WithLane<T>(dst: seq<T>, dstLane: nat, src: seq<T>, srcLane: nat, bundles: nat): (r: seq<T>)
    requires dstLane < W && srcLane < W && LaneFits(|src|, srcLane, bundles)
    ensures |r| == |dst|
  {
    seq(|dst|, p requires 0 <= p < |dst| =>
      if p % W == dstLane && p / W < bundles then
        (SlotOfPosition(p); LaneFitsAt(|src|, srcLane, bundles, p / W); src[Slot(p / W, srcLane)])
      else dst[p])
  }

  lemma WithLaneStep<T>(dst: seq<T>, dstLane: nat, src: seq<T>, srcLane: nat, n: nat)
    requires dstLane < W && srcLane < W
    requires LaneFits(|src|, srcLane, n + 1) && LaneFits(|dst|, dstLane, n + 1)
    ensures LaneFits(|src|, srcLane, n)
    ensures WithLane(dst, dstLane, src, srcLane, n + 1)
            == WithLane(dst, dstLane, src, srcLane, n)[Slot(n, dstLane) := src[Slot(n, srcLane)]]
  {
    LaneFitsAt(|src|, srcLane, n + 1, n);
    if n > 0 { SlotMono(n - 1, n, srcLane); }
    SlotDecompose(n, dstLane);
    var after := WithLane(dst, dstLane, src, srcLane, n + 1);
    var before := WithLane(dst, dstLane, src, srcLane, n);
    forall p | 0 <= p < |dst|
      ensures after[p] == before[Slot(n, dstLane) := src[Slot(n, srcLane)]][p]
    {
      SlotOfPosition(p);
    }
  }

  lemma WithLaneNone<T>(dst: seq<T>, dstLane: nat, src: seq<T>, srcLane: nat)
    requires dstLane < W && srcLane < W
    ensures WithLane(dst, dstLane, src, srcLane, 0) == dst
  {
    var r := WithLane(dst, dstLane, src, srcLane, 0);
    forall p | 0 <= p < |dst| ensures r[p] == dst[p] {
      SlotOfPosition(p);
    }
  }

  /** The slot written to by a lane operation at bundle `b` still holds
      `dst`'s value before that bundle is reached. */
  lemma WithLaneAhead<T>(dst: seq<T>, dstLane: nat, src: seq<T>, srcLane: nat, n: nat, b: nat)
    requires dstLane < W && srcLane < W && LaneFits(|src|, srcLane, n)
    requires n <= b && Slot(b, dstLane) < |dst|
    ensures WithLane(dst, dstLane, src, srcLane, n)[Slot(b, dstLane)] == dst[Slot(b, dstLane)]
  {
    SlotDecompose(b, dstLane);
  }

  /** `values[j]` written to lane `lane` of bundle `j`, for every `j < n`;
      every other slot kept. */
  function Scatter<T>(run: seq<T>, lane: nat, values: seq<T>, n: nat): (r: seq<T>)
    requires lane < W && n <= |values|
    ensures |r| == |run|
  {
    seq(|run|, p requires 0 <= p < |run| =>
      if p % W == lane && p / W < n then (SlotOfPosition(p); values[p / W]) else run[p])
  }

  lemma ScatterStep<T>(run: seq<T>, lane: nat, values: seq<T>, n: nat)
    requires lane < W && n < |values| && Slot(n, lane) < |run|
    ensures Scatter(run, lane, values, n + 1) == Scatter(run, lane, values, n)[Slot(n, lane) := values[n]]
  {
    SlotDecompose(n, lane);
    var after := Scatter(run, lane, values, n + 1);
    var before := Scatter(run, lane, values, n);
    forall p | 0 <= p < |run|
      ensures after[p] == before[Slot(n, lane) := values[n]][p]
    {
      SlotOfPosition(p);
    }
  }

  /** Lane `lane` of the first `n` bundles, in bundle order. */
  function Gather<T>(run: seq<T>, lane: nat, n: nat): (r: seq<T>)
    requires lane < W && LaneFits(|run|, lane, n)
    ensures |r| == n
  {
    seq(n, j requires 0 <= j < n => (LaneFitsAt(|run|, lane, n, j); run[Slot(j, lane)]))
  }

  // ---------------------------------------------------------------------------
  // CopyLane

  /** `(SizeOf<T>() >> 2) & ~BundleIndexing.VectorMask`: the record's slot count
      rounded down to whole bundles (the mask clears the low bits of a
      power-of-two width, which is this rounding). */
  function SizeInInts(length: nat): (size: nat)
    ensures size % W == 0 && size <= length < size + W
  {
    BundleCountBounds(length);
    SlotIsProduct(BundleCount(length), 0);
    DivModUnique(BundleCount(length) * W, W, BundleCount(length), 0);
    Slot(BundleCount(length), 0)
  }

  /** Every lane of every whole bundle lies inside the record. */
  lemma AllLanesFit(length: nat)
    ensures forall lane :: 0 <= lane < W ==> LaneFits(length, lane, BundleCount(length))
  {
    forall lane | 0 <= lane < W ensures LaneFits(length, lane, BundleCount(length)) {
      WholeBundlesFit(length, lane);
    }
  }

  /** Bundles whose lane `CopyLane` copies: slot 0 of the lane is copied
      unconditionally, the others only inside the truncated size. */
  function CopiedBundles(length: nat): (n: nat)
    ensures n >= 1 && n >= BundleCount(length)
    ensures forall lane :: 0 <= lane < W && lane < length ==> LaneFits(length, lane, n)
  {
    AllLanesFit(length);
    if BundleCount(length) == 0 then 1 else BundleCount(length)
  }

  /** The simple strided loop that `CopyLane` unrolls, run from `offset`:
      while a whole bundle remains below `limit`, copy the lane's slot at
      `offset` and move one bundle on. */
  function StridedCopy<T>(target: seq<T>, source: seq<T>, sourceLane: nat, targetLane: nat,
                          offset: nat, limit: nat): (r: seq<T>)
    requires sourceLane < W && targetLane < W && limit <= |target| && limit <= |source|
    ensures |r| == |target|
    decreases limit - offset
  {
    if offset + W > limit then target
    else StridedCopy(target[offset + targetLane := source[offset + sourceLane]], source, sourceLane, targetLane,
                     offset + W, limit)
  }

  /** Run from the start of bundle `k` over a target whose lane already holds
      the first `k` bundles, the strided copy completes the lane up to bundle
      `last`, the last bundle that starts below `limit` (bundle 0 in any
      case). */
  lemma {:induction false} StridedCopyCompletesLane<T>(t0: seq<T>, source: seq<T>, sourceLane: nat, targetLane: nat,
                                                       k: nat, last: nat, limit: nat)
    requires sourceLane < W && targetLane < W && 1 <= k <= last
    requires limit <= |t0| && limit <= |source|
    requires limit < Slot(last, 0) + W && (k < last ==> Slot(last, 0) <= limit)
    requires LaneFits(|source|, sourceLane, k) && LaneFits(|t0|, targetLane, k)
    ensures LaneFits(|source|, sourceLane, last)
    ensures StridedCopy(WithLane(t0, targetLane, source, sourceLane, k), source, sourceLane, targetLane,
                        Slot(k, 0), limit)
            == WithLane(t0, targetLane, source, sourceLane, last)
    decreases last - k
  {
    if k < last {
      var offset := Slot(k, 0);
      assert Slot(k + 1, 0) == offset + W;
      SlotMono(k + 1, last, 0);
      SlotLane(k, sourceLane);
      SlotLane(k, targetLane);
      WithLaneStep(t0, targetLane, source, sourceLane, k);
      StridedCopyCompletesLane(t0, source, sourceLane, targetLane, k + 1, last, limit);
    }
  }

  /** One statement of the unrolled copy in `CopyLane`. `goal` is what the
      simple loop would leave; running it from the next offset on the updated
      target still leaves `goal`. */
  method CopyAt<T>(source: array<T>, sourceInnerIndex: nat, target: array<T>, targetInnerIndex: nat,
                   offset: nat, sizeInInts: nat, ghost goal: seq<T>)
    requires source != target && sourceInnerIndex < W && targetInnerIndex < W
    requires offset + W <= sizeInInts <= target.Length && sizeInInts <= source.Length
    requires StridedCopy(target[..], source[..], sourceInnerIndex, targetInnerIndex, offset, sizeInInts) == goal
    modifies target
    ensures StridedCopy(target[..], source[..], sourceInnerIndex, targetInnerIndex, offset + W, sizeInInts) == goal
  {
    target[targetInnerIndex + offset] := source[sourceInnerIndex + offset];
  }

  /** Four consecutive statements of the unrolled copy. */
  method CopyFour<T>(source: array<T>, sourceInnerIndex: nat, target: array<T>, targetInnerIndex: nat,
                     offset: nat, sizeInInts: nat, ghost goal: seq<T>) returns (next: nat)
    requires source != target && sourceInnerIndex < W && targetInnerIndex < W
    requires offset + 4 * W <= sizeInInts <= target.Length && sizeInInts <= source.Length
    requires StridedCopy(target[..], source[..], sourceInnerIndex, targetInnerIndex, offset, sizeInInts) == goal
    modifies target
    ensures next == offset + 4 * W
    ensures StridedCopy(target[..], source[..], sourceInnerIndex, targetInnerIndex, next, sizeInInts) == goal
  {
    next := offset;
    CopyAt(source, sourceInnerIndex, target, targetInnerIndex, next, sizeInInts, goal); next := next + W;
    CopyAt(source, sourceInnerIndex, target, targetInnerIndex, next, sizeInInts, goal); next := next + W;
    CopyAt(source, sourceInnerIndex, target, targetInnerIndex, next, sizeInInts, goal); next := next + W;
    CopyAt(source, sourceInnerIndex, target, targetInnerIndex, next, sizeInInts, goal); next := next + W;
  }

  /** Two consecutive statements of the unrolled copy. */
  method CopyTwo<T>(source: array<T>, sourceInnerIndex: nat, target: array<T>, targetInnerIndex: nat,
                    offset: nat, sizeInInts: nat, ghost goal: seq<T>) returns (next: nat)
    requires source != target && sourceInnerIndex < W && targetInnerIndex < W
    requires offset + 2 * W <= sizeInInts <= target.Length && sizeInInts <= source.Length
    requires StridedCopy(target[..], source[..], sourceInnerIndex, targetInnerIndex, offset, sizeInInts) == goal
    modifies target
    ensures next == offset + 2 * W
    ensures StridedCopy(target[..], source[..], sourceInnerIndex, targetInnerIndex, next, sizeInInts) == goal
  {
    next := offset;
    CopyAt(source, sourceInnerIndex, target, targetInnerIndex, next, sizeInInts, goal); next := next + W;
    CopyAt(source, sourceInnerIndex, target, targetInnerIndex, next, sizeInInts, goal); next := next + W;
  }

  /** `CopyLane`: copy lane `sourceInnerIndex` of `source` into lane
      `targetInnerIndex` of `target`. Slot 0 of the lane is copied first,
      then the rest of the truncated size bundle by bundle in runs of eight,
      four, two and one. The result is what the simple strided loop leaves,
      which is exactly that lane of `CopiedBundles` bundles replaced. */
  method CopyLane<T>(source: array<T>, sourceInnerIndex: nat, target: array<T>, targetInnerIndex: nat)
    requires source != target && source.Length == target.Length
    requires sourceInnerIndex < W && targetInnerIndex < W
    requires sourceInnerIndex < source.Length && targetInnerIndex < target.Length
    modifies target
    ensures target[..] == StridedCopy(old(target[..])[targetInnerIndex := source[sourceInnerIndex]], source[..],
                                      sourceInnerIndex, targetInnerIndex, W, SizeInInts(target.Length))
    ensures target[..] == WithLane(old(target[..]), targetInnerIndex, source[..], sourceInnerIndex,
                                   CopiedBundles(target.Length))
  {
    var sizeInInts := SizeInInts(target.Length);
    ghost var t0 := target[..];
    target[targetInnerIndex] := source[sourceInnerIndex];
    ghost var goal := StridedCopy(target[..], source[..], sourceInnerIndex, targetInnerIndex, W, sizeInInts);
    var offset := W;
    while offset + W * 8 <= sizeInInts
      invariant StridedCopy(target[..], source[..], sourceInnerIndex, targetInnerIndex, offset, sizeInInts) == goal
      decreases sizeInInts - offset
    {
      offset := CopyFour(source, sourceInnerIndex, target, targetInnerIndex, offset, sizeInInts, goal);
      offset := CopyFour(source, sourceInnerIndex, target, targetInnerIndex, offset, sizeInInts, goal);
    }
    if offset + 4 * W <= sizeInInts {
      offset := CopyFour(source, sourceInnerIndex, target, targetInnerIndex, offset, sizeInInts, goal);
    }
    if offset + 2 * W <= sizeInInts {
      offset := CopyTwo(source, sourceInnerIndex, target, targetInnerIndex, offset, sizeInInts, goal);
    }
    if offset + W <= sizeInInts {
      CopyAt(source, sourceInnerIndex, target, targetInnerIndex, offset, sizeInInts, goal);
      assert StridedCopy(target[..], source[..], sourceInnerIndex, targetInnerIndex, offset + W, sizeInInts) == target[..];
    }
    CopyLaneIsWithLane(t0, source[..], sourceInnerIndex, targetInnerIndex);
  }

  /** The simple loop over the truncated size replaces exactly the lane of
      `CopiedBundles` bundles. */
  lemma CopyLaneIsWithLane<T>(t0: seq<T>, source: seq<T>, sourceLane: nat, targetLane: nat)
    requires sourceLane < W && targetLane < W && |t0| == |source|
    requires sourceLane < |source| && targetLane < |t0|
    ensures LaneFits(|source|, sourceLane, CopiedBundles(|t0|))
    ensures StridedCopy(t0[targetLane := source[sourceLane]], source, sourceLane, targetLane, W, SizeInInts(|t0|))
            == WithLane(t0, targetLane, source, sourceLane, CopiedBundles(|t0|))
  {
    var b := BundleCount(|t0|);
    assert SizeInInts(|t0|) == Slot(b, 0);
    WithLaneStep(t0, targetLane, source, sourceLane, 0);
    WithLaneNone(t0, targetLane, source, sourceLane);
    assert Slot(0, targetLane) == targetLane && Slot(0, sourceLane) == sourceLane && Slot(1, 0) == W;
    StridedCopyCompletesLane(t0, source, sourceLane, targetLane, 1, CopiedBundles(|t0|), SizeInInts(|t0|));
  }

  // ---------------------------------------------------------------------------
  // Facts about whole records and lane round trips

  /** Bundle `k` starts below bundle `n` exactly when `k < n`; then every lane
      of bundle `k` lies below the start of bundle `n`. */
  lemma SlotBefore(k: nat, n: nat, lane: nat)
    requires lane < W
    ensures Slot(k, 0) < Slot(n, 0) <==> k < n
    ensures k < n ==> Slot(k, lane) < Slot(n, 0)
  {
    SlotIsProduct(k, 0);
    SlotIsProduct(n, 0);
    SlotIsProduct(k, lane);
    MulLeIff(n, k, W);
    if k < n {
      SlotBelow(k, lane, n, W);
    }
  }

  /** A record that is a whole number of bundles ends where bundle
      `BundleCount` would start. */
  lemma WholeRecord(length: nat)
    requires length % W == 0
    ensures length == Slot(BundleCount(length), 0)
  {
    DivModBounds(length, W);
    SlotIsProduct(BundleCount(length), 0);
  }

  lemma ScatterNone<T>(run: seq<T>, lane: nat, values: seq<T>)
    requires lane < W
    ensures Scatter(run, lane, values, 0) == run
  {
  }

  /** Reading back a lane just written returns the values written. */
  lemma GatherOfScatter<T>(run: seq<T>, lane: nat, values: seq<T>, n: nat)
    requires lane < W && n <= |values| && LaneFits(|run|, lane, n)
    ensures Gather(Scatter(run, lane, values, n), lane, n) == values[..n]
  {
    var g := Gather(Scatter(run, lane, values, n), lane, n);
    forall j | 0 <= j < n ensures g[j] == values[j] {
      LaneFitsAt(|run|, lane, n, j);
      SlotDecompose(j, lane);
    }
  }

  /** Writing back a lane just read leaves the record as it was. */
  lemma ScatterOfGather<T>(run: seq<T>, lane: nat, n: nat)
    requires lane < W && LaneFits(|run|, lane, n)
    ensures Scatter(run, lane, Gather(run, lane, n), n) == run
  {
    var r := Scatter(run, lane, Gather(run, lane, n), n);
    forall p | 0 <= p < |run| ensures r[p] == run[p] {
      SlotOfPosition(p);
    }
  }

  /** Writing one lane leaves every other lane as it was. */
  lemma ScatterKeepsOtherLanes<T>(run: seq<T>, lane: nat, values: seq<T>, n: nat, other: nat, m: nat)
    requires lane < W && other < W && lane != other && n <= |values| && LaneFits(|run|, other, m)
    ensures Gather(Scatter(run, lane, values, n), other, m) == Gather(run, other, m)
  {
    var g := Gather(Scatter(run, lane, values, n), other, m);
    forall j | 0 <= j < m ensures g[j] == Gather(run, other, m)[j] {
      LaneFitsAt(|run|, other, m, j);
      SlotDecompose(j, other);
    }
  }

  // ---------------------------------------------------------------------------
  // SwapLanes

  /** The record-size condition `SwapLanes` relies on: a whole number of
      bundles, so no lane runs past the end of the record. */
  predicate WholeBundles(length: nat)
  {
    length % W == 0
  }

  /** One step of `SwapLanes`: slot `p` of `bundleA` and slot `q` of
      `bundleB` trade values. */
  method SwapSlots<T>(bundleA: array<T>, p: nat, bundleB: array<T>, q: nat)
    requires bundleA != bundleB && p < bundleA.Length && q < bundleB.Length
    modifies bundleA, bundleB
    ensures bundleA[..] == old(bundleA[..])[p := old(bundleB[q])]
    ensures bundleB[..] == old(bundleB[..])[q := old(bundleA[p])]
  {
    var oldA := bundleA[p];
    bundleA[p] := bundleB[q];
    bundleB[q] := oldA;
  }

  /** `SwapLanes`: exchange lane `innerIndexA` of `bundleA` with lane
      `innerIndexB` of `bundleB` over the whole records, one bundle per step. */
  method SwapLanes<T>(bundleA: array<T>, innerIndexA: nat, bundleB: array<T>, innerIndexB: nat)
    requires bundleA != bundleB && bundleA.Length == bundleB.Length
    requires innerIndexA < W && innerIndexB < W && WholeBundles(bundleA.Length)
    modifies bundleA, bundleB
    ensures LaneFits(bundleA.Length, innerIndexA, BundleCount(bundleA.Length))
    ensures LaneFits(bundleB.Length, innerIndexB, BundleCount(bundleB.Length))
    ensures bundleA[..] == WithLane(old(bundleA[..]), innerIndexA, old(bundleB[..]), innerIndexB,
                                    BundleCount(bundleA.Length))
    ensures bundleB[..] == WithLane(old(bundleB[..]), innerIndexB, old(bundleA[..]), innerIndexA,
                                    BundleCount(bundleA.Length))
  {
    var sizeInInts := bundleA.Length;
    ghost var a0, b0 := bundleA[..], bundleB[..];
    ghost var n := BundleCount(sizeInInts);
    WholeRecord(sizeInInts);
    WholeBundlesFit(sizeInInts, innerIndexA);
    WholeBundlesFit(sizeInInts, innerIndexB);
    WithLaneNone(a0, innerIndexA, b0, innerIndexB);
    WithLaneNone(b0, innerIndexB, a0, innerIndexA);
    var i := 0;
    ghost var k: nat := 0;
    while i < sizeInInts
      invariant k <= n && i == Slot(k, 0)
      invariant LaneFits(sizeInInts, innerIndexA, k) && LaneFits(sizeInInts, innerIndexB, k)
      invariant bundleA[..] == WithLane(a0, innerIndexA, b0, innerIndexB, k)
      invariant bundleB[..] == WithLane(b0, innerIndexB, a0, innerIndexA, k)
      decreases sizeInInts - i
    {
      SlotBefore(k, n, 0);
      SwapStep(a0, innerIndexA, b0, innerIndexB, k, n);
      SlotLane(k, innerIndexA);
      SlotLane(k, innerIndexB);
      SwapSlots(bundleA, innerIndexA + i, bundleB, innerIndexB + i);
      i := i + W;
      k := k + 1;
    }
    SlotBefore(k, n, 0);
  }

  /** One step of `SwapLanes`: with the first `k` bundles swapped, swapping
      the two slots of bundle `k` gives the first `k + 1` bundles swapped. */
  lemma SwapStep<T>(a0: seq<T>, laneA: nat, b0: seq<T>, laneB: nat, k: nat, n: nat)
    requires laneA < W && laneB < W && |a0| == |b0| && k < n
    requires LaneFits(|a0|, laneA, n) && LaneFits(|b0|, laneB, n)
    ensures LaneFits(|a0|, laneA, k + 1) && LaneFits(|b0|, laneB, k + 1)
    ensures Slot(k, laneA) < |a0| && Slot(k, laneB) < |b0|
    ensures WithLane(a0, laneA, b0, laneB, k + 1)
            == WithLane(a0, laneA, b0, laneB, k)[Slot(k, laneA) := WithLane(b0, laneB, a0, laneA, k)[Slot(k, laneB)]]
    ensures WithLane(b0, laneB, a0, laneA, k + 1)
            == WithLane(b0, laneB, a0, laneA, k)[Slot(k, laneB) := WithLane(a0, laneA, b0, laneB, k)[Slot(k, laneA)]]
  {
    LaneFitsAt(|a0|, laneA, n, k);
    LaneFitsAt(|b0|, laneB, n, k);
    if k > 0 {
      SlotMono(k - 1, k, laneA);
      SlotMono(k - 1, k, laneB);
    }
    WithLaneAhead(a0, laneA, b0, laneB, k, k);
    WithLaneAhead(b0, laneB, a0, laneA, k, k);
    WithLaneStep(a0, laneA, b0, laneB, k);
    WithLaneStep(b0, laneB, a0, laneA, k);
  }

  /** Swapping the same two lanes twice restores both records. */
  lemma SwapTwiceRestores<T>(a: seq<T>, laneA: nat, b: seq<T>, laneB: nat, n: nat)
    requires laneA < W && laneB < W && |a| == |b|
    requires LaneFits(|a|, laneA, n) && LaneFits(|b|, laneB, n)
    ensures WithLane(WithLane(a, laneA, b, laneB, n), laneA, WithLane(b, laneB, a, laneA, n), laneB, n) == a
    ensures WithLane(WithLane(b, laneB, a, laneA, n), laneB, WithLane(a, laneA, b, laneB, n), laneA, n) == b
  {
    var a1, b1 := WithLane(a, laneA, b, laneB, n), WithLane(b, laneB, a, laneA, n);
    forall p | 0 <= p < |a| ensures WithLane(a1, laneA, b1, laneB, n)[p] == a[p] {
      SlotOfPosition(p);
      if p % W == laneA && p / W < n {
        LaneFitsAt(|b|, laneB, n, p / W);
        SlotDecompose(p / W, laneB);
      }
    }
    forall p | 0 <= p < |b| ensures WithLane(b1, laneB, a1, laneA, n)[p] == b[p] {
      SlotOfPosition(p);
      if p % W == laneB && p / W < n {
        LaneFitsAt(|a|, laneA, n, p / W);
        SlotDecompose(p / W, laneA);
      }
    }
  }

  /** The size check `SwapLanes` makes, as written: the record's BYTE size
      masked with `VectorMask`, i.e. the byte size modulo the lane count. */
  predicate SwapLanesAssertAsWritten(length: nat)
  {
    (4 * length) % W == 0
  }

  /** The check as written admits records that are not whole bundles: for any
      width divisible by four, a record of `W + W / 4` slots passes it, the
      loop still enters a second bundle, and the last lane of that bundle lies
      past the end of the record. */
  lemma SwapLanesAssertAdmitsOverrun()
    requires W % 4 == 0
    ensures SwapLanesAssertAsWritten(W + W / 4) && !WholeBundles(W + W / 4)
    ensures Slot(1, 0) < W + W / 4 && Slot(1, W - 1) >= W + W / 4
  {
    var q := W / 4;
    DivModBounds(W, 4);
    assert 4 * (W + q) == 5 * W;
    DivModUnique(5 * W, W, 5, 0);
    DivModUnique(W + q, W, 1, q);
    SlotLane(1, W - 1);
  }

  /** With the intended check, every lane slot the `SwapLanes` loop touches
      lies inside the record. */
  lemma SwapLanesStaysInRecord(length: nat, lane: nat, k: nat)
    requires WholeBundles(length) && lane < W && Slot(k, 0) < length
    ensures Slot(k, lane) < length
  {
    WholeRecord(length);
    SlotBefore(k, BundleCount(length), lane);
  }

  // ---------------------------------------------------------------------------
  // ClearLane

  /** Number of offsets `0, W, 2W, ...` below `limit`: the iterations of a
      loop that starts at 0 and steps one bundle while below `limit`. */
  function Strides(limit: nat): nat
    decreases limit
  {
    if limit == 0 then 0 else if limit <= W then 1 else 1 + Strides(limit - W)
  }

  /** Below the start of bundle `n` lie exactly `n` bundle starts. */
  lemma {:induction false} StridesOfWhole(n: nat)
    ensures Strides(Slot(n, 0)) == n
  {
    if n > 1 {
      assert Slot(n, 0) - W == Slot(n - 1, 0);
      SlotMono(1, n - 1, 0);
      StridesOfWhole(n - 1);
    }
  }

  /** A limit at or below the start of bundle `m` leaves at most `m` strides. */
  lemma {:induction false} StridesAtMost(limit: nat, m: nat)
    requires limit <= Slot(m, 0)
    ensures Strides(limit) <= m
  {
    if limit > W {
      assert Slot(1, 0) == W;
      SlotBefore(1, m, 0);
      StridesAtMost(limit - W, m - 1);
    }
  }

  /** `run` with lane `lane` of its first `n` bundles set to `zero`. */
  function Cleared<T>(run: seq<T>, lane: nat, zero: T, n: nat): (r: seq<T>)
    requires lane < W
    ensures |r| == |run|
  {
    Scatter(run, lane, seq(n, _ => zero), n)
  }

  /** The loop both one-argument `ClearLane` variants share: from offset 0,
      set lane `innerIndex` to `zero` at each bundle start below
      `sizeInElements`. */
  method ClearStrided<T>(bundle: array<T>, innerIndex: nat, sizeInElements: nat, zero: T)
    requires innerIndex < W && sizeInElements <= SizeInInts(bundle.Length)
    modifies bundle
    ensures bundle[..] == Cleared(old(bundle[..]), innerIndex, zero, Strides(sizeInElements))
  {
    ghost var r0 := bundle[..];
    ghost var zeros := seq(Strides(sizeInElements), _ => zero);
    ghost var n := BundleCount(bundle.Length);
    StridesAtMost(sizeInElements, n);
    ScatterNone(r0, innerIndex, zeros);
    var i := 0;
    ghost var k: nat := 0;
    while i < sizeInElements
      invariant i == Slot(k, 0) && k <= Strides(sizeInElements)
      invariant i < sizeInElements ==> k + Strides(sizeInElements - i) == Strides(sizeInElements)
      invariant i >= sizeInElements ==> k == Strides(sizeInElements)
      invariant bundle[..] == Scatter(r0, innerIndex, zeros, k)
      decreases sizeInElements - i
    {
      SlotBefore(k, n, innerIndex);
      SlotLane(k, innerIndex);
      ScatterStep(r0, innerIndex, zeros, k);
      bundle[innerIndex + i] := zero;
      i := i + W;
      k := k + 1;
    }
  }

  /** Four elements per bundle never exceed the whole-bundle size. */
  lemma FourPerBundleFits(b: nat)
    ensures b * 4 <= Slot(b, 0)
  {
    SlotIsProduct(b, 0);
    if b > 0 {
      MulLeIff(4, W, b);
    }
  }

  /** `ClearLane(bundle, innerIndex)` as written: the truncated size is
      `(size / (W * 4)) * 4` elements, a bundle count times the element SIZE
      rather than times the lane count. */
  method ClearLaneAsWritten<T>(bundle: array<T>, innerIndex: nat, zero: T)
    requires innerIndex < W
    modifies bundle
    ensures bundle[..] == Cleared(old(bundle[..]), innerIndex, zero, Strides(BundleCount(bundle.Length) * 4))
  {
    var sizeInElements := BundleCount(bundle.Length) * 4;
    FourPerBundleFits(BundleCount(bundle.Length));
    ClearStrided(bundle, innerIndex, sizeInElements, zero);
  }

  /** With four lanes the size as written is the whole-bundle size, and every
      bundle is cleared. */
  lemma ClearLaneAsWrittenWithFourLanes(length: nat)
    requires W == 4
    ensures Strides(BundleCount(length) * 4) == BundleCount(length)
  {
    SlotIsProduct(BundleCount(length), 0);
    StridesOfWhole(BundleCount(length));
  }

  /** With eight or more lanes, a record of two or more bundles has its lane
      cleared in fewer bundles than it holds: the lane of the last bundle keeps
      its old value. */
  lemma ClearLaneAsWrittenMissesBundles<T>(run: seq<T>, lane: nat, zero: T)
    requires W >= 8 && lane < W && BundleCount(|run|) >= 2
    ensures Strides(BundleCount(|run|) * 4) < BundleCount(|run|)
    ensures Slot(BundleCount(|run|) - 1, lane) < |run|
    ensures Cleared(run, lane, zero, Strides(BundleCount(|run|) * 4))[Slot(BundleCount(|run|) - 1, lane)]
            == run[Slot(BundleCount(|run|) - 1, lane)]
  {
    var b := BundleCount(|run|);
    var h := (b + 1) / 2;
    SlotIsProduct(h, 0);
    MulLeIff(8, W, h);
    StridesAtMost(b * 4, h);
    WholeBundlesFit(|run|, lane);
    SlotDecompose(b - 1, lane);
  }

  /** `ClearLane(bundle, innerIndex)` as evidently intended: the truncated size
      is the bundle count times the lane count, so the lane is cleared in
      every whole bundle. */
  method ClearLane<T>(bundle: array<T>, innerIndex: nat, zero: T)
    requires innerIndex < W
    modifies bundle
    ensures bundle[..] == Cleared(old(bundle[..]), innerIndex, zero, BundleCount(bundle.Length))
  {
    var sizeInElements := BundleCount(bundle.Length) * W;
    SlotIsProduct(BundleCount(bundle.Length), 0);
    StridesOfWhole(BundleCount(bundle.Length));
    ClearStrided(bundle, innerIndex, sizeInElements, zero);
  }

  /** `ClearLane(bundle, innerIndex, count)`: set lane `innerIndex` of the
      first `count` bundles to `zero`. */
  method ClearLaneCount<T>(bundle: array<T>, innerIndex: nat, count: nat, zero: T)
    requires innerIndex < W && LaneFits(bundle.Length, innerIndex, count)
    modifies bundle
    ensures bundle[..] == Cleared(old(bundle[..]), innerIndex, zero, count)
  {
    ghost var r0 := bundle[..];
    ghost var zeros := seq(count, _ => zero);
    ScatterNone(r0, innerIndex, zeros);
    for i := 0 to count
      invariant bundle[..] == Scatter(r0, innerIndex, zeros, i)
    {
      LaneFitsAt(bundle.Length, innerIndex, count, i);
      ScatterStep(r0, innerIndex, zeros, i);
      bundle[Slot(i, innerIndex)] := zero;
    }
  }

  /** After a clear, the lane reads back as `zero` in every cleared bundle,
      and every other lane is as it was. */
  lemma ClearedLane<T>(run: seq<T>, lane: nat, zero: T, n: nat, other: nat)
    requires lane < W && other < W && LaneFits(|run|, lane, n) && LaneFits(|run|, other, n)
    ensures Gather(Cleared(run, lane, zero, n), lane, n) == seq(n, _ => zero)
    ensures other != lane ==> Gather(Cleared(run, lane, zero, n), other, n) == Gather(run, other, n)
  {
    GatherOfScatter(run, lane, seq(n, _ => zero), n);
    if other != lane {
      ScatterKeepsOtherLanes(run, lane, seq(n, _ => zero), n, other, n);
    }
  }

  // ---------------------------------------------------------------------------
  // GetLane, SetLane

  /** Slots a lane transfer of `valueCount` values touches: the first value
      moves unconditionally, the loop then runs from index 1 below the count. */
  function Touched(valueCount: int): (n: nat)
    ensures n >= 1 && n >= valueCount
  {
    if valueCount <= 1 then 1 else valueCount
  }

  /** `GetLane`: copy lane `innerIndex` of the vector run starting at `run[0]`
      into the first values of `values`; the rest of `values` is kept. */
  method GetLane<T>(run: array<T>, innerIndex: nat, values: array<T>, valueCount: int)
    requires run != values && innerIndex < W
    requires Touched(valueCount) <= values.Length && LaneFits(run.Length, innerIndex, Touched(valueCount))
    modifies values
    ensures values[..] == Gather(run[..], innerIndex, Touched(valueCount)) + old(values[..])[Touched(valueCount)..]
  {
    ghost var v0 := values[..];
    ghost var n := Touched(valueCount);
    var lane := Get(0, innerIndex);
    LaneFitsAt(run.Length, innerIndex, n, 0);
    values[0] := run[lane];
    var vectorIndex := 1;
    while vectorIndex < valueCount
      invariant 1 <= vectorIndex <= n && LaneFits(run.Length, innerIndex, vectorIndex)
      invariant values[..] == Gather(run[..], innerIndex, vectorIndex) + v0[vectorIndex..]
    {
      LaneFitsAt(run.Length, innerIndex, n, vectorIndex);
      SlotLane(vectorIndex, innerIndex);
      values[vectorIndex] := run[Get(lane, Slot(vectorIndex, 0))];
      vectorIndex := vectorIndex + 1;
    }
  }

  /** `SetLane`: copy the first values of `values` into lane `innerIndex` of
      the vector run starting at `run[0]`; every other slot is kept. */
  method SetLane<T>(run: array<T>, innerIndex: nat, values: array<T>, valueCount: int)
    requires run != values && innerIndex < W
    requires Touched(valueCount) <= values.Length && LaneFits(run.Length, innerIndex, Touched(valueCount))
    modifies run
    ensures run[..] == Scatter(old(run[..]), innerIndex, values[..], Touched(valueCount))
  {
    ghost var r0 := run[..];
    ghost var n := Touched(valueCount);
    var lane := Get(0, innerIndex);
    LaneFitsAt(run.Length, innerIndex, n, 0);
    ScatterNone(r0, innerIndex, values[..]);
    ScatterStep(r0, innerIndex, values[..], 0);
    run[lane] := values[0];
    var vectorIndex := 1;
    while vectorIndex < valueCount
      invariant 1 <= vectorIndex <= n
      invariant run[..] == Scatter(r0, innerIndex, values[..], vectorIndex)
    {
      LaneFitsAt(run.Length, innerIndex, n, vectorIndex);
      SlotLane(vectorIndex, innerIndex);
      ScatterStep(r0, innerIndex, values[..], vectorIndex);
      run[Get(lane, Slot(vectorIndex, 0))] := values[vectorIndex];
      vectorIndex := vectorIndex + 1;
    }
  }

  /** `SetLane` followed by `GetLane` on the same lane and count returns the
      values set, and `GetLane` followed by `SetLane` leaves the run as it was. */
  lemma SetLaneThenGetLane<T>(run: seq<T>, lane: nat, values: seq<T>, out: seq<T>, valueCount: int)
    requires lane < W && Touched(valueCount) <= |values| && Touched(valueCount) <= |out|
    requires LaneFits(|run|, lane, Touched(valueCount))
    ensures (Gather(Scatter(run, lane, values, Touched(valueCount)), lane, Touched(valueCount))
             + out[Touched(valueCount)..])[..Touched(valueCount)] == values[..Touched(valueCount)]
    ensures Scatter(run, lane, Gather(run, lane, Touched(valueCount)) + out[Touched(valueCount)..],
                    Touched(valueCount)) == run
  {
    var n := Touched(valueCount);
    GatherOfScatter(run, lane, values, n);
    var g := Gather(run, lane, n);
    var back := g + out[n..];
    assert back[..n] == g;
    ScatterOfGather(run, lane, n);
    assert Scatter(run, lane, back, n) == Scatter(run, lane, g, n) by {
      forall p | 0 <= p < |run| ensures Scatter(run, lane, back, n)[p] == Scatter(run, lane, g, n)[p] {
        SlotOfPosition(p);
      }
    }
  }

  // ---------------------------------------------------------------------------
  // GatherSlot

  datatype Quaternion<T> = Quaternion(x: T, y: T, z: T, w: T)
  datatype Vector3<T> = Vector3(x: T, y: T, z: T)

  /** `GatherSlot(Quaternion, QuaternionWide)`: a wide quaternion is four
      consecutive vectors X, Y, Z, W; the source's components go to lane 0 of
      each, and every other slot is kept. */
  method GatherSlotQuaternion<T>(source: Quaternion<T>, targetSlot: array<T>)
    requires targetSlot.Length == 4 * W
    modifies targetSlot
    ensures targetSlot[..] == Scatter(old(targetSlot[..]), 0, [source.x, source.y, source.z, source.w], 4)
  {
    ghost var t0 := targetSlot[..];
    ghost var values := [source.x, source.y, source.z, source.w];
    assert Slot(0, 0) == 0 && Slot(1, 0) == W && Slot(2, 0) == 2 * W && Slot(3, 0) == 3 * W;
    ScatterNone(t0, 0, values);
    ScatterStep(t0, 0, values, 0);
    ScatterStep(t0, 0, values, 1);
    ScatterStep(t0, 0, values, 2);
    ScatterStep(t0, 0, values, 3);
    targetSlot[GetFirst(Slot(0, 0))] := source.x;
    targetSlot[GetFirst(Slot(1, 0))] := source.y;
    targetSlot[GetFirst(Slot(2, 0))] := source.z;
    targetSlot[GetFirst(Slot(3, 0))] := source.w;
  }

  /** `GatherSlot(Vector3, Vector3Wide)`: the same for the three vectors X, Y,
      Z of a wide 3-vector. */
  method GatherSlotVector3<T>(source: Vector3<T>, targetSlot: array<T>)
    requires targetSlot.Length == 3 * W
    modifies targetSlot
    ensures targetSlot[..] == Scatter(old(targetSlot[..]), 0, [source.x, source.y, source.z], 3)
  {
    ghost var t0 := targetSlot[..];
    ghost var values := [source.x, source.y, source.z];
    assert Slot(0, 0) == 0 && Slot(1, 0) == W && Slot(2, 0) == 2 * W;
    ScatterNone(t0, 0, values);
    ScatterStep(t0, 0, values, 0);
    ScatterStep(t0, 0, values, 1);
    ScatterStep(t0, 0, values, 2);
    targetSlot[GetFirst(Slot(0, 0))] := source.x;
    targetSlot[GetFirst(Slot(1, 0))] := source.y;
    targetSlot[GetFirst(Slot(2, 0))] := source.z;
  }

  /** Reading lane 0 of a wide quaternion after `GatherSlot` gives back the
      quaternion's components in order, and lanes 1 to `W - 1` are untouched. */
  lemma GatherSlotQuaternionReadsBack<T>(wide: seq<T>, q: Quaternion<T>, other: nat)
    requires |wide| == 4 * W && 0 < other < W
    ensures LaneFits(|wide|, 0, 4) && LaneFits(|wide|, other, 4)
    ensures Gather(Scatter(wide, 0, [q.x, q.y, q.z, q.w], 4), 0, 4) == [q.x, q.y, q.z, q.w]
    ensures Gather(Scatter(wide, 0, [q.x, q.y, q.z, q.w], 4), other, 4) == Gather(wide, other, 4)
  {
    SlotLane(3, other);
    assert Slot(3, 0) == 3 * W;
    GatherOfScatter(wide, 0, [q.x, q.y, q.z, q.w], 4);
    ScatterKeepsOtherLanes(wide, 0, [q.x, q.y, q.z, q.w], 4, other, 4);
  }

  /** The same for a wide 3-vector. */
  lemma GatherSlotVector3ReadsBack<T>(wide: seq<T>, v: Vector3<T>, other: nat)
    requires |wide| == 3 * W && 0 < other < W
    ensures LaneFits(|wide|, 0, 3) && LaneFits(|wide|, other, 3)
    ensures Gather(Scatter(wide, 0, [v.x, v.y, v.z], 3), 0, 3) == [v.x, v.y, v.z]
    ensures Gather(Scatter(wide, 0, [v.x, v.y, v.z], 3), other, 3) == Gather(wide, other, 3)
  {
    SlotLane(2, other);
    assert Slot(2, 0) == 2 * W;
    GatherOfScatter(wide, 0, [v.x, v.y, v.z], 3);
    ScatterKeepsOtherLanes(wide, 0, [v.x, v.y, v.z], 3, other, 3);
  }
}
