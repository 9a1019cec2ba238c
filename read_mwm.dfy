/**
 * Reading one unit (Index::ReadMWMFunctor): skip a unit whose lock has no
 * value; otherwise cap the scale at the unit's last coding scale, take the
 * covering at that last coding scale, and feed every interval, in order,
 * through the unit's scale index into one fresh deduplicating functor.
 */
module ReadMwm {
  import opened MwmTypes
  import opened ReadFeature

  /** The scale handed to the scale index: the query scale, lowered to the unit's last coding scale. */
  function IndexScale(scale: nat, lastScale: nat): (r: nat)
    ensures r <= scale && r <= lastScale
    ensures r == scale || r == lastScale
  {
    if scale > lastScale then lastScale else scale
  }

  /** Everything the scale index lists for the intervals, interval after interval, repeats included. */
  function IntervalOffsets(index: ScaleIndex, intervals: seq<Interval>, scale: nat): seq<Offset>
  {
    if intervals == [] then []
    else IntervalOffsets(index, intervals[..|intervals| - 1], scale) + index(intervals[|intervals| - 1], scale)
  }

  /** The offsets one opened unit yields: covering at the last coding scale, index at the capped scale. */
  function UnitOffsets(value: MwmValue, cov: CoveringGetter, scale: nat): seq<Offset>
  {
    IntervalOffsets(value.index, cov.Get(value.lastScale), IndexScale(scale, value.lastScale))
  }

  /** The features a unit hands to the visitor: none without a value, else its offsets deduplicated. */
  function UnitFeatures(lock: MwmLock, cov: CoveringGetter, scale: nat): seq<FeatureID>
  {
    match lock.value
    case None => []
    case Some(v) => Tag(lock.id, Dedup({}, UnitOffsets(v, cov, scale)))
  }

  /**
   * What one opened unit contributes: features of that unit only, one for
   * each offset its intervals yield, none twice, in the order in which the
   * offsets first appear.
   */
  lemma UnitFeaturesSpec(lock: MwmLock, cov: CoveringGetter, scale: nat)
    requires lock.value.Some?
    ensures forall k :: 0 <= k < |UnitFeatures(lock, cov, scale)| ==>
              UnitFeatures(lock, cov, scale)[k].mwmId == lock.id
    ensures forall o :: FeatureID(lock.id, o) in UnitFeatures(lock, cov, scale) <==>
              o in UnitOffsets(lock.value.value, cov, scale)
    ensures forall i, j :: 0 <= i < j < |UnitFeatures(lock, cov, scale)| ==>
              UnitFeatures(lock, cov, scale)[i] != UnitFeatures(lock, cov, scale)[j]
    ensures forall k :: 0 <= k < |UnitFeatures(lock, cov, scale)| ==>
              UnitFeatures(lock, cov, scale)[k].offset in UnitOffsets(lock.value.value, cov, scale)
    ensures forall i, j :: 0 <= i < j < |UnitFeatures(lock, cov, scale)| ==>
              FirstIndex(UnitOffsets(lock.value.value, cov, scale), UnitFeatures(lock, cov, scale)[i].offset) <
              FirstIndex(UnitOffsets(lock.value.value, cov, scale), UnitFeatures(lock, cov, scale)[j].offset)
  {
    var offs := UnitOffsets(lock.value.value, cov, scale);
    var d := Dedup({}, offs);
    DedupElements({}, offs);
    DedupNoDuplicates({}, offs);
    DedupFirstOccurrenceOrder({}, offs);
    TagMembership(lock.id, d);
  }

  /** Every feature a unit contributes is tagged with that unit's id; a unit without a value contributes none. */
  lemma UnitFeaturesTagged(lock: MwmLock, cov: CoveringGetter, scale: nat)
    ensures forall k :: 0 <= k < |UnitFeatures(lock, cov, scale)| ==>
              UnitFeatures(lock, cov, scale)[k].mwmId == lock.id
    ensures lock.value.None? ==> UnitFeatures(lock, cov, scale) == []
  {
  }

  /**
   * Capping makes every query scale at or above the last coding scale read
   * the unit exactly as a query at the last coding scale does.
   */
  lemma UnitFeaturesScaleCapped(lock: MwmLock, cov: CoveringGetter, scale: nat)
    requires lock.value.Some? && lock.value.value.lastScale <= scale
    ensures UnitFeatures(lock, cov, scale) == UnitFeatures(lock, cov, lock.value.value.lastScale)
  {
  }

  /** One more interval: its offsets are deduplicated against all offsets of the intervals before it. */
  lemma IntervalStep(id: MwmId, index: ScaleIndex, intervals: seq<Interval>, i: nat, scale: nat)
    requires i < |intervals|
    ensures Elems(IntervalOffsets(index, intervals[..i + 1], scale)) ==
            Elems(IntervalOffsets(index, intervals[..i], scale)) + Elems(index(intervals[i], scale))
    ensures Tag(id, Dedup({}, IntervalOffsets(index, intervals[..i + 1], scale))) ==
            Tag(id, Dedup({}, IntervalOffsets(index, intervals[..i], scale))) +
            Tag(id, Dedup(Elems(IntervalOffsets(index, intervals[..i], scale)), index(intervals[i], scale)))
  {
    var prefix := IntervalOffsets(index, intervals[..i], scale);
    var next := index(intervals[i], scale);
    assert intervals[..i + 1][..i] == intervals[..i];
    assert IntervalOffsets(index, intervals[..i + 1], scale) == prefix + next;
    DedupAppend({}, prefix, next);
    assert {} + Elems(prefix) == Elems(prefix);
    TagAppend(id, Dedup({}, prefix), Dedup(Elems(prefix), next));
    assert Elems(prefix + next) == Elems(prefix) + Elems(next);
  }

  /**
   * Index::ReadMWMFunctor: it forwards to the caller's visitor and, as a
   * ghost trace, records the id of every lock it is called with.
   */
  class ReadMwmFunctor {
    const sink: Visitor
    ghost var dispatched: seq<MwmId>

    constructor (sink: Visitor)
      ensures this.sink == sink && dispatched == []
    {
      this.sink := sink;
      dispatched := [];
    }

    /** operator()(lock, cov, scale). The capped scale is local: the caller's `scale` is unchanged. */
    method Apply(lock: MwmLock, cov: CoveringGetter, scale: nat)
      modifies this, sink
      ensures dispatched == old(dispatched) + [lock.id]
      ensures sink.visited == old(sink.visited) + UnitFeatures(lock, cov, scale)
      ensures lock.value.None? ==> sink.visited == old(sink.visited)
    {
      dispatched := dispatched + [lock.id];
      var pValue := lock.value;
      if pValue.Some? {
        var value := pValue.value;
        var lastScale := value.lastScale;
        var indexScale := scale;
        if indexScale > lastScale {
          indexScale := lastScale;
        }
        var interval := cov.Get(lastScale);
        var f1 := new ReadFeatureFunctor(lock.id, sink);
        var i := 0;
        while i < |interval|
          invariant 0 <= i <= |interval|
          invariant dispatched == old(dispatched) + [lock.id]
          invariant f1.mwmId == lock.id && f1.sink == sink
          invariant f1.offsets == Elems(IntervalOffsets(value.index, interval[..i], indexScale))
          invariant sink.visited == old(sink.visited) +
                      Tag(lock.id, Dedup({}, IntervalOffsets(value.index, interval[..i], indexScale)))
        {
          ghost var prefix := IntervalOffsets(value.index, interval[..i], indexScale);
          ghost var next := value.index(interval[i], indexScale);
          IntervalStep(lock.id, value.index, interval, i, indexScale);
          AppendAssoc(old(sink.visited), Tag(lock.id, Dedup({}, prefix)), Tag(lock.id, Dedup(Elems(prefix), next)));
          ForEachInIntervalAndScale(value.index, f1, interval[i], indexScale);
          assert f1.offsets == Elems(prefix) + Elems(next);
          i := i + 1;
        }
        assert interval[..|interval|] == interval;
      }
    }
  }
}
