/**
 * The query orchestrator of class Index: ForEachInIntervals walks the
 * metadata snapshot once, reads every matching country unit on the spot,
 * parks the last matching coastline and world units in the two slots of
 * worldID, and reads those two last. The public entry points differ only
 * in the covering mode (and, for ForEachInScale, the rectangle).
 */
module Index {
  import opened MwmTypes
  import opened ReadFeature
  import opened ReadMwm
  import opened Dispatch

  /** The features the listed units hand to the visitor, unit after unit. */
  function UnitsFeatures(index: MwmSet, cov: CoveringGetter, ids: seq<MwmId>, scale: nat): seq<FeatureID>
  {
    if ids == [] then []
    else UnitsFeatures(index, cov, ids[..|ids| - 1], scale) + UnitFeatures(index.Lock(ids[|ids| - 1]), cov, scale)
  }

  /** Everything one query visits, in visiting order. */
  function QueryFeatures(index: MwmSet, engine: CoveringEngine, mode: CoveringMode, rect: Rect, scale: nat): seq<FeatureID>
  {
    UnitsFeatures(index, CoveringGetter(rect, mode, engine), DispatchOrder(index.infos, rect, scale), scale)
  }

  lemma UnitsFeaturesSnoc(index: MwmSet, cov: CoveringGetter, ids: seq<MwmId>, id: MwmId, scale: nat)
    ensures UnitsFeatures(index, cov, ids + [id], scale) ==
            UnitsFeatures(index, cov, ids, scale) + UnitFeatures(index.Lock(id), cov, scale)
  {
    assert (ids + [id])[..|ids|] == ids;
  }

  /**
   * What ForEachInIntervals holds once it has looked at the ids below n: the
   * coastline and world slots hold the last matching id of their category
   * below n (or the sentinel), and exactly the matching country units below
   * n have been read, in id order, on top of the functor's trace and the
   * visitor's base.
   */
  ghost predicate Selected(index: MwmSet, cov: CoveringGetter, rect: Rect, scale: nat, n: nat,
                           coasts: MwmId, world: MwmId, dispatched: seq<MwmId>, visited: seq<FeatureID>,
                           trace: seq<MwmId>, base: seq<FeatureID>)
  {
    n <= |index.infos| &&
    coasts == LastMatch(index.infos, rect, scale, Coasts, n) &&
    world == LastMatch(index.infos, rect, scale, World, n) &&
    dispatched == trace + CountryMatches(index.infos, rect, scale, n) &&
    visited == base + UnitsFeatures(index, cov, CountryMatches(index.infos, rect, scale, n), scale)
  }

  /** Index::ForEachInIntervals. */
  method ForEachInIntervals(index: MwmSet, f: ReadMwmFunctor, mode: CoveringMode, rect: Rect, scale: nat,
                            engine: CoveringEngine)
    modifies f, f.sink
    ensures f.dispatched == old(f.dispatched) + DispatchOrder(index.infos, rect, scale)
    ensures f.sink.visited == old(f.sink.visited) + QueryFeatures(index, engine, mode, rect, scale)
  {
    var mwm := index.GetMwmInfo();
    var cov := CoveringGetter(rect, mode, engine);
    var count := |mwm|;
    var worldID := new MwmId[2];
    worldID[0], worldID[1] := count, count;

    var id := 0;
    assert f.dispatched + CountryMatches(mwm, rect, scale, 0) == f.dispatched;
    assert f.sink.visited + UnitsFeatures(index, cov, CountryMatches(mwm, rect, scale, 0), scale) == f.sink.visited;
    while id < count
      invariant 0 <= id <= count
      invariant Selected(index, cov, rect, scale, id, worldID[0], worldID[1], f.dispatched, f.sink.visited,
                         old(f.dispatched), old(f.sink.visited))
    {
      SelectUnit(index, f, cov, worldID, rect, scale, id, old(f.dispatched), old(f.sink.visited));
      id := id + 1;
    }

    ReadWorldUnits(index, f, cov, worldID, rect, scale, old(f.dispatched), old(f.sink.visited));
    assert QueryFeatures(index, engine, mode, rect, scale) ==
           UnitsFeatures(index, cov, DispatchOrder(index.infos, rect, scale), scale);
  }

  /**
   * One pass of the selection loop of ForEachInIntervals over unit id: a
   * matching country unit is read on the spot, and a matching coastline or
   * world unit overwrites its slot of worldID. trace and base are what the
   * functor and the visitor held when the query started.
   */
  method SelectUnit(index: MwmSet, f: ReadMwmFunctor, cov: CoveringGetter, worldID: array<MwmId>, rect: Rect,
                    scale: nat, id: MwmId, ghost trace: seq<MwmId>, ghost base: seq<FeatureID>)
    requires id < |index.infos| && worldID.Length == 2
    requires Selected(index, cov, rect, scale, id, worldID[0], worldID[1], f.dispatched, f.sink.visited, trace, base)
    modifies f, f.sink, worldID
    ensures Selected(index, cov, rect, scale, id + 1, worldID[0], worldID[1], f.dispatched, f.sink.visited, trace, base)
  {
    var mwm := index.GetMwmInfo();
    DispatchStep(mwm, rect, scale, id);
    if Matches(mwm[id], rect, scale) {
      match mwm[id].category
      case Country =>
        ReadUnit(index, f, cov, id, scale, CountryMatches(mwm, rect, scale, id), trace, base);
      case Coasts =>
        worldID[0] := id;
      case World =>
        worldID[1] := id;
    }
  }

  /**
   * The two tail blocks of ForEachInIntervals: once every country unit has
   * been read, read the coastline slot and then the world slot. trace and
   * base are what the functor and the visitor held when the query started.
   */
  method ReadWorldUnits(index: MwmSet, f: ReadMwmFunctor, cov: CoveringGetter, worldID: array<MwmId>, rect: Rect,
                        scale: nat, ghost trace: seq<MwmId>, ghost base: seq<FeatureID>)
    requires worldID.Length == 2
    requires Selected(index, cov, rect, scale, |index.infos|, worldID[0], worldID[1], f.dispatched, f.sink.visited,
                      trace, base)
    modifies f, f.sink
    ensures f.dispatched == trace + DispatchOrder(index.infos, rect, scale)
    ensures f.sink.visited == base + UnitsFeatures(index, cov, DispatchOrder(index.infos, rect, scale), scale)
  {
    var count := |index.GetMwmInfo()|;
    ghost var countries := CountryMatches(index.infos, rect, scale, count);
    ghost var afterCoasts := countries + Deferred(worldID[0], count);
    ReadDeferred(index, f, cov, worldID[0], count, scale, countries, trace, base);
    ReadDeferred(index, f, cov, worldID[1], count, scale, afterCoasts, trace, base);
    assert afterCoasts + Deferred(worldID[1], count) == DispatchOrder(index.infos, rect, scale);
  }

  /**
   * The tail of ForEachInIntervals for one slot of worldID: read its unit
   * unless it holds the sentinel. done lists the units dispatched before it;
   * trace and base are what the functor and the visitor held when the query
   * started.
   */
  method ReadDeferred(index: MwmSet, f: ReadMwmFunctor, cov: CoveringGetter, slot: MwmId, count: nat, scale: nat,
                      ghost done: seq<MwmId>, ghost trace: seq<MwmId>, ghost base: seq<FeatureID>)
    requires f.dispatched == trace + done
    requires f.sink.visited == base + UnitsFeatures(index, cov, done, scale)
    modifies f, f.sink
    ensures f.dispatched == trace + (done + Deferred(slot, count))
    ensures f.sink.visited == base + UnitsFeatures(index, cov, done + Deferred(slot, count), scale)
  {
    if slot < count {
      ReadUnit(index, f, cov, slot, scale, done, trace, base);
    } else {
      assert done + Deferred(slot, count) == done;
    }
  }

  /**
   * The step ForEachInIntervals repeats for every unit it dispatches: lock
   * the unit and call the functor with the lock, the covering and the scale.
   * done lists the units dispatched before it and base what the visitor
   * held when the query started.
   */
  method ReadUnit(index: MwmSet, f: ReadMwmFunctor, cov: CoveringGetter, id: MwmId, scale: nat,
                  ghost done: seq<MwmId>, ghost trace: seq<MwmId>, ghost base: seq<FeatureID>)
    requires f.dispatched == trace + done
    requires f.sink.visited == base + UnitsFeatures(index, cov, done, scale)
    modifies f, f.sink
    ensures f.dispatched == trace + (done + [id])
    ensures f.sink.visited == base + UnitsFeatures(index, cov, done + [id], scale)
  {
    var lock := index.Lock(id);
    UnitsFeaturesSnoc(index, cov, done, id, scale);
    AppendAssoc(base, UnitsFeatures(index, cov, done, scale), UnitFeatures(lock, cov, scale));
    AppendAssoc(trace, done, [id]);
    f.Apply(lock, cov, scale);
  }

  /** Index::ForEachInRect: viewport covering with the coarser levels. */
  method ForEachInRect(index: MwmSet, f: Visitor, rect: Rect, scale: nat, engine: CoveringEngine)
    modifies f
    ensures f.visited == old(f.visited) + QueryFeatures(index, engine, ViewportWithLowLevels, rect, scale)
  {
    var implFunctor := new ReadMwmFunctor(f);
    ForEachInIntervals(index, implFunctor, ViewportWithLowLevels, rect, scale, engine);
  }

  /** Index::ForEachInRect_TileDrawing: covering with the coarse levels only. */
  method ForEachInRectTileDrawing(index: MwmSet, f: Visitor, rect: Rect, scale: nat, engine: CoveringEngine)
    modifies f
    ensures f.visited == old(f.visited) + QueryFeatures(index, engine, LowLevelsOnly, rect, scale)
  {
    var implFunctor := new ReadMwmFunctor(f);
    ForEachInIntervals(index, implFunctor, LowLevelsOnly, rect, scale, engine);
  }

  /** Index::ForEachInScale: the whole plane, fully covered. */
  method ForEachInScale(index: MwmSet, f: Visitor, scale: nat, engine: CoveringEngine)
    modifies f
    ensures f.visited == old(f.visited) + QueryFeatures(index, engine, FullCover, Infinite, scale)
  {
    var implFunctor := new ReadMwmFunctor(f);
    ForEachInIntervals(index, implFunctor, FullCover, Infinite, scale, engine);
  }

  /** Every feature the listed units contribute belongs to one of them, and that unit has a value. */
  lemma {:induction false} UnitsFeaturesFromUnits(index: MwmSet, cov: CoveringGetter, ids: seq<MwmId>, scale: nat)
    ensures forall k :: 0 <= k < |UnitsFeatures(index, cov, ids, scale)| ==>
              UnitsFeatures(index, cov, ids, scale)[k].mwmId in ids &&
              index.values(UnitsFeatures(index, cov, ids, scale)[k].mwmId).Some?
  {
    if ids != [] {
      var prefix := ids[..|ids| - 1];
      var last := ids[|ids| - 1];
      UnitsFeaturesFromUnits(index, cov, prefix, scale);
      UnitFeaturesTagged(index.Lock(last), cov, scale);
      assert forall x :: x in prefix ==> x in ids;
    }
  }

  /** Units that are listed once each contribute no feature twice. */
  lemma {:induction false} UnitsFeaturesDistinct(index: MwmSet, cov: CoveringGetter, ids: seq<MwmId>, scale: nat)
    requires forall i, j :: 0 <= i < j < |ids| ==> ids[i] != ids[j]
    ensures forall i, j :: 0 <= i < j < |UnitsFeatures(index, cov, ids, scale)| ==>
              UnitsFeatures(index, cov, ids, scale)[i] != UnitsFeatures(index, cov, ids, scale)[j]
  {
    if ids != [] {
      var prefix := ids[..|ids| - 1];
      var last := ids[|ids| - 1];
      var lock := index.Lock(last);
      UnitsFeaturesDistinct(index, cov, prefix, scale);
      UnitsFeaturesFromUnits(index, cov, prefix, scale);
      UnitFeaturesTagged(lock, cov, scale);
      if lock.value.Some? {
        UnitFeaturesSpec(lock, cov, scale);
      }
      assert last !in prefix;
    }
  }

  /** Among units listed once each, the features of unit id are exactly those the unit itself contributes. */
  lemma {:induction false} UnitsFeaturesOfUnit(index: MwmSet, cov: CoveringGetter, ids: seq<MwmId>, scale: nat, id: MwmId)
    requires forall i, j :: 0 <= i < j < |ids| ==> ids[i] != ids[j]
    requires id in ids
    ensures forall o :: FeatureID(id, o) in UnitsFeatures(index, cov, ids, scale) <==>
              FeatureID(id, o) in UnitFeatures(index.Lock(id), cov, scale)
  {
    var prefix := ids[..|ids| - 1];
    var last := ids[|ids| - 1];
    UnitsFeaturesFromUnits(index, cov, prefix, scale);
    UnitFeaturesTagged(index.Lock(last), cov, scale);
    if id == last {
      assert id !in prefix;
    } else {
      assert id in prefix;
      UnitsFeaturesOfUnit(index, cov, prefix, scale, id);
    }
  }

  /** If the units are listed in non-decreasing category rank, so are the features they contribute. */
  lemma {:induction false} UnitsFeaturesRankOrdered(index: MwmSet, cov: CoveringGetter, ids: seq<MwmId>, scale: nat)
    requires forall i, j :: 0 <= i < j < |ids| ==> UnitRank(index.infos, ids[i]) <= UnitRank(index.infos, ids[j])
    ensures forall i, j :: 0 <= i < j < |UnitsFeatures(index, cov, ids, scale)| ==>
              UnitRank(index.infos, UnitsFeatures(index, cov, ids, scale)[i].mwmId) <=
              UnitRank(index.infos, UnitsFeatures(index, cov, ids, scale)[j].mwmId)
  {
    if ids != [] {
      var prefix := ids[..|ids| - 1];
      var last := ids[|ids| - 1];
      UnitsFeaturesRankOrdered(index, cov, prefix, scale);
      UnitsFeaturesFromUnits(index, cov, prefix, scale);
      UnitFeaturesTagged(index.Lock(last), cov, scale);
      forall x | x in prefix
        ensures UnitRank(index.infos, x) <= UnitRank(index.infos, last)
      {
        var m :| 0 <= m < |prefix| && prefix[m] == x;
        assert ids[m] == x;
      }
    }
  }

  /** A query visits only features of units that pass the selection test. */
  lemma QueryVisitsOnlyMatchingUnits(index: MwmSet, engine: CoveringEngine, mode: CoveringMode, rect: Rect, scale: nat)
    ensures forall k :: 0 <= k < |QueryFeatures(index, engine, mode, rect, scale)| ==>
              QueryFeatures(index, engine, mode, rect, scale)[k].mwmId < |index.infos| &&
              Matches(index.infos[QueryFeatures(index, engine, mode, rect, scale)[k].mwmId], rect, scale)
  {
    var d := DispatchOrder(index.infos, rect, scale);
    UnitsFeaturesFromUnits(index, CoveringGetter(rect, mode, engine), d, scale);
    DispatchSound(index.infos, rect, scale);
  }

  /** A query visits no feature twice. */
  lemma QueryVisitsEachFeatureOnce(index: MwmSet, engine: CoveringEngine, mode: CoveringMode, rect: Rect, scale: nat)
    ensures forall i, j :: 0 <= i < j < |QueryFeatures(index, engine, mode, rect, scale)| ==>
              QueryFeatures(index, engine, mode, rect, scale)[i] != QueryFeatures(index, engine, mode, rect, scale)[j]
  {
    DispatchAtMostOnce(index.infos, rect, scale);
    UnitsFeaturesDistinct(index, CoveringGetter(rect, mode, engine), DispatchOrder(index.infos, rect, scale), scale);
  }

  /** Country features are visited before coastline features, and those before world features. */
  lemma QueryCategoryOrder(index: MwmSet, engine: CoveringEngine, mode: CoveringMode, rect: Rect, scale: nat)
    ensures forall i, j :: 0 <= i < j < |QueryFeatures(index, engine, mode, rect, scale)| ==>
              UnitRank(index.infos, QueryFeatures(index, engine, mode, rect, scale)[i].mwmId) <=
              UnitRank(index.infos, QueryFeatures(index, engine, mode, rect, scale)[j].mwmId)
  {
    DispatchOrdered(index.infos, rect, scale);
    UnitsFeaturesRankOrdered(index, CoveringGetter(rect, mode, engine), DispatchOrder(index.infos, rect, scale), scale);
  }

  /**
   * For a unit that opens, a query visits FeatureID(id, o) exactly when the
   * unit is dispatched and o is among the offsets that unit's intervals yield.
   */
  lemma QueryUnitFeatures(index: MwmSet, engine: CoveringEngine, mode: CoveringMode, rect: Rect, scale: nat, id: MwmId)
    requires index.values(id).Some?
    ensures forall o :: FeatureID(id, o) in QueryFeatures(index, engine, mode, rect, scale) <==>
              id in DispatchOrder(index.infos, rect, scale) &&
              o in UnitOffsets(index.values(id).value, CoveringGetter(rect, mode, engine), scale)
  {
    var cov := CoveringGetter(rect, mode, engine);
    var d := DispatchOrder(index.infos, rect, scale);
    UnitsFeaturesFromUnits(index, cov, d, scale);
    UnitFeaturesSpec(index.Lock(id), cov, scale);
    if id in d {
      DispatchAtMostOnce(index.infos, rect, scale);
      UnitsFeaturesOfUnit(index, cov, d, scale, id);
    } else {
      forall o ensures FeatureID(id, o) !in QueryFeatures(index, engine, mode, rect, scale) {
      }
    }
  }

  /** A unit whose lock yields no value contributes nothing to a query. */
  lemma QueryNullUnitContributesNothing(index: MwmSet, engine: CoveringEngine, mode: CoveringMode, rect: Rect, scale: nat,
                                        id: MwmId)
    requires index.values(id).None?
    ensures forall k :: 0 <= k < |QueryFeatures(index, engine, mode, rect, scale)| ==>
              QueryFeatures(index, engine, mode, rect, scale)[k].mwmId != id
  {
    UnitsFeaturesFromUnits(index, CoveringGetter(rect, mode, engine), DispatchOrder(index.infos, rect, scale), scale);
  }

  /** ForEachInScale reads every country unit whose scale range holds the scale, whatever its rectangle. */
  lemma ScaleQueryReadsAllCountries(infos: seq<MwmInfo>, scale: nat)
    ensures forall id: nat ::
              (id < |infos| && infos[id].category == Country && infos[id].minScale <= scale <= infos[id].maxScale) ==>
              id in DispatchOrder(infos, Infinite, scale)
  {
    DispatchCountriesComplete(infos, Infinite, scale);
  }
}
