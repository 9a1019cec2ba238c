# Multi-unit feature query of `indexer/index.hpp`

This project models the query core of omim's `Index` class in Dafny. A map
is split into units (MWM files). Each unit has metadata (`MwmInfo`: a scale
range, a bounding rectangle and a category) and, once it is opened, a scale
index that lists feature offsets for cell intervals.

A query has three layers, and the model keeps all three:

- `Index::ForEachInIntervals` takes a snapshot of the metadata. It picks the
  units whose scale range holds the query scale and whose rectangle meets the
  query rectangle. Country units are read on the spot, in id order. The last
  matching coastline unit and the last matching world unit are parked in the
  two slots of `worldID` and read at the end. A slot that still holds the
  sentinel `count` reads nothing.
- `ReadMWMFunctor::operator()` reads one unit. It does nothing when the lock
  has no value. Otherwise it lowers the scale to the unit's last coding
  scale, takes the covering at the last coding scale, and feeds every
  interval, in order, through the scale index into one fresh
  `ReadFeatureFunctor`.
- `ReadFeatureFunctor::operator()` inserts each offset into the set of offsets
  seen in this unit. Only when the offset is new does it hand
  `FeatureID(unit id, offset)` to the caller's visitor.

The three entry points `ForEachInRect`, `ForEachInRect_TileDrawing` and
`ForEachInScale` differ only in the covering mode and, for the last one, the
rectangle (the whole plane).

## Files

- `mwm_types.dfy` (module `MwmTypes`): the value types.
  - Rectangles have integer coordinates, and `Infinite` is the whole plane.
  - `IsIntersect` is closed-box overlap.
  - The covering engine and each unit's scale index are functions the caller
    supplies.
  - A lock reads the registry's value for an id, which may be absent.
- `read_feature.dfy` (module `ReadFeature`): the visitor and the deduplicating
  functor.
  - The visitor is a class that records every `FeatureID` it is handed.
  - `ReadFeatureFunctor` is a class whose set field the methods update.
  - `ForEachInIntervalAndScale` hands the offsets listed for one interval to
    the functor.
  - `Dedup` is the reference definition of what survives deduplication; its
    lemmas are proved here.
- `read_mwm.dfy` (module `ReadMwm`): the per-unit functor as a class with a
  ghost trace of the unit ids it was called with.
  - Its method loops over the intervals the way the source does.
  - `UnitFeatures` is the specification of what one unit contributes.
- `dispatch.dfy` (module `Dispatch`): the dispatch order as functions
  (`CountryMatches`, `LastMatch`, `Deferred`, `DispatchOrder`).
  - The lemmas state selection, completeness, last-match, ordering and
    at-most-once properties independently of how the order is computed.
- `index.dfy` (module `Index`): `ForEachInIntervals`, with the two-slot
  `worldID` array and the loop over ids.
  - It is proved to call the functor exactly on `DispatchOrder` and to
    visit exactly `QueryFeatures`.
  - The entry points and the query-level lemmas are here too.
  - `Selected` is the state the selection loop keeps: the two slots and what
    has been read so far, after the ids below some bound.
  - `SelectUnit` is one pass of the loop body over one id, and keeps
    `Selected`.
  - `ReadWorldUnits` is the two tail `if` blocks, and `ReadDeferred` is one
    of them.
  - `ReadUnit` is the lock-and-call step the source repeats three times
    (lines 205-206, 223-224, 229-230).

## Model

| member | source | states |
|---|---|---|
| MwmTypes.IsIntersect | indexer/index.hpp:199 | the infinite rectangle meets every rectangle, and two proper boxes that meet share a point (the larger of their lower corners) |
| MwmTypes.CommonPointIntersects | indexer/index.hpp:199 | two boxes with a common point meet, in either argument order |
| MwmTypes.Matches | indexer/index.hpp:198-199 | only a unit with a non-empty scale range is selected, and against the infinite rectangle a unit is selected exactly when its scale range holds the scale |
| ReadFeature.ReadFeatureFunctor.constructor | indexer/index.hpp:75-78 | a new functor belongs to the given unit, forwards to the given visitor and has seen no offset |
| ReadFeature.ReadFeatureFunctor.Apply | indexer/index.hpp:80-91 | the offset is added to the seen set; the visitor gets FeatureID(unit, offset) exactly when the offset was not seen before, and nothing otherwise |
| ReadFeature.ForEachInIntervalAndScale | indexer/index.hpp:127-128 | after all offsets of one interval, the seen set gains exactly those offsets, and the visitor gets the unseen ones tagged with the unit id, once each, in first-occurrence order (Tag of Dedup against the old seen set) |
| ReadFeature.DedupAppend | indexer/index.hpp:126-128 | one functor across several intervals: deduplicating a concatenation is deduplicating the first part, then the second part against everything the first part contained |
| ReadFeature.DedupElements | indexer/index.hpp:82 | an offset reaches the visitor exactly when it occurs in the input and was not in the seen set (both directions) |
| ReadFeature.DedupNoDuplicates | indexer/index.hpp:82-90 | no offset reaches the visitor twice |
| ReadFeature.DedupOrderPair | indexer/index.hpp:80-91 | for any two survivors, the earlier one first occurs in the input before the later one |
| ReadFeature.DedupFirstOccurrenceOrder | indexer/index.hpp:80-91 | survivors come from the input and appear in the order of their first occurrences |
| ReadFeature.FirstIndexIsFirst | indexer/index.hpp:82 | the occurrence order used above is the first occurrence: no earlier position holds the offset |
| ReadFeature.TagMembership | indexer/index.hpp:87 | every tagged feature carries the unit id, and FeatureID(id, o) is among the tagged features exactly when o is among the offsets |
| ReadMwm.IndexScale | indexer/index.hpp:115 | the scale handed to the index is at most the query scale and at most the last coding scale, and equals one of them |
| ReadMwm.UnitFeaturesSpec | indexer/index.hpp:104-130 | an opened unit contributes features of that unit only; FeatureID(id, o) is contributed exactly when o is listed for some interval of the covering; none twice; in first-occurrence order |
| ReadMwm.UnitFeaturesTagged | indexer/index.hpp:106-107 | a unit's features carry its id, and a lock without a value contributes nothing |
| ReadMwm.UnitFeaturesScaleCapped | indexer/index.hpp:114-115 | any query scale at or above the last coding scale reads the unit exactly as the last coding scale does |
| ReadMwm.IntervalStep | indexer/index.hpp:126-128 | one more interval adds its offsets to the seen set, and only its offsets unseen so far reach the visitor |
| ReadMwm.ReadMwmFunctor.constructor | indexer/index.hpp:99-102 | a new functor forwards to the caller's visitor and has been called with no unit |
| ReadMwm.ReadMwmFunctor.Apply | indexer/index.hpp:104-130 | records the lock's unit id; the visitor gets exactly UnitFeatures of the lock: nothing without a value, else the deduplicated tagged offsets of the covering at the last coding scale, read at the capped scale |
| Dispatch.DeferredSpec | indexer/index.hpp:221-231 | a slot dispatches at most one id: its own id exactly when it is below count, and nothing for the sentinel |
| Dispatch.CountryMatchesSpec | indexer/index.hpp:196-208 | after ids below n, the countries read are exactly the matching country units below n, in strictly ascending id order |
| Dispatch.LastMatchSpec | indexer/index.hpp:210-216 | a slot after ids below n holds the highest matching id of its category below n, or the sentinel when there is none |
| Dispatch.DispatchSound | indexer/index.hpp:198-199 | every dispatched id is below count and passes the scale-range and rectangle test |
| Dispatch.DispatchCountriesComplete | indexer/index.hpp:203-207 | every matching country unit is dispatched |
| Dispatch.DispatchDeferredIsLastMatch | indexer/index.hpp:210-216 | a matching coastline (world) unit is dispatched exactly when no higher id of that category matches |
| Dispatch.DispatchOrdered | indexer/index.hpp:196-231 | dispatch order: countries in ascending id order, then at most one coastline unit, then at most one world unit |
| Dispatch.DispatchAtMostOnce | indexer/index.hpp:193-231 | no unit id is dispatched twice in one call |
| Dispatch.DispatchDeferredAtMostOne | indexer/index.hpp:210-231 | at most one coastline unit and at most one world unit are dispatched in one call |
| Index.ForEachInIntervals | indexer/index.hpp:184-232 | the functor is called exactly with the locks of DispatchOrder, in that order, and the visitor receives exactly QueryFeatures |
| Index.SelectUnit | indexer/index.hpp:198-217 | one pass over id keeps Selected from id to id + 1: a matching country unit is read, a matching coastline or world unit overwrites its slot, anything else changes nothing |
| Index.ReadWorldUnits | indexer/index.hpp:221-231 | after the loop, reading the coastline slot and then the world slot completes the dispatch order: the functor has been called exactly on DispatchOrder and the visitor holds its features |
| Index.ReadUnit | indexer/index.hpp:205-206 | locking a unit and calling the functor appends that unit to the dispatched list and its UnitFeatures to what the visitor holds |
| Index.ReadDeferred | indexer/index.hpp:221-225 | a slot holding an id below count reads that unit; a slot holding the sentinel count reads nothing |
| Index.ForEachInRect | indexer/index.hpp:138-143 | the visitor receives QueryFeatures of the rectangle in viewport-with-low-levels mode |
| Index.ForEachInRectTileDrawing | indexer/index.hpp:145-150 | the visitor receives QueryFeatures of the rectangle in low-levels-only mode |
| Index.ForEachInScale | indexer/index.hpp:159-164 | the visitor receives QueryFeatures of the whole plane in full-cover mode |
| Index.UnitsFeaturesFromUnits | indexer/index.hpp:205-206 | every feature read from a list of units belongs to a listed unit whose lock has a value |
| Index.UnitsFeaturesDistinct | indexer/index.hpp:126 | units listed once each, each with its own functor, contribute no feature twice |
| Index.UnitsFeaturesOfUnit | indexer/index.hpp:126 | among units listed once each, the features of one unit are exactly those that unit contributes on its own |
| Index.UnitsFeaturesRankOrdered | indexer/index.hpp:221-231 | units listed in category-rank order yield features in category-rank order |
| Index.QueryVisitsOnlyMatchingUnits | indexer/index.hpp:198-199 | a query visits only features of units below count that pass the scale-range and rectangle test |
| Index.QueryVisitsEachFeatureOnce | indexer/index.hpp:184-232 | a query visits no FeatureID twice |
| Index.QueryCategoryOrder | indexer/index.hpp:221-231 | all country features come before coastline features, which come before world features |
| Index.QueryUnitFeatures | indexer/index.hpp:104-130 | for an opened unit, a query visits FeatureID(id, o) exactly when the unit is dispatched and o is listed for one of its covering intervals at the capped scale |
| Index.QueryNullUnitContributesNothing | indexer/index.hpp:106-107 | a unit whose lock has no value contributes no feature to a query |
| Index.ScaleQueryReadsAllCountries | indexer/index.hpp:159-164 | ForEachInScale reads every country unit whose scale range holds the scale, whatever its rectangle |

## Left out

- The unit registry (`MwmSet`), lock reference counting, unit lifecycle and
  concurrency. They live in `mwm_set.hpp`, which is not part of this model. A
  lock is modelled as reading the registry's value for an id, which may be
  absent. Releasing the lock is not modelled.
- The covering engine (`covering::CoveringGetter`, `feature_covering.hpp`).
  Its source is not part of this model, so it enters as a caller-supplied
  function of rectangle, mode and scale.
- The internals of `ScaleIndex::ForEachInIntervalAndScale`. Its source is not
  part of this model. Each unit's index is a function from an interval and a
  scale to offsets in the index's own order, and the method only hands those
  offsets to the functor in that order. Nothing is assumed about offsets
  being ascending: the code does not promise it.
- `FeaturesVector::Get`, `FeatureType` decoding, readers and containers. This
  is file I/O and decoding in code that is not part of this model. The
  visitor receives the `FeatureID` only. The caller's visitor `F` is a class
  that records what it is handed.
- `m2::RectD` double-precision geometry. Rectangles have integer coordinates.
  Intersection is taken as closed-box overlap, because the rectangle class is
  not part of this model. `GetInfiniteRect` is a constructor that meets
  every rectangle.
- `ForEachFeatureIDInRect` (indexer/index.hpp:152-157): its body is an empty
  TODO, so there is nothing to model.
- `GetInfo`, `CreateValue`, `UpdateMwmInfo`, `DeleteMap`, `UpdateMap`, the
  `MwmValue` constructor (indexer/index.hpp:23), `MwmValue::GetFileName`
  (line 28) and `MwmLock::GetFileName` (line 58) are declared only. The other
  members of `MwmValue` and `MwmLock` have bodies and are modelled: the
  `MwmLock` constructor and `GetValue` (lines 48-54) by `MwmSet.Lock` and the
  lock's `value` field, which may be absent, and `GetHeader().GetLastScale()`
  by the `lastScale` field of `MwmValue`.
- `FeaturesLoaderGuard` (indexer/index.hpp:166-180) loads one unit's
  features by offset and is not on the query path. Its constructor, `IsWorld`
  and `GetFeature` are declared only, and `GetID` and `GetFileName` only
  forward to its lock.
- `iphone/Maps/Classes/MapViewController.h`: UI declarations with no logic.
- ReadMwm.IndexScale: scales are unbounded naturals, and the last coding scale
  is taken to be non-negative. The C++ comparison of an unsigned `scale` with
  an `int` last scale at line 115 would misbehave for a negative last scale,
  which is not modelled.
- No stop signal: nothing in `ForEachInIntervals` or the functors lets the
  visitor end a query early, so the model always runs to completion.
- Determinism across repeated calls is not stated as a separate lemma. The
  whole query result is the function `QueryFeatures` of the registry
  snapshot, the covering engine, the mode, the rectangle and the scale.
