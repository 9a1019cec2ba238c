/**
 * Value types used by the multi-unit query engine of indexer/index.hpp:
 * unit metadata (MwmInfo), the query rectangle, feature identities, the
 * covering of a rectangle by cell intervals, and the snapshot of the unit
 * registry (MwmSet) that the query reads.
 *
 * The covering engine and the per-unit scale index are not part of this
 * model; they enter as functions that the caller supplies.
 */
module MwmTypes {

  datatype Option<+T> = None | Some(value: T)

  /** The category of a map unit, as MwmInfo::GetType() reports it. */
  datatype Category = Country | World | Coasts

  /**
   * An axis-aligned rectangle in projected coordinates. Coordinates are
   * integers here; `Infinite` is the rectangle that covers the whole plane
   * (m2::RectD::GetInfiniteRect()).
   */
  datatype Rect = Box(minX: int, minY: int, maxX: int, maxY: int) | Infinite

  /** A box whose corners are in order. */
  predicate IsProper(a: Rect)
  {
    a.Box? ==> a.minX <= a.maxX && a.minY <= a.maxY
  }

  /** The point (x, y) lies in the closed box a. */
  predicate InBox(a: Rect, x: int, y: int)
    requires a.Box?
  {
    a.minX <= x <= a.maxX && a.minY <= y <= a.maxY
  }

  function Max(x: int, y: int): int
  {
    if x < y then y else x
  }

  /**
   * Closed-box overlap, as m2::Rect::IsIntersect decides it: two boxes meet
   * unless one lies strictly to one side of the other. The infinite
   * rectangle meets every rectangle, and two proper boxes that meet share
   * the point at the larger of their lower corners.
   */
  function IsIntersect(a: Rect, b: Rect): (r: bool)
    ensures a.Infinite? || b.Infinite? ==> r
    ensures r && a.Box? && b.Box? && IsProper(a) && IsProper(b) ==>
              InBox(a, Max(a.minX, b.minX), Max(a.minY, b.minY)) &&
              InBox(b, Max(a.minX, b.minX), Max(a.minY, b.minY))
  {
    if a.Infinite? || b.Infinite? then true
    else !(a.maxX < b.minX || a.minX > b.maxX || a.maxY < b.minY || a.minY > b.maxY)
  }

  /** Two boxes with a common point meet. */
  lemma CommonPointIntersects(a: Rect, b: Rect, x: int, y: int)
    requires a.Box? && b.Box? && InBox(a, x, y) && InBox(b, x, y)
    ensures IsIntersect(a, b) && IsIntersect(b, a)
  {
  }

  /** Metadata of one registered unit: its scale range, bounding rectangle and category. */
  datatype MwmInfo = MwmInfo(minScale: nat, maxScale: nat, limitRect: Rect, category: Category)

  /**
   * The selection test of a query: the scale lies in the unit's range and
   * the rectangles meet. Only a unit with a non-empty scale range can pass,
   * and against the infinite rectangle the scale range alone decides.
   */
  function Matches(info: MwmInfo, rect: Rect, scale: nat): (r: bool)
    ensures r ==> info.minScale <= info.maxScale
    ensures rect.Infinite? ==> (r <==> info.minScale <= scale <= info.maxScale)
  {
    info.minScale <= scale && scale <= info.maxScale && IsIntersect(rect, info.limitRect)
  }

  /** Position of a unit in the registry snapshot. */
  type MwmId = nat

  /** A byte offset of a feature record inside one unit (a uint32_t). */
  type Offset = x: nat | x < 0x1_0000_0000

  /** The identity a visited feature is tagged with: its unit and its offset in that unit. */
  datatype FeatureID = FeatureID(mwmId: MwmId, offset: Offset)

  /** A closed interval of cells on the space-filling curve. */
  datatype Interval = Interval(first: int, second: int)

  /** Which resolutions of cells a rectangle is covered with. */
  datatype CoveringMode = ViewportWithLowLevels | LowLevelsOnly | FullCover

  /** The covering engine: the cell intervals of a rectangle in a mode at a coding scale. */
  type CoveringEngine = (Rect, CoveringMode, nat) -> seq<Interval>

  /**
   * covering::CoveringGetter: fixed to one rectangle and one mode, it hands
   * out the intervals for whatever scale a unit asks for.
   */
  datatype CoveringGetter = CoveringGetter(rect: Rect, mode: CoveringMode, engine: CoveringEngine)
  {
    function Get(scale: nat): seq<Interval>
    {
      engine(rect, mode, scale)
    }
  }

  /** A unit's scale index: the feature offsets it lists for an interval at a scale, in its own order. */
  type ScaleIndex = (Interval, nat) -> seq<Offset>

  /**
   * The opened resources of a unit: the last coding scale from its header
   * and its scale index.
   */
  datatype MwmValue = MwmValue(lastScale: nat, index: ScaleIndex)

  /** A lock on one unit; its value is absent when the unit could not be opened or is gone. */
  datatype MwmLock = MwmLock(id: MwmId, value: Option<MwmValue>)

  /**
   * The registry as one query sees it: the metadata snapshot that
   * GetMwmInfo fills in, and what locking each id yields.
   */
  datatype MwmSet = MwmSet(infos: seq<MwmInfo>, values: MwmId -> Option<MwmValue>)
  {
    function GetMwmInfo(): seq<MwmInfo>
    {
      infos
    }

    /** MwmLock lock(*this, id) followed by GetValue(): a lock on id whose value is the registry's, possibly none. */
    function Lock(id: MwmId): MwmLock
    {
      MwmLock(id, values(id))
    }
  }
}
