/**
 * Which units a query dispatches, and in which order
 * (Index::ForEachInIntervals): every matching country unit in ascending
 * id order, then the last matching coastline unit, then the last matching
 * world unit. The functions below define that order the way the loop
 * builds it; the lemmas state what it means independently of the loop.
 */
module Dispatch {
  import opened MwmTypes

  /** Unit id is in the snapshot, passes the selection test and has category cat. */
  predicate IsMatch(infos: seq<MwmInfo>, rect: Rect, scale: nat, id: MwmId, cat: Category)
  {
    id < |infos| && Matches(infos[id], rect, scale) && infos[id].category == cat
  }

  /** The matching country units among ids 0 .. n-1, in ascending order. */
  function CountryMatches(infos: seq<MwmInfo>, rect: Rect, scale: nat, n: nat): seq<MwmId>
    requires n <= |infos|
  {
    if n == 0 then []
    else CountryMatches(infos, rect, scale, n - 1) +
         (if IsMatch(infos, rect, scale, n - 1, Country) then [n - 1] else [])
  }

  /**
   * The content of a deferred slot after the loop has seen ids 0 .. n-1:
   * the last matching id of category cat, or the sentinel |infos|.
   */
  function LastMatch(infos: seq<MwmInfo>, rect: Rect, scale: nat, cat: Category, n: nat): MwmId
    requires n <= |infos|
  {
    if n == 0 then |infos|
    else if IsMatch(infos, rect, scale, n - 1, cat) then n - 1
    else LastMatch(infos, rect, scale, cat, n - 1)
  }

  /** A deferred slot dispatches its unit unless it still holds the sentinel count. */
  function Deferred(slot: MwmId, count: nat): (r: seq<MwmId>)
  {
    if slot < count then [slot] else []
  }

  /** A deferred slot dispatches at most one id: its own, and only when it is below count. */
  lemma DeferredSpec(slot: MwmId, count: nat)
    ensures |Deferred(slot, count)| <= 1
    ensures forall x: nat :: x in Deferred(slot, count) <==> x == slot && slot < count
  {
  }

  /** The ids ForEachInIntervals dispatches, in dispatch order. */
  function DispatchOrder(infos: seq<MwmInfo>, rect: Rect, scale: nat): seq<MwmId>
  {
    CountryMatches(infos, rect, scale, |infos|) +
    Deferred(LastMatch(infos, rect, scale, Coasts, |infos|), |infos|) +
    Deferred(LastMatch(infos, rect, scale, World, |infos|), |infos|)
  }

  /** The position of a category in the dispatch order. */
  function Rank(c: Category): nat
  {
    match c
    case Country => 0
    case Coasts => 1
    case World => 2
  }

  /** The rank of a unit's category; ids outside the snapshot rank last. */
  function UnitRank(infos: seq<MwmInfo>, id: MwmId): nat
  {
    if id < |infos| then Rank(infos[id].category) else 3
  }

  /** What the loop's step from id to id + 1 does to the country list and to the two slots. */
  lemma DispatchStep(infos: seq<MwmInfo>, rect: Rect, scale: nat, id: nat)
    requires id < |infos|
    ensures IsMatch(infos, rect, scale, id, Country) ==>
              CountryMatches(infos, rect, scale, id + 1) == CountryMatches(infos, rect, scale, id) + [id]
    ensures !IsMatch(infos, rect, scale, id, Country) ==>
              CountryMatches(infos, rect, scale, id + 1) == CountryMatches(infos, rect, scale, id)
    ensures LastMatch(infos, rect, scale, Coasts, id + 1) ==
            if IsMatch(infos, rect, scale, id, Coasts) then id else LastMatch(infos, rect, scale, Coasts, id)
    ensures LastMatch(infos, rect, scale, World, id + 1) ==
            if IsMatch(infos, rect, scale, id, World) then id else LastMatch(infos, rect, scale, World, id)
  {
    assert CountryMatches(infos, rect, scale, id) + [] == CountryMatches(infos, rect, scale, id);
  }

  /** The country prefix holds exactly the matching country units below n, strictly ascending. */
  lemma {:induction false} CountryMatchesSpec(infos: seq<MwmInfo>, rect: Rect, scale: nat, n: nat)
    requires n <= |infos|
    ensures forall k :: 0 <= k < |CountryMatches(infos, rect, scale, n)| ==>
              CountryMatches(infos, rect, scale, n)[k] < n &&
              IsMatch(infos, rect, scale, CountryMatches(infos, rect, scale, n)[k], Country)
    ensures forall i, j :: 0 <= i < j < |CountryMatches(infos, rect, scale, n)| ==>
              CountryMatches(infos, rect, scale, n)[i] < CountryMatches(infos, rect, scale, n)[j]
    ensures forall id: nat :: id < n && IsMatch(infos, rect, scale, id, Country) ==>
              id in CountryMatches(infos, rect, scale, n)
  {
    if n > 0 {
      CountryMatchesSpec(infos, rect, scale, n - 1);
      var prev := CountryMatches(infos, rect, scale, n - 1);
      var last := if IsMatch(infos, rect, scale, n - 1, Country) then [n - 1] else [];
      var r := CountryMatches(infos, rect, scale, n);
      assert r == prev + last;
      forall k | 0 <= k < |r|
        ensures r[k] < n && IsMatch(infos, rect, scale, r[k], Country)
      {
        if k < |prev| {
          assert r[k] == prev[k];
        } else {
          assert r[k] == last[0] == n - 1;
        }
      }
      forall i, j | 0 <= i < j < |r|
        ensures r[i] < r[j]
      {
        assert r[i] == prev[i];
        if j < |prev| {
          assert r[j] == prev[j];
        } else {
          assert r[j] == last[0] == n - 1;
        }
      }
      forall id: nat | id < n && IsMatch(infos, rect, scale, id, Country)
        ensures id in r
      {
        if id < n - 1 {
          var k :| 0 <= k < |prev| && prev[k] == id;
          assert r[k] == id;
        } else {
          assert r[|r| - 1] == id;
        }
      }
    }
  }

  /**
   * A deferred slot after ids 0 .. n-1 holds the highest matching id of its
   * category below n, or the sentinel when there is none.
   */
  lemma {:induction false} LastMatchSpec(infos: seq<MwmInfo>, rect: Rect, scale: nat, cat: Category, n: nat)
    requires n <= |infos|
    ensures LastMatch(infos, rect, scale, cat, n) < n || LastMatch(infos, rect, scale, cat, n) == |infos|
    ensures LastMatch(infos, rect, scale, cat, n) < n ==>
              IsMatch(infos, rect, scale, LastMatch(infos, rect, scale, cat, n), cat) &&
              forall y: nat :: LastMatch(infos, rect, scale, cat, n) < y < n ==> !IsMatch(infos, rect, scale, y, cat)
    ensures LastMatch(infos, rect, scale, cat, n) >= n ==>
              forall y: nat :: y < n ==> !IsMatch(infos, rect, scale, y, cat)
  {
    if n > 0 {
      LastMatchSpec(infos, rect, scale, cat, n - 1);
    }
  }

  /** Only units that pass the selection test are dispatched, and every dispatched id is below count. */
  lemma DispatchSound(infos: seq<MwmInfo>, rect: Rect, scale: nat)
    ensures forall k :: 0 <= k < |DispatchOrder(infos, rect, scale)| ==>
              DispatchOrder(infos, rect, scale)[k] < |infos| &&
              Matches(infos[DispatchOrder(infos, rect, scale)[k]], rect, scale)
  {
    var n := |infos|;
    CountryMatchesSpec(infos, rect, scale, n);
    LastMatchSpec(infos, rect, scale, Coasts, n);
    LastMatchSpec(infos, rect, scale, World, n);
  }

  /** Every matching country unit is dispatched. */
  lemma DispatchCountriesComplete(infos: seq<MwmInfo>, rect: Rect, scale: nat)
    ensures forall id: nat :: IsMatch(infos, rect, scale, id, Country) ==> id in DispatchOrder(infos, rect, scale)
  {
    CountryMatchesSpec(infos, rect, scale, |infos|);
  }

  /**
   * For coastlines and for the world, a unit of that category is
   * dispatched exactly when it matches and no higher id of the same
   * category matches: later matches overwrite the slot.
   */
  lemma DispatchDeferredIsLastMatch(infos: seq<MwmInfo>, rect: Rect, scale: nat, cat: Category)
    requires cat != Country
    ensures forall id: nat :: id in DispatchOrder(infos, rect, scale) && IsMatch(infos, rect, scale, id, cat) <==>
              IsMatch(infos, rect, scale, id, cat) &&
              forall y: nat :: id < y < |infos| ==> !IsMatch(infos, rect, scale, y, cat)
  {
    var n := |infos|;
    var d := DispatchOrder(infos, rect, scale);
    var c := CountryMatches(infos, rect, scale, n);
    var lc := LastMatch(infos, rect, scale, Coasts, n);
    var lw := LastMatch(infos, rect, scale, World, n);
    CountryMatchesSpec(infos, rect, scale, n);
    LastMatchSpec(infos, rect, scale, Coasts, n);
    LastMatchSpec(infos, rect, scale, World, n);
    var last := LastMatch(infos, rect, scale, cat, n);
    assert d == c + Deferred(lc, n) + Deferred(lw, n);
    forall id: nat | IsMatch(infos, rect, scale, id, cat)
      ensures id in d <==> forall y: nat :: id < y < n ==> !IsMatch(infos, rect, scale, y, cat)
    {
      assert id !in c;
      if cat == Coasts {
        assert id in d <==> id == lc;
      } else {
        assert id in d <==> id == lw;
      }
      assert id in d <==> id == last;
    }
  }

  /**
   * Dispatch order is strictly increasing in (category rank, id) where
   * only country units may share a rank: countries first in ascending id
   * order, then at most one coastline unit, then at most one world unit.
   */
  lemma DispatchOrdered(infos: seq<MwmInfo>, rect: Rect, scale: nat)
    ensures forall i, j :: 0 <= i < j < |DispatchOrder(infos, rect, scale)| ==>
              UnitRank(infos, DispatchOrder(infos, rect, scale)[i]) < UnitRank(infos, DispatchOrder(infos, rect, scale)[j]) ||
              (UnitRank(infos, DispatchOrder(infos, rect, scale)[i]) == Rank(Country) &&
               UnitRank(infos, DispatchOrder(infos, rect, scale)[j]) == Rank(Country) &&
               DispatchOrder(infos, rect, scale)[i] < DispatchOrder(infos, rect, scale)[j])
  {
    var n := |infos|;
    var d := DispatchOrder(infos, rect, scale);
    var c := CountryMatches(infos, rect, scale, n);
    var tail := Deferred(LastMatch(infos, rect, scale, Coasts, n), n) +
                Deferred(LastMatch(infos, rect, scale, World, n), n);
    CountryMatchesSpec(infos, rect, scale, n);
    LastMatchSpec(infos, rect, scale, Coasts, n);
    LastMatchSpec(infos, rect, scale, World, n);
    assert d == c + tail;
    assert forall k :: 0 <= k < |c| ==> d[k] == c[k] && UnitRank(infos, d[k]) == Rank(Country);
    assert forall k :: |c| <= k < |d| ==> d[k] == tail[k - |c|];
    assert forall k :: 0 <= k < |tail| ==> UnitRank(infos, tail[k]) > Rank(Country);
    assert forall i, j :: 0 <= i < j < |tail| ==> UnitRank(infos, tail[i]) < UnitRank(infos, tail[j]);
  }

  /** No unit is dispatched twice in one query. */
  lemma DispatchAtMostOnce(infos: seq<MwmInfo>, rect: Rect, scale: nat)
    ensures forall i, j :: 0 <= i < j < |DispatchOrder(infos, rect, scale)| ==>
              DispatchOrder(infos, rect, scale)[i] != DispatchOrder(infos, rect, scale)[j]
  {
    DispatchOrdered(infos, rect, scale);
  }

  /** At most one coastline unit and at most one world unit are dispatched. */
  lemma DispatchDeferredAtMostOne(infos: seq<MwmInfo>, rect: Rect, scale: nat, cat: Category)
    requires cat != Country
    ensures forall i, j ::
              (0 <= i < j < |DispatchOrder(infos, rect, scale)| &&
               UnitRank(infos, DispatchOrder(infos, rect, scale)[i]) == Rank(cat)) ==>
              UnitRank(infos, DispatchOrder(infos, rect, scale)[j]) != Rank(cat)
  {
    DispatchOrdered(infos, rect, scale);
  }
}
