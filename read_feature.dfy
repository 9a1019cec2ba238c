/**
 * Per-unit deduplication of feature offsets (Index::ReadFeatureFunctor):
 * the functor remembers every offset it has been given and passes a
 * feature on to the caller's visitor only the first time its offset
 * arrives. Dedup is the reference definition of what reaches the visitor.
 */
module ReadFeature {
  import opened MwmTypes

  /** The caller's visitor F: it keeps the FeatureID of every feature it is handed, in order. */
  class Visitor {
    var visited: seq<FeatureID>

    constructor ()
      ensures visited == []
    {
      visited := [];
    }

    method Visit(id: FeatureID)
      modifies this
      ensures visited == old(visited) + [id]
    {
      visited := visited + [id];
    }
  }

  function Elems(s: seq<Offset>): set<Offset>
  {
    set x | x in s
  }

  /** The offsets of s that are not in seen, each at its first occurrence, in the order of s. */
  function Dedup(seen: set<Offset>, s: seq<Offset>): seq<Offset>
    decreases s
  {
    if s == [] then []
    else if s[0] in seen then Dedup(seen, s[1..])
    else [s[0]] + Dedup(seen + {s[0]}, s[1..])
  }

  /** The features of one unit at the given offsets. */
  function Tag(id: MwmId, offsets: seq<Offset>): seq<FeatureID>
  {
    seq(|offsets|, k requires 0 <= k < |offsets| => FeatureID(id, offsets[k]))
  }

  /** The index of the first occurrence of x in s. */
  function FirstIndex(s: seq<Offset>, x: Offset): (k: nat)
    requires x in s
    ensures k < |s| && s[k] == x
  {
    if s[0] == x then 0 else 1 + FirstIndex(s[1..], x)
  }

  /** No earlier position of s holds x. */
  lemma {:induction false} FirstIndexIsFirst(s: seq<Offset>, x: Offset)
    requires x in s
    ensures forall i :: 0 <= i < FirstIndex(s, x) ==> s[i] != x
  {
    if s[0] != x {
      FirstIndexIsFirst(s[1..], x);
      assert forall i :: 1 <= i < |s| ==> s[i] == s[1..][i - 1];
    }
  }

  lemma FirstIndexTail(s: seq<Offset>, x: Offset)
    requires s != [] && x in s[1..] && x != s[0]
    ensures x in s && FirstIndex(s, x) == 1 + FirstIndex(s[1..], x)
  {
    assert s == [s[0]] + s[1..];
  }

  lemma ElemsCons(s: seq<Offset>)
    requires s != []
    ensures Elems(s) == {s[0]} + Elems(s[1..])
  {
    assert forall x :: x in s <==> x == s[0] || x in s[1..];
  }

  lemma ElemsSnoc(s: seq<Offset>, x: Offset)
    ensures Elems(s + [x]) == Elems(s) + {x}
  {
  }

  lemma AppendAssoc<T>(a: seq<T>, b: seq<T>, c: seq<T>)
    ensures (a + b) + c == a + (b + c)
  {
  }

  lemma TagAppend(id: MwmId, a: seq<Offset>, b: seq<Offset>)
    ensures Tag(id, a + b) == Tag(id, a) + Tag(id, b)
  {
  }

  /** A feature of Tag(id, s) is a feature of unit id exactly when its offset is in s. */
  lemma TagMembership(id: MwmId, s: seq<Offset>)
    ensures forall k :: 0 <= k < |Tag(id, s)| ==> Tag(id, s)[k].mwmId == id
    ensures forall o :: FeatureID(id, o) in Tag(id, s) <==> o in s
  {
    forall o | o in s
      ensures FeatureID(id, o) in Tag(id, s)
    {
      var k :| 0 <= k < |s| && s[k] == o;
      assert Tag(id, s)[k] == FeatureID(id, o);
    }
  }

  /** Deduplicating a concatenation: the second part is deduplicated against everything seen in the first. */
  lemma {:induction false} DedupAppend(seen: set<Offset>, a: seq<Offset>, b: seq<Offset>)
    ensures Dedup(seen, a + b) == Dedup(seen, a) + Dedup(seen + Elems(a), b)
    decreases a
  {
    if a == [] {
      assert a + b == b;
      assert Elems(a) == {};
      assert seen + Elems(a) == seen;
    } else {
      assert (a + b)[0] == a[0];
      assert (a + b)[1..] == a[1..] + b;
      ElemsCons(a);
      if a[0] in seen {
        DedupAppend(seen, a[1..], b);
        assert seen + Elems(a[1..]) == seen + Elems(a);
      } else {
        DedupAppend(seen + {a[0]}, a[1..], b);
        assert seen + {a[0]} + Elems(a[1..]) == seen + Elems(a);
      }
    }
  }

  /** An offset survives deduplication exactly when it occurs in s and was not seen before. */
  lemma {:induction false} DedupElements(seen: set<Offset>, s: seq<Offset>)
    ensures forall x :: x in Dedup(seen, s) <==> x in s && x !in seen
    decreases s
  {
    if s != [] {
      if s[0] in seen {
        DedupElements(seen, s[1..]);
      } else {
        DedupElements(seen + {s[0]}, s[1..]);
      }
      assert forall x :: x in s <==> x == s[0] || x in s[1..];
    }
  }

  /** No offset survives deduplication twice. */
  lemma {:induction false} DedupNoDuplicates(seen: set<Offset>, s: seq<Offset>)
    ensures forall i, j :: 0 <= i < j < |Dedup(seen, s)| ==> Dedup(seen, s)[i] != Dedup(seen, s)[j]
    decreases s
  {
    if s != [] {
      if s[0] in seen {
        DedupNoDuplicates(seen, s[1..]);
      } else {
        var rest := Dedup(seen + {s[0]}, s[1..]);
        DedupNoDuplicates(seen + {s[0]}, s[1..]);
        DedupElements(seen + {s[0]}, s[1..]);
        assert s[0] !in rest;
      }
    }
  }

  /** A survivor at position k occurs in s and was not seen before. */
  lemma DedupAt(seen: set<Offset>, s: seq<Offset>, k: nat)
    requires k < |Dedup(seen, s)|
    ensures Dedup(seen, s)[k] in s && Dedup(seen, s)[k] !in seen
  {
    DedupElements(seen, s);
  }

  /** One pair of survivors: the earlier one first occurs in s before the later one. */
  lemma {:induction false} DedupOrderPair(seen: set<Offset>, s: seq<Offset>, i: nat, j: nat)
    requires i < j < |Dedup(seen, s)|
    ensures Dedup(seen, s)[i] in s && Dedup(seen, s)[j] in s
    ensures FirstIndex(s, Dedup(seen, s)[i]) < FirstIndex(s, Dedup(seen, s)[j])
    decreases s
  {
    var r := Dedup(seen, s);
    if s[0] in seen {
      DedupAt(seen, s[1..], i);
      DedupAt(seen, s[1..], j);
      FirstIndexTail(s, r[i]);
      FirstIndexTail(s, r[j]);
      DedupOrderPair(seen, s[1..], i, j);
    } else {
      var rest := Dedup(seen + {s[0]}, s[1..]);
      assert r == [s[0]] + rest;
      DedupAt(seen + {s[0]}, s[1..], j - 1);
      assert r[j] == rest[j - 1];
      FirstIndexTail(s, r[j]);
      if i == 0 {
        assert r[i] == s[0] && FirstIndex(s, r[i]) == 0;
      } else {
        DedupAt(seen + {s[0]}, s[1..], i - 1);
        assert r[i] == rest[i - 1];
        FirstIndexTail(s, r[i]);
        DedupOrderPair(seen + {s[0]}, s[1..], i - 1, j - 1);
      }
    }
  }

  /**
   * The survivors keep the order of their first occurrences in s: each
   * offset is passed on where it first appears.
   */
  lemma DedupFirstOccurrenceOrder(seen: set<Offset>, s: seq<Offset>)
    ensures forall x :: x in Dedup(seen, s) ==> x in s
    ensures forall i, j :: 0 <= i < j < |Dedup(seen, s)| ==>
              FirstIndex(s, Dedup(seen, s)[i]) < FirstIndex(s, Dedup(seen, s)[j])
  {
    DedupElements(seen, s);
    forall i, j | 0 <= i < j < |Dedup(seen, s)|
      ensures FirstIndex(s, Dedup(seen, s)[i]) < FirstIndex(s, Dedup(seen, s)[j])
    {
      DedupOrderPair(seen, s, i, j);
    }
  }

  /**
   * Index::ReadFeatureFunctor: the offsets seen so far in one unit, the
   * unit's id, and the caller's visitor it forwards first-seen features to.
   */
  class ReadFeatureFunctor {
    const mwmId: MwmId
    const sink: Visitor
    var offsets: set<Offset>

    constructor (mwmId: MwmId, sink: Visitor)
      ensures this.mwmId == mwmId && this.sink == sink && offsets == {}
    {
      this.mwmId := mwmId;
      this.sink := sink;
      offsets := {};
    }

    /** operator(): insert the offset; only if it was new, visit FeatureID(mwmId, offset). */
    method Apply(offset: Offset)
      modifies this, sink
      ensures offsets == old(offsets) + {offset}
      ensures sink.visited == old(sink.visited) +
                (if offset in old(offsets) then [] else [FeatureID(mwmId, offset)])
    {
      var inserted := offset !in offsets;
      offsets := offsets + {offset};
      if inserted {
        sink.Visit(FeatureID(mwmId, offset));
      }
    }
  }

  /**
   * ScaleIndex::ForEachInIntervalAndScale, as far as this model needs it:
   * hand every offset the index lists for the interval at the scale to the
   * functor, in the index's order.
   */
  method ForEachInIntervalAndScale(index: ScaleIndex, f: ReadFeatureFunctor, iv: Interval, scale: nat)
    modifies f, f.sink
    ensures f.offsets == old(f.offsets) + Elems(index(iv, scale))
    ensures f.sink.visited == old(f.sink.visited) + Tag(f.mwmId, Dedup(old(f.offsets), index(iv, scale)))
  {
    var offsets := index(iv, scale);
    var i := 0;
    while i < |offsets|
      invariant 0 <= i <= |offsets|
      invariant f.offsets == old(f.offsets) + Elems(offsets[..i])
      invariant f.sink.visited == old(f.sink.visited) + Tag(f.mwmId, Dedup(old(f.offsets), offsets[..i]))
    {
      ghost var done := Dedup(old(f.offsets), offsets[..i]);
      ghost var step := Dedup(old(f.offsets) + Elems(offsets[..i]), [offsets[i]]);
      assert offsets[..i + 1] == offsets[..i] + [offsets[i]];
      DedupAppend(old(f.offsets), offsets[..i], [offsets[i]]);
      TagAppend(f.mwmId, done, step);
      AppendAssoc(old(f.sink.visited), Tag(f.mwmId, done), Tag(f.mwmId, step));
      ElemsSnoc(offsets[..i], offsets[i]);
      f.Apply(offsets[i]);
      assert f.offsets == old(f.offsets) + Elems(offsets[..i]) + {offsets[i]};
      i := i + 1;
    }
    assert offsets[..|offsets|] == offsets;
  }
}
