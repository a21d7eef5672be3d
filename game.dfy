/**
 * Marker rules of the game (sr/robot3/game.py): which marker ids are in use
 * and how large each printed marker is.
 */
module Game {
  import opened Wrappers

  /** Python's `range(start, stop)` used as a container of marker ids. */
  datatype MarkerRange = MarkerRange(start: int, stop: int)

  predicate InRange(id: int, r: MarkerRange) {
    r.start <= id < r.stop
  }

  /** The exception `get_marker_size` raises for an id outside every range. */
  datatype UnusedMarker = UnusedMarker(markerId: int)

  /** `MARKER_SIZES`, in its insertion (iteration) order: range -> size in millimetres. */
  const MarkerSizes: seq<(MarkerRange, nat)> :=
    [(MarkerRange(0, 28), 200),    // arena boundary markers
     (MarkerRange(28, 100), 100)]  // tokens

  /** No id lies in the ranges of two different entries of a size table. */
  ghost predicate Disjoint(table: seq<(MarkerRange, nat)>) {
    forall i, j, id :: 0 <= i < j < |table| ==> !(InRange(id, table[i].0) && InRange(id, table[j].0))
  }

  /** `any(marker_id in r for r in table)`. */
  function AnyContains(table: seq<(MarkerRange, nat)>, id: int): bool {
    if table == [] then false else InRange(id, table[0].0) || AnyContains(table[1..], id)
  }

  /** The loop of `get_marker_size`: the size of the first entry whose range holds the id. */
  function Lookup(table: seq<(MarkerRange, nat)>, id: int): Option<nat> {
    if table == [] then None
    else if InRange(id, table[0].0) then Some(table[0].1)
    else Lookup(table[1..], id)
  }

  function MarkerUsedInGame(markerId: int): (used: bool)
    ensures used <==> 0 <= markerId < 100
  {
    assert MarkerSizes[1..] == [(MarkerRange(28, 100), 100)];
    assert MarkerSizes[1..][1..] == [];
    assert !AnyContains(MarkerSizes[1..][1..], markerId);
    assert AnyContains(MarkerSizes[1..], markerId) <==> 28 <= markerId < 100;
    AnyContains(MarkerSizes, markerId)
  }

  function GetMarkerSize(markerId: int): (r: Result<nat, UnusedMarker>)
    ensures 0 <= markerId < 28 ==> r == Ok(200)
    ensures 28 <= markerId < 100 ==> r == Ok(100)
    ensures !(0 <= markerId < 100) ==> r == Err(UnusedMarker(markerId))
  {
    assert MarkerSizes[1..] == [(MarkerRange(28, 100), 100)];
    assert MarkerSizes[1..][1..] == [];
    assert Lookup(MarkerSizes[1..][1..], markerId) == None;
    assert Lookup(MarkerSizes[1..], markerId) == if 28 <= markerId < 100 then Some(100) else None;
    match Lookup(MarkerSizes, markerId)
    case Some(size) => Ok(size)
    case None => Err(UnusedMarker(markerId))
  }

  /** A size is found exactly for the ids reported as used in the game. */
  lemma SizeDefinedIffUsed(markerId: int)
    ensures GetMarkerSize(markerId).Ok? <==> MarkerUsedInGame(markerId)
    ensures GetMarkerSize(markerId).Ok? ==> GetMarkerSize(markerId).value in {100, 200}
  {
  }

  /** The search finds an entry exactly when some entry's range holds the id. */
  lemma {:induction false} LookupFindsAnyContains(table: seq<(MarkerRange, nat)>, id: int)
    ensures Lookup(table, id).Some? <==> AnyContains(table, id)
  {
    if table != [] {
      LookupFindsAnyContains(table[1..], id);
    }
  }

  /** On a disjoint table the search returns the size of the one entry holding the id. */
  lemma {:induction false} LookupCharacterised(table: seq<(MarkerRange, nat)>, id: int)
    requires Disjoint(table)
    ensures Lookup(table, id).None? <==> forall k :: 0 <= k < |table| ==> !InRange(id, table[k].0)
    ensures forall k :: 0 <= k < |table| && InRange(id, table[k].0) ==> Lookup(table, id) == Some(table[k].1)
  {
    if table != [] {
      var tail := table[1..];
      assert Disjoint(tail) by {
        forall i, j, x | 0 <= i < j < |tail|
          ensures !(InRange(x, tail[i].0) && InRange(x, tail[j].0))
        {
          assert tail[i] == table[i + 1] && tail[j] == table[j + 1];
        }
      }
      LookupCharacterised(tail, id);
      forall k | 0 <= k < |table| && InRange(id, table[k].0)
        ensures Lookup(table, id) == Some(table[k].1)
      {
        if k > 0 {
          assert !InRange(id, table[0].0);
          assert tail[k - 1] == table[k];
        }
      }
      if Lookup(table, id).None? {
        forall k | 0 <= k < |table| ensures !InRange(id, table[k].0) {
          if k > 0 { assert tail[k - 1] == table[k]; }
        }
      }
    }
  }

  /**
   * Because the ranges are disjoint, the answer does not depend on the order
   * in which the dictionary is iterated: any reordering of a disjoint table
   * gives the same size.
   */
  lemma LookupOrderIndependent(t1: seq<(MarkerRange, nat)>, t2: seq<(MarkerRange, nat)>, id: int)
    requires Disjoint(t1) && Disjoint(t2)
    requires forall e :: e in t1 <==> e in t2
    ensures Lookup(t1, id) == Lookup(t2, id)
  {
    LookupCharacterised(t1, id);
    LookupCharacterised(t2, id);
    if k1 :| 0 <= k1 < |t1| && InRange(id, t1[k1].0) {
      assert t1[k1] in t2;
      var k2 :| 0 <= k2 < |t2| && t2[k2] == t1[k1];
      assert Lookup(t2, id) == Some(t2[k2].1);
    } else {
      forall k2 | 0 <= k2 < |t2| ensures !InRange(id, t2[k2].0) {
        assert t2[k2] in t1;
      }
    }
  }

  lemma MarkerSizesDisjoint()
    ensures Disjoint(MarkerSizes)
  {
  }

  /** Iterating the real size table in either order gives every marker the same size. */
  lemma MarkerSizesOrderIrrelevant(id: int)
    ensures Lookup(MarkerSizes, id) == Lookup([MarkerSizes[1], MarkerSizes[0]], id)
  {
    var swapped := [MarkerSizes[1], MarkerSizes[0]];
    MarkerSizesDisjoint();
    assert Disjoint(swapped);
    LookupOrderIndependent(MarkerSizes, swapped, id);
  }
}
