/**
 * The SR customisation of the Zoloto camera (sr/robot3/vision/backend.py):
 * marker ids are shifted by the arena's marker offset and filtered to those
 * used in the game, and a calibration file is chosen by the first strategy
 * that recognises the camera.
 */
module Vision {
  import opened Wrappers
  import Game

  /** Python's `zip`: pairs up the two lists and drops what is beyond the shorter one. */
  function Zip<C>(rawIds: seq<int>, rawCorners: seq<C>): (pairs: seq<(int, C)>)
    ensures |pairs| == if |rawIds| <= |rawCorners| then |rawIds| else |rawCorners|
    ensures forall k :: 0 <= k < |pairs| ==> pairs[k] == (rawIds[k], rawCorners[k])
  {
    var n := if |rawIds| <= |rawCorners| then |rawIds| else |rawCorners|;
    seq(n, k requires 0 <= k < n => (rawIds[k], rawCorners[k]))
  }

  /**
   * The pairs the detection loop keeps, in arrival order: each raw id shifted
   * down by the offset, kept with its own corners, when the shifted id is used
   * in the game.
   */
  function Kept<C>(pairs: seq<(int, C)>, offset: int): seq<(int, C)>
  {
    if pairs == [] then []
    else
      var last := pairs[|pairs| - 1];
      Kept(pairs[..|pairs| - 1], offset)
      + (if Game.MarkerUsedInGame(last.0 - offset) then [(last.0 - offset, last.1)] else [])
  }

  /**
   * A pair is kept exactly when it is some input pair with its id shifted by
   * the offset and the shifted id is used in the game.
   */
  lemma {:induction false} KeptMembership<C>(pairs: seq<(int, C)>, offset: int, p: (int, C))
    ensures p in Kept(pairs, offset) <==>
      (Game.MarkerUsedInGame(p.0) && exists j :: 0 <= j < |pairs| && p == (pairs[j].0 - offset, pairs[j].1))
  {
    if pairs != [] {
      var init := pairs[..|pairs| - 1];
      KeptMembership(init, offset, p);
      if j :| 0 <= j < |init| && p == (init[j].0 - offset, init[j].1) {
        assert pairs[j] == init[j];
      }
      if j :| 0 <= j < |pairs| && p == (pairs[j].0 - offset, pairs[j].1) {
        if j < |init| { assert init[j] == pairs[j]; }
      }
    }
  }

  /** The kept pairs never outnumber the input pairs. */
  lemma {:induction false} KeptNoLonger<C>(pairs: seq<(int, C)>, offset: int)
    ensures |Kept(pairs, offset)| <= |pairs|
  {
    if pairs != [] {
      KeptNoLonger(pairs[..|pairs| - 1], offset);
    }
  }

  /** Filtering a longer prefix extends the earlier result: the order of arrival is kept. */
  lemma {:induction false} KeptPrefix<C>(pairs: seq<(int, C)>, n: nat, offset: int)
    requires n <= |pairs|
    ensures Kept(pairs[..n], offset) <= Kept(pairs, offset)
    decreases |pairs| - n
  {
    if n < |pairs| {
      KeptPrefix(pairs, n + 1, offset);
      assert pairs[..n + 1][..n] == pairs[..n];
    } else {
      assert pairs[..n] == pairs;
    }
  }

  class SRZolotoCamera {
    const cameraId: int
    /** The offset of the current arena's marker numbering; reset when metadata is reloaded. */
    var markerOffset: int

    constructor (cameraId: int, markerOffset: int)
      ensures this.cameraId == cameraId && this.markerOffset == markerOffset
    {
      this.cameraId := cameraId;
      this.markerOffset := markerOffset;
    }

    /** `_get_ids_and_corners` applied to what the underlying detector returned. */
    method GetIdsAndCorners<C>(rawIds: seq<int>, rawCorners: seq<C>) returns (ids: seq<int>, corners: seq<C>)
      ensures |ids| == |corners| == |Kept(Zip(rawIds, rawCorners), markerOffset)|
      ensures forall k :: 0 <= k < |ids| ==>
        (ids[k], corners[k]) == Kept(Zip(rawIds, rawCorners), markerOffset)[k]
    {
      var pairs := Zip(rawIds, rawCorners);
      ids, corners := [], [];
      var i := 0;
      while i < |pairs|
        invariant 0 <= i <= |pairs|
        invariant |ids| == |corners| == |Kept(pairs[..i], markerOffset)|
        invariant forall k :: 0 <= k < |ids| ==> (ids[k], corners[k]) == Kept(pairs[..i], markerOffset)[k]
      {
        var (rawId, rawCorner) := pairs[i];
        var offsetId := rawId - markerOffset;
        assert pairs[..i + 1][..i] == pairs[..i];
        if Game.MarkerUsedInGame(offsetId) {
          ids := ids + [offsetId];
          corners := corners + [rawCorner];
        }
        i := i + 1;
      }
      assert pairs[..i] == pairs;
    }

    /** Marker sizes are those of the game rules; the offset plays no part. */
    function GetMarkerSize(markerId: int): (r: Result<nat, Game.UnusedMarker>)
      ensures r == Game.GetMarkerSize(markerId)
      ensures r.Ok? <==> Game.MarkerUsedInGame(markerId)
    {
      Game.GetMarkerSize(markerId)
    }
  }

  /** Every id the camera reports is in the game and is some raw id minus the offset, with that id's corners. */
  lemma ReportedIdsSound<C>(rawIds: seq<int>, rawCorners: seq<C>, offset: int, k: nat)
    requires k < |Kept(Zip(rawIds, rawCorners), offset)|
    ensures var p := Kept(Zip(rawIds, rawCorners), offset)[k];
      Game.MarkerUsedInGame(p.0)
      && exists j :: 0 <= j < |rawIds| && j < |rawCorners| && p.0 == rawIds[j] - offset && p.1 == rawCorners[j]
  {
    var pairs := Zip(rawIds, rawCorners);
    var p := Kept(pairs, offset)[k];
    KeptMembership(pairs, offset, p);
    assert p in Kept(pairs, offset);
    var j :| 0 <= j < |pairs| && p == (pairs[j].0 - offset, pairs[j].1);
    assert p.0 == rawIds[j] - offset && p.1 == rawCorners[j];
  }

  /**
   * The path of a named calibration: `calibrations/<name>.xml` beside the
   * module. The name can be read back from the path. The path is the plain,
   * unnormalised string: `pathlib` would collapse `//` and `.` segments, which
   * the fixed camera names never contain.
   */
  function CalibrationPath(moduleDir: string, name: string): (path: string)
    ensures |path| == |moduleDir| + 14 + |name| + 4
    ensures path[..|moduleDir|] == moduleDir
    ensures path[|moduleDir|..|moduleDir| + 14] == "/calibrations/"
    ensures path[|moduleDir| + 14..|path| - 4] == name
    ensures path[|path| - 4..] == ".xml"
  {
    moduleDir + "/calibrations/" + name + ".xml"
  }

  /** Two calibrations beside the same module have the same path only if they have the same name. */
  lemma CalibrationPathInjective(moduleDir: string, name1: string, name2: string)
    ensures CalibrationPath(moduleDir, name1) == CalibrationPath(moduleDir, name2) ==> name1 == name2
  {
    var p1, p2 := CalibrationPath(moduleDir, name1), CalibrationPath(moduleDir, name2);
    if p1 == p2 {
      assert name1 == p1[|moduleDir| + 14..|p1| - 4];
    }
  }

  /**
   * `get_calibration_file` over the answers the strategies of `STRATEGIES` give,
   * in list order. `consulted` is how many strategies were asked: no strategy
   * after the first that names a calibration is asked at all.
   */
  method GetCalibrationFile(moduleDir: string, answers: seq<Option<string>>)
    returns (path: Option<string>, consulted: nat)
    ensures consulted <= |answers|
    ensures forall j :: 0 <= j < consulted - 1 ==> answers[j].None?
    ensures path.None? <==> forall j :: 0 <= j < |answers| ==> answers[j].None?
    ensures path.None? ==> consulted == |answers|
    ensures path.Some? ==>
      && 0 < consulted && answers[consulted - 1].Some?
      && path == Some(CalibrationPath(moduleDir, answers[consulted - 1].value))
  {
    var i := 0;
    while i < |answers|
      invariant 0 <= i <= |answers|
      invariant forall j :: 0 <= j < i ==> answers[j].None?
    {
      var filename := answers[i];
      if filename.Some? {
        return Some(CalibrationPath(moduleDir, filename.value)), i + 1;
      }
      i := i + 1;
    }
    return None, i;
  }
}
