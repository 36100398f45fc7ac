/**
 * What display hands to the renderer: far stars as points (its first loop) and near
 * stars as trails from the last position to the current one (its second loop).
 */
module Render {
  import opened Projection
  import opened Stars

  datatype Trail = Trail(from: Point, to: Point)

  /** Every star may be projected. */
  predicate Projectable(s: seq<Star>)
  {
    forall i :: 0 <= i < |s| ==> s[i].z != 0.0
  }

  /** The points of display's first loop, in index order. */
  function FarPoints(s: seq<Star>, width: int, height: int): (r: seq<Point>)
    requires Projectable(s)
    ensures |r| <= |s|
    decreases |s|
  {
    if s == [] then []
    else
      var last := s[|s| - 1];
      FarPoints(s[..|s| - 1], width, height)
        + (if IsFar(last.z) then [Screen(last, width, height)] else [])
  }

  /** The trails of display's second loop, in index order. */
  function NearTrails(s: seq<Star>, width: int, height: int): (r: seq<Trail>)
    requires Projectable(s)
    ensures |r| <= |s|
    decreases |s|
  {
    if s == [] then []
    else
      var last := s[|s| - 1];
      NearTrails(s[..|s| - 1], width, height)
        + (if IsFar(last.z) then [] else [Trail(OldScreen(last), Screen(last, width, height))])
  }

  /** The number of stars display classifies as far. */
  function CountFar(s: seq<Star>): nat
    decreases |s|
  {
    if s == [] then 0 else CountFar(s[..|s| - 1]) + (if IsFar(s[|s| - 1].z) then 1 else 0)
  }

  /** Every star is drawn exactly once: as a point when far, as a trail otherwise. */
  lemma {:induction false} DrawPartition(s: seq<Star>, width: int, height: int)
    requires Projectable(s)
    ensures |FarPoints(s, width, height)| == CountFar(s)
    ensures |NearTrails(s, width, height)| == |s| - CountFar(s)
    decreases |s|
  {
    if s != [] {
      DrawPartition(s[..|s| - 1], width, height);
    }
  }

  /** Each far star's projection is among the points, and each near star's trail among the trails. */
  lemma {:induction false} DrawnOnce(s: seq<Star>, width: int, height: int)
    requires Projectable(s)
    ensures forall i :: 0 <= i < |s| && IsFar(s[i].z) ==> Screen(s[i], width, height) in FarPoints(s, width, height)
    ensures forall i :: 0 <= i < |s| && !IsFar(s[i].z) ==>
      Trail(OldScreen(s[i]), Screen(s[i], width, height)) in NearTrails(s, width, height)
    decreases |s|
  {
    if s != [] {
      var init := s[..|s| - 1];
      DrawnOnce(init, width, height);
      assert forall i :: 0 <= i < |s| - 1 ==> s[i] == init[i];
    }
  }

  /** Conversely, every point comes from a far star and every trail from a near star. */
  lemma {:induction false} DrawnFrom(s: seq<Star>, width: int, height: int)
    requires Projectable(s)
    ensures forall p :: p in FarPoints(s, width, height) ==>
      exists i :: 0 <= i < |s| && IsFar(s[i].z) && p == Screen(s[i], width, height)
    ensures forall t :: t in NearTrails(s, width, height) ==>
      exists i :: 0 <= i < |s| && !IsFar(s[i].z) && t == Trail(OldScreen(s[i]), Screen(s[i], width, height))
    decreases |s|
  {
    if s != [] {
      var init := s[..|s| - 1];
      DrawnFrom(init, width, height);
      assert forall i :: 0 <= i < |s| - 1 ==> s[i] == init[i];
    }
  }

  /** When every star is synced, as after initStars or reshape, every trail display draws is empty. */
  lemma {:induction false} NoSpuriousTrail(s: seq<Star>, width: int, height: int)
    requires Projectable(s) && AllSynced(s, width, height)
    ensures forall t :: t in NearTrails(s, width, height) ==> t.from == t.to
    decreases |s|
  {
    if s != [] {
      NoSpuriousTrail(s[..|s| - 1], width, height);
    }
  }
}
