/**
 * The mutable state of starfield95.c: the static array of stars, the tracked window
 * size and the position of rand() in its stream, with the operations that change them.
 */
module Field {
  import opened Params
  import opened Projection
  import opened Random
  import opened Stars
  import opened Render

  class Starfield {
    /** The static array stars[STAR_COUNT]. */
    const stars: array<Star>
    /** The stream rand() / RAND_MAX reads from, as seeded at start-up. */
    const draw: Stream
    /** The number of draws taken so far. */
    var cursor: nat
    /** gWidth and gHeight. */
    var width: int
    var height: int

    /** The array has STAR_COUNT stars and the draws are in [0, 1], with rejection sampling always ending. */
    ghost predicate Valid()
    {
      stars.Length == STAR_COUNT && InUnit(draw) && Fair(draw)
    }

    /** Every star is well formed; holds from initStars on. */
    ghost predicate Populated()
      reads stars
    {
      AllWellFormed(stars[..])
    }

    /** Program start: a zero-initialised array and the initial window size. */
    constructor (draw: Stream)
      requires InUnit(draw) && Fair(draw)
      ensures Valid() && fresh(stars) && this.draw == draw && cursor == 0
      ensures width == WINDOW_WIDTH && height == WINDOW_HEIGHT
      ensures forall i :: 0 <= i < stars.Length ==> stars[i] == Zero
    {
      this.draw := draw;
      stars := new Star[STAR_COUNT](_ => Zero);
      cursor := 0;
      width := WINDOW_WIDTH;
      height := WINDOW_HEIGHT;
    }

    /** randFloat: the next draw, in [0, 1]. */
    method RandFloat() returns (u: real)
      requires Valid()
      modifies this`cursor
      ensures old(cursor) in draw && u == draw[old(cursor)] && cursor == old(cursor) + 1
      ensures 0.0 <= u <= 1.0
    {
      u := draw[cursor];
      cursor := cursor + 1;
    }

    /**
     * The do ... while loop of initStar: draw (x, y) candidates in [-1, 1] until one
     * lies outside MIN_RADIUS; the first accepted candidate is returned.
     */
    method SampleLateral() returns (x: real, y: real, ghost j: nat)
      requires Valid()
      modifies this`cursor
      ensures FirstAccepted(draw, old(cursor), j) && cursor == old(cursor) + 2 + 2 * j
      ensures x == Coord(draw[old(cursor) + 2 * j]) && y == Coord(draw[old(cursor) + 2 * j + 1])
    {
      ghost var pos := cursor;
      ghost var k := Witness(draw, pos);
      j := 0;
      var u := RandFloat();
      x := 2.0 * (u - 0.5);
      u := RandFloat();
      y := 2.0 * (u - 0.5);
      var r2 := Radius2(x, y);
      while r2 < MIN_RADIUS * MIN_RADIUS
        invariant cursor == pos + 2 + 2 * j
        invariant x == Coord(draw[pos + 2 * j]) && y == Coord(draw[pos + 2 * j + 1])
        invariant r2 == Radius2(x, y)
        invariant j <= k && NoneBefore(draw, pos, j)
        decreases k - j
      {
        assert !OkAt(draw, pos, j);
        u := RandFloat();
        x := 2.0 * (u - 0.5);
        u := RandFloat();
        y := 2.0 * (u - 0.5);
        r2 := Radius2(x, y);
        j := j + 1;
      }
      assert OkAt(draw, pos, j);
    }

    /** initStar(i): re-initialise star i only. */
    method InitStar(i: nat)
      requires Valid() && i < stars.Length
      modifies stars, this`cursor
      ensures var r := Spawn(draw, old(cursor), width, height); stars[i] == r.star && cursor == r.next
      ensures forall j :: 0 <= j < stars.Length && j != i ==> stars[j] == old(stars[j])
      ensures width == old(width) && height == old(height)
    {
      ghost var pos := cursor;
      var u := RandFloat();
      var z := 0.1 + 0.9 * u;
      var x, y, j := SampleLateral();
      u := RandFloat();
      var speed := 0.002 + 0.018 * u;
      var p := Project(x, y, z, width, height);
      stars[i] := Star(x, y, z, p.x, p.y, speed);
      SpawnAt(draw, pos, j, width, height);
      assert stars[i] == Place(x, y, z, speed, width, height);
    }

    /** initStars: initialise every star, in index order. */
    method InitStars()
      requires Valid()
      modifies stars, this`cursor
      ensures Populated()
      ensures var b := SpawnPrefix(stars.Length, draw, old(cursor), width, height);
        stars[..] == b.stars && cursor == b.next
      ensures AllSynced(stars[..], width, height)
    {
      ghost var pos := cursor;
      ghost var cs := [pos];
      for i := 0 to stars.Length
        invariant |cs| == i + 1 && cs[0] == pos && cursor == cs[i]
        invariant forall j :: 0 <= j < i ==> Spawn(draw, cs[j], width, height) == Spawned(stars[j], cs[j + 1])
      {
        InitStar(i);
        cs := cs + [cursor];
      }
      assert Chain(draw, cs, stars[..], width, height);
      ChainSpawns(stars.Length, draw, cs, stars[..], width, height);
    }

    /** updateStars: one frame for every star, in index order. */
    method UpdateStars()
      requires Valid() && Populated()
      modifies stars, this`cursor
      ensures Populated()
      ensures var b := StepPrefix(old(stars[..]), stars.Length, draw, old(cursor), width, height);
        stars[..] == b.stars && cursor == b.next
    {
      ghost var start := stars[..];
      ghost var cs := [cursor];
      for i := 0 to stars.Length
        invariant |cs| == i + 1 && cs[0] == old(cursor) && cursor == cs[i]
        invariant forall j :: 0 <= j < i ==> Step(start[j], draw, cs[j], width, height) == Spawned(stars[j], cs[j + 1])
        invariant forall j :: i <= j < stars.Length ==> stars[j] == start[j]
      {
        var s := stars[i];
        var p := Project(s.x, s.y, s.z, width, height);
        stars[i] := s.(oldX := p.x, oldY := p.y);
        stars[i] := stars[i].(z := stars[i].z - stars[i].speed);
        if stars[i].z < MIN_Z {
          InitStar(i);
        }
        cs := cs + [cursor];
      }
      assert StepChain(start, draw, cs, stars[..], width, height);
      StepChainFrame(stars.Length, start, draw, cs, stars[..], width, height);
    }

    /** reshape: store the new size (a height of 0 becomes 1), then resync every star. */
    method Reshape(newWidth: int, newHeight: int)
      requires Valid() && Populated()
      modifies this`width, this`height, stars
      ensures width == newWidth && height == (if newHeight == 0 then 1 else newHeight)
      ensures forall i :: 0 <= i < stars.Length ==> stars[i] == Resync(old(stars[i]), width, height)
      ensures Populated() && cursor == old(cursor)
    {
      var h := newHeight;
      if h == 0 {
        h := 1;
      }
      width := newWidth;
      height := h;
      for i := 0 to stars.Length
        invariant width == newWidth && height == h
        invariant forall j :: 0 <= j < i ==> stars[j] == Resync(old(stars[j]), width, height)
        invariant forall j :: i <= j < stars.Length ==> stars[j] == old(stars[j])
      {
        var s := stars[i];
        var p := Project(s.x, s.y, s.z, width, height);
        stars[i] := s.(oldX := p.x, oldY := p.y);
      }
    }

    /** What display draws: far stars as points, then near stars as trails. */
    method Display() returns (points: seq<Point>, trails: seq<Trail>)
      requires Valid() && Populated()
      ensures points == FarPoints(stars[..], width, height)
      ensures trails == NearTrails(stars[..], width, height)
    {
      points := [];
      for i := 0 to stars.Length
        invariant points == FarPoints(stars[..i], width, height)
      {
        if stars[i].z >= NEAR_THRESHOLD {
          var s := stars[i];
          points := points + [Project(s.x, s.y, s.z, width, height)];
        }
        assert stars[..i + 1][..i] == stars[..i];
      }
      trails := [];
      for i := 0 to stars.Length
        invariant trails == NearTrails(stars[..i], width, height)
      {
        if stars[i].z < NEAR_THRESHOLD {
          var s := stars[i];
          var p := Project(s.x, s.y, s.z, width, height);
          trails := trails + [Trail(Point(s.oldX, s.oldY), p)];
        }
        assert stars[..i + 1][..i] == stars[..i];
      }
      assert stars[..] == stars[..stars.Length];
    }
  }
}
