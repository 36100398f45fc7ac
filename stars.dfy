/**
 * One star and the value-level meaning of the operations on it: the star factory
 * (initStar), one frame of motion (the body of updateStars), the resize resync
 * (the loop body of reshape) and their repetition over the pool in index order.
 */
module Stars {
  import opened Params
  import opened Projection
  import opened Random

  /** A star: normalised position, last frame's screen position, depth decrement. */
  datatype Star = Star(x: real, y: real, z: real, oldX: real, oldY: real, speed: real)

  /** A star of the zero-initialised static array, before initStars runs. */
  const Zero := Star(0.0, 0.0, 0.0, 0.0, 0.0, 0.0)

  /** Depth drawn by initStar: 0.1 + 0.9 * u. */
  function Depth(u: real): real
  {
    0.1 + 0.9 * u
  }

  /** Speed drawn by initStar: 0.002 + 0.018 * u. */
  function Speed(u: real): real
  {
    0.002 + 0.018 * u
  }

  /** What every star in the pool satisfies once initStars has run. */
  predicate WellFormed(s: Star)
  {
    && -1.0 <= s.x <= 1.0 && -1.0 <= s.y <= 1.0
    && Accepts(s.x, s.y)
    && MIN_Z <= s.z <= 1.0
    && 0.002 <= s.speed <= 0.02
  }

  /** Where the star is drawn now. */
  function Screen(s: Star, width: int, height: int): Point
    requires s.z != 0.0
  {
    Project(s.x, s.y, s.z, width, height)
  }

  /** Where the star was drawn last frame. */
  function OldScreen(s: Star): Point
  {
    Point(s.oldX, s.oldY)
  }

  /** The recorded last position is the current one: the trail has zero length. */
  predicate Synced(s: Star, width: int, height: int)
  {
    s.z != 0.0 && OldScreen(s) == Screen(s, width, height)
  }

  /** A star together with the stream position after the draws that made it. */
  datatype Spawned = Spawned(star: Star, next: nat)

  /**
   * initStar: one draw for the depth, candidate pairs until one is accepted,
   * one draw for the speed; the last position is set to the current projection.
   */
  ghost function Spawn(draw: Stream, pos: nat, width: int, height: int): Spawned
    requires InUnit(draw) && HasFit(draw, pos + 1)
  {
    var j := Rejections(draw, pos + 1, Witness(draw, pos + 1));
    var c := pos + 1 + 2 * j;
    Spawned(Place(Coord(draw[c]), Coord(draw[c + 1]), Depth(draw[pos]), Speed(draw[c + 2]), width, height), c + 3)
  }

  /** The star initStar stores: its last position is its current projection. */
  function Place(x: real, y: real, z: real, speed: real, width: int, height: int): (r: Star)
    requires z != 0.0
    ensures Synced(r, width, height)
  {
    var p := Project(x, y, z, width, height);
    Star(x, y, z, p.x, p.y, speed)
  }

  /** Spawn in terms of the index j of the first accepted candidate. */
  lemma SpawnAt(draw: Stream, pos: nat, j: nat, width: int, height: int)
    requires InUnit(draw) && FirstAccepted(draw, pos + 1, j)
    ensures HasFit(draw, pos + 1)
    ensures Spawn(draw, pos, width, height)
         == Spawned(Place(Coord(draw[pos + 1 + 2 * j]), Coord(draw[pos + 2 + 2 * j]), Depth(draw[pos]),
                          Speed(draw[pos + 3 + 2 * j]), width, height),
                    pos + 4 + 2 * j)
  {
    assert HasFit(draw, pos + 1);
    RejectionsIsFirst(draw, pos + 1, Witness(draw, pos + 1), j);
  }

  /**
   * A spawned star is well formed, with depth in [0.1, 1.0] and speed in [0.002, 0.02]
   * (closed: a draw may be 1), lies outside MIN_RADIUS, and starts with a zero-length trail.
   * Its (x, y) is the first accepted candidate and the speed is drawn after it.
   */
  lemma SpawnSpec(draw: Stream, pos: nat, width: int, height: int)
    requires InUnit(draw) && HasFit(draw, pos + 1)
    ensures var r := Spawn(draw, pos, width, height);
      && WellFormed(r.star) && Synced(r.star, width, height)
      && 0.1 <= r.star.z <= 1.0 && 0.002 <= r.star.speed <= 0.02
      && Accepts(r.star.x, r.star.y)
    ensures var r := Spawn(draw, pos, width, height);
      exists j: nat :: FirstAccepted(draw, pos + 1, j) && r.next == pos + 4 + 2 * j
        && r.star.x == Coord(draw[pos + 1 + 2 * j]) && r.star.y == Coord(draw[pos + 2 + 2 * j])
  {
    var j := Rejections(draw, pos + 1, Witness(draw, pos + 1));
    RejectionsFirst(draw, pos + 1, Witness(draw, pos + 1));
    var c := pos + 1 + 2 * j;
    assert CandidateOk(draw, c);
  }

  /** The resync of reshape: record the current projection as the last position. */
  function Resync(s: Star, width: int, height: int): (r: Star)
    requires s.z != 0.0
    ensures Synced(r, width, height)
    ensures r.x == s.x && r.y == s.y && r.z == s.z && r.speed == s.speed
  {
    var p := Screen(s, width, height);
    s.(oldX := p.x, oldY := p.y)
  }

  /** Steps 1 and 2 of updateStars: record the projection, then move closer by speed. */
  function Advance(s: Star, width: int, height: int): Star
    requires s.z != 0.0
  {
    var r := Resync(s, width, height);
    r.(z := r.z - r.speed)
  }

  /** One frame for one star: advance it, and respawn it if it came closer than MIN_Z. */
  ghost function Step(s: Star, draw: Stream, pos: nat, width: int, height: int): Spawned
    requires InUnit(draw) && Fair(draw) && s.z != 0.0
  {
    var moved := Advance(s, width, height);
    if moved.z < MIN_Z then Spawn(draw, pos, width, height) else Spawned(moved, pos)
  }

  /**
   * The two cases of one frame. Normal: z drops by speed, x, y and speed are kept, no draw
   * is taken, and the last position is the projection before the move. Respawn: the star is
   * wholly re-initialised rather than left at the decremented depth. Either way a well
   * formed star stays well formed.
   */
  lemma StepSpec(s: Star, draw: Stream, pos: nat, width: int, height: int)
    requires InUnit(draw) && Fair(draw) && WellFormed(s)
    ensures var r := Step(s, draw, pos, width, height);
      s.z - s.speed >= MIN_Z ==>
        && r.next == pos
        && r.star.x == s.x && r.star.y == s.y && r.star.speed == s.speed
        && r.star.z == s.z - s.speed < s.z
        && OldScreen(r.star) == Screen(s, width, height)
    ensures var r := Step(s, draw, pos, width, height);
      s.z - s.speed < MIN_Z ==>
        && r == Spawn(draw, pos, width, height)
        && 0.1 <= r.star.z <= 1.0
        && Synced(r.star, width, height)
        && pos + 4 <= r.next
    ensures WellFormed(Step(s, draw, pos, width, height).star)
  {
    if s.z - s.speed < MIN_Z {
      SpawnSpec(draw, pos, width, height);
    }
  }

  /** Every star in s is well formed. */
  predicate AllWellFormed(s: seq<Star>)
  {
    forall i :: 0 <= i < |s| ==> WellFormed(s[i])
  }

  /** Every star in s has a zero-length trail at the given window size. */
  predicate AllSynced(s: seq<Star>, width: int, height: int)
  {
    forall i :: 0 <= i < |s| ==> Synced(s[i], width, height)
  }

  /** A sequence of stars together with the stream position after making it. */
  datatype Batch = Batch(stars: seq<Star>, next: nat)

  /** initStars, after its first n iterations: n stars spawned one after another. */
  ghost function SpawnPrefix(n: nat, draw: Stream, pos: nat, width: int, height: int): (r: Batch)
    requires InUnit(draw) && Fair(draw)
    ensures |r.stars| == n
    decreases n
  {
    if n == 0 then
      Batch([], pos)
    else
      var before := SpawnPrefix(n - 1, draw, pos, width, height);
      var r := Spawn(draw, before.next, width, height);
      Batch(before.stars + [r.star], r.next)
  }

  /**
   * The stars in s were spawned one after the other: star j used the draws from
   * position cs[j] up to cs[j + 1].
   */
  ghost predicate Chain(draw: Stream, cs: seq<nat>, s: seq<Star>, width: int, height: int)
  {
    && InUnit(draw) && Fair(draw) && |cs| == |s| + 1
    && forall j :: 0 <= j < |s| ==> Spawn(draw, cs[j], width, height) == Spawned(s[j], cs[j + 1])
  }

  /** A chain of n spawns from position cs[0] is the batch of the first n spawns. */
  lemma {:induction false} ChainIsPrefix(n: nat, draw: Stream, cs: seq<nat>, s: seq<Star>, width: int, height: int)
    requires Chain(draw, cs, s, width, height) && |s| == n
    ensures SpawnPrefix(n, draw, cs[0], width, height) == Batch(s, cs[n])
    decreases n
  {
    if n > 0 {
      assert Chain(draw, cs[..n], s[..n - 1], width, height);
      ChainIsPrefix(n - 1, draw, cs[..n], s[..n - 1], width, height);
      assert s == s[..n - 1] + [s[n - 1]];
    }
  }

  /** What initStars leaves behind: the first n spawns, all well formed and with zero-length trails. */
  lemma ChainSpawns(n: nat, draw: Stream, cs: seq<nat>, s: seq<Star>, width: int, height: int)
    requires Chain(draw, cs, s, width, height) && |s| == n
    ensures SpawnPrefix(n, draw, cs[0], width, height) == Batch(s, cs[n])
    ensures AllWellFormed(s) && AllSynced(s, width, height)
  {
    ChainIsPrefix(n, draw, cs, s, width, height);
    SpawnPrefixSpec(n, draw, cs[0], width, height);
  }

  /** n spawned stars: all well formed, all with a zero-length trail, at least four draws each. */
  lemma {:induction false} SpawnPrefixSpec(n: nat, draw: Stream, pos: nat, width: int, height: int)
    requires InUnit(draw) && Fair(draw)
    ensures var b := SpawnPrefix(n, draw, pos, width, height);
      && pos + 4 * n <= b.next
      && AllWellFormed(b.stars)
      && AllSynced(b.stars, width, height)
    decreases n
  {
    if n > 0 {
      var b := SpawnPrefix(n, draw, pos, width, height);
      var before := SpawnPrefix(n - 1, draw, pos, width, height);
      var r := Spawn(draw, before.next, width, height);
      assert b.stars == before.stars + [r.star];
      SpawnPrefixSpec(n - 1, draw, pos, width, height);
      SpawnSpec(draw, before.next, width, height);
      forall i | 0 <= i < n
        ensures WellFormed(b.stars[i]) && Synced(b.stars[i], width, height)
      {
        if i < n - 1 {
          assert b.stars[i] == before.stars[i];
        } else {
          assert b.stars[i] == r.star;
        }
      }
    }
  }

  /** updateStars, after its first n iterations over the pool s. */
  ghost function StepPrefix(s: seq<Star>, n: nat, draw: Stream, pos: nat, width: int, height: int): (r: Batch)
    requires n <= |s| && AllWellFormed(s)
    requires InUnit(draw) && Fair(draw)
    ensures |r.stars| == n
    decreases n
  {
    if n == 0 then
      Batch([], pos)
    else
      var before := StepPrefix(s, n - 1, draw, pos, width, height);
      var r := Step(s[n - 1], draw, before.next, width, height);
      Batch(before.stars + [r.star], r.next)
  }

  /**
   * The first |t| stars of s were stepped one after the other: star j used the draws
   * from position cs[j] up to cs[j + 1] and became t[j].
   */
  ghost predicate StepChain(s: seq<Star>, draw: Stream, cs: seq<nat>, t: seq<Star>, width: int, height: int)
  {
    && InUnit(draw) && Fair(draw) && AllWellFormed(s) && |t| <= |s| && |cs| == |t| + 1
    && forall j :: 0 <= j < |t| ==> Step(s[j], draw, cs[j], width, height) == Spawned(t[j], cs[j + 1])
  }

  /** A chain of n steps from position cs[0] is the first n steps of the frame. */
  lemma {:induction false} StepChainIsPrefix(n: nat, s: seq<Star>, draw: Stream, cs: seq<nat>, t: seq<Star>, width: int, height: int)
    requires StepChain(s, draw, cs, t, width, height) && |t| == n
    ensures StepPrefix(s, n, draw, cs[0], width, height) == Batch(t, cs[n])
    decreases n
  {
    if n > 0 {
      assert StepChain(s, draw, cs[..n], t[..n - 1], width, height);
      StepChainIsPrefix(n - 1, s, draw, cs[..n], t[..n - 1], width, height);
      assert t == t[..n - 1] + [t[n - 1]];
    }
  }

  /** What updateStars leaves behind: the frame of the whole pool, all well formed. */
  lemma StepChainFrame(n: nat, s: seq<Star>, draw: Stream, cs: seq<nat>, t: seq<Star>, width: int, height: int)
    requires StepChain(s, draw, cs, t, width, height) && |t| == n
    ensures StepPrefix(s, n, draw, cs[0], width, height) == Batch(t, cs[n])
    ensures AllWellFormed(t)
  {
    StepChainIsPrefix(n, s, draw, cs, t, width, height);
    StepPrefixSpec(s, n, draw, cs[0], width, height);
  }

  /** A frame keeps the pool size and keeps every star well formed; draws are only consumed. */
  lemma {:induction false} StepPrefixSpec(s: seq<Star>, n: nat, draw: Stream, pos: nat, width: int, height: int)
    requires n <= |s| && AllWellFormed(s)
    requires InUnit(draw) && Fair(draw)
    ensures var b := StepPrefix(s, n, draw, pos, width, height);
      pos <= b.next && AllWellFormed(b.stars)
    decreases n
  {
    if n > 0 {
      var b := StepPrefix(s, n, draw, pos, width, height);
      var before := StepPrefix(s, n - 1, draw, pos, width, height);
      var r := Step(s[n - 1], draw, before.next, width, height);
      assert b.stars == before.stars + [r.star];
      StepPrefixSpec(s, n - 1, draw, pos, width, height);
      StepSpec(s[n - 1], draw, before.next, width, height);
      forall i | 0 <= i < n
        ensures WellFormed(b.stars[i])
      {
        if i < n - 1 {
          assert b.stars[i] == before.stars[i];
        }
      }
    }
  }

  /** Star i of the frame is the one-star step of star i, at the stream position its predecessors left. */
  lemma {:induction false} StepPrefixAt(s: seq<Star>, n: nat, i: nat, draw: Stream, pos: nat, width: int, height: int)
    requires i < n <= |s| && AllWellFormed(s)
    requires InUnit(draw) && Fair(draw)
    ensures StepPrefix(s, n, draw, pos, width, height).stars[i]
         == Step(s[i], draw, StepPrefix(s, i, draw, pos, width, height).next, width, height).star
    decreases n
  {
    var before := StepPrefix(s, n - 1, draw, pos, width, height);
    var last := Step(s[n - 1], draw, before.next, width, height);
    assert StepPrefix(s, n, draw, pos, width, height).stars == before.stars + [last.star];
    if i < n - 1 {
      StepPrefixAt(s, n - 1, i, draw, pos, width, height);
      assert (before.stars + [last.star])[i] == before.stars[i];
    }
  }

  /** A frame in which no star crosses MIN_Z consumes no draws and only advances every star. */
  lemma {:induction false} QuietFrame(s: seq<Star>, n: nat, draw: Stream, pos: nat, width: int, height: int)
    requires n <= |s| && AllWellFormed(s)
    requires InUnit(draw) && Fair(draw)
    requires forall i :: 0 <= i < n ==> s[i].z - s[i].speed >= MIN_Z
    ensures StepPrefix(s, n, draw, pos, width, height).next == pos
    ensures forall i :: 0 <= i < n ==> StepPrefix(s, n, draw, pos, width, height).stars[i] == Advance(s[i], width, height)
    decreases n
  {
    if n > 0 {
      QuietFrame(s, n - 1, draw, pos, width, height);
    }
  }

  /** Resync forgets the previous window size: it depends only on position, depth and speed. */
  lemma ResyncForgetsOldSize(s1: Star, s2: Star, width: int, height: int)
    requires s1.z != 0.0
    requires s1.x == s2.x && s1.y == s2.y && s1.z == s2.z && s1.speed == s2.speed
    ensures Resync(s1, width, height) == Resync(s2, width, height)
  {
  }

  /** Motion toward the viewer pushes a star's image away from the window centre. */
  lemma AdvanceMovesOutward(s: Star, width: int, height: int)
    requires 0.0 <= s.speed && s.z - s.speed >= MIN_Z
    ensures var r := Advance(s, width, height); var c := Center(width, height);
      && Abs(Screen(r, width, height).x - c.x) >= Abs(OldScreen(r).x - c.x)
      && Abs(Screen(r, width, height).y - c.y) >= Abs(OldScreen(r).y - c.y)
  {
    var r := Advance(s, width, height);
    var c := Center(width, height);
    FartherOut(s.x, c.x, s.z, r.z);
    FartherOut(s.y, c.y, s.z, r.z);
  }

  function Abs(a: real): real
  {
    if a < 0.0 then -a else a
  }

  /** An image at offset a * (S / z) from the centre cc moves outward as z drops from far to near. */
  lemma FartherOut(a: real, cc: real, far: real, near: real)
    requires 0.0 < near <= far
    ensures Abs(cc + a * (PERSPECTIVE_SCALE / near) - cc) >= Abs(cc + a * (PERSPECTIVE_SCALE / far) - cc)
  {
    var fn, ff := PERSPECTIVE_SCALE / near, PERSPECTIVE_SCALE / far;
    assert cc + a * fn - cc == a * fn && cc + a * ff - cc == a * ff;
    assert fn * near == PERSPECTIVE_SCALE && ff * far == PERSPECTIVE_SCALE;
    assert ff * near <= ff * far;
    assert fn >= ff > 0.0;
    if a >= 0.0 {
      assert a * fn >= a * ff;
    } else {
      assert (-a) * fn >= (-a) * ff;
    }
  }

  /** A placed star's image lies at least MIN_RADIUS * PERSPECTIVE_SCALE = 15 pixels from the centre. */
  lemma ClearOfCenter(s: Star, width: int, height: int)
    requires WellFormed(s)
    ensures var p := Screen(s, width, height); var c := Center(width, height);
      (p.x - c.x) * (p.x - c.x) + (p.y - c.y) * (p.y - c.y) >= 225.0
  {
    var f := PERSPECTIVE_SCALE / s.z;
    assert f * s.z == PERSPECTIVE_SCALE;
    assert f >= PERSPECTIVE_SCALE by {
      assert f - PERSPECTIVE_SCALE == PERSPECTIVE_SCALE * (1.0 - s.z) / s.z;
    }
    var p := Screen(s, width, height);
    var c := Center(width, height);
    assert p.x - c.x == s.x * f && p.y - c.y == s.y * f;
    var r2 := s.x * s.x + s.y * s.y;
    assert (s.x * f) * (s.x * f) + (s.y * f) * (s.y * f) == r2 * (f * f);
    assert f * f >= 22500.0 by {
      assert f * f >= PERSPECTIVE_SCALE * f >= PERSPECTIVE_SCALE * PERSPECTIVE_SCALE;
    }
    assert r2 >= 0.01;
    assert r2 * (f * f) >= 0.01 * (f * f) >= 225.0;
  }
}
