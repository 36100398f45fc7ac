/** The perspective projection shared by initStar, updateStars, display and reshape. */
module Projection {
  import opened Params

  datatype Point = Point(x: real, y: real)

  /** Centre of a window of the given integer size (the ints are halved as floats). */
  function Center(width: int, height: int): Point
  {
    Point(width as real / 2.0, height as real / 2.0)
  }

  /** Pixel position of the normalised point (x, y) at depth z. */
  function Project(x: real, y: real, z: real, width: int, height: int): Point
    requires z != 0.0
  {
    var c := Center(width, height);
    var factor := PERSPECTIVE_SCALE / z;
    Point(c.x + x * factor, c.y + y * factor)
  }

  /** The offset of the image from the centre, times the depth, is the scaled lateral position. */
  lemma ProjectScales(x: real, y: real, z: real, width: int, height: int)
    requires z != 0.0
    ensures var p := Project(x, y, z, width, height); var c := Center(width, height);
      (p.x - c.x) * z == PERSPECTIVE_SCALE * x && (p.y - c.y) * z == PERSPECTIVE_SCALE * y
  {
    var f := PERSPECTIVE_SCALE / z;
    assert f * z == PERSPECTIVE_SCALE;
    assert (x * f) * z == x * (f * z);
    assert (y * f) * z == y * (f * z);
  }

  /** The lateral position a pixel position came from, for a known depth: the inverse of Project. */
  function Unproject(p: Point, z: real, width: int, height: int): (real, real)
  {
    var c := Center(width, height);
    ((p.x - c.x) * z / PERSPECTIVE_SCALE, (p.y - c.y) * z / PERSPECTIVE_SCALE)
  }

  lemma UnprojectProject(x: real, y: real, z: real, width: int, height: int)
    requires z != 0.0
    ensures Unproject(Project(x, y, z, width, height), z, width, height) == (x, y)
  {
    var c := Center(width, height);
    var p := Project(x, y, z, width, height);
    var u := Unproject(p, z, width, height);
    ProjectScales(x, y, z, width, height);
    assert (p.x - c.x) * z / PERSPECTIVE_SCALE == PERSPECTIVE_SCALE * x / PERSPECTIVE_SCALE == x;
    assert (p.y - c.y) * z / PERSPECTIVE_SCALE == PERSPECTIVE_SCALE * y / PERSPECTIVE_SCALE == y;
    assert u.0 == x;
    assert u.1 == y;
  }

  lemma ProjectUnproject(p: Point, z: real, width: int, height: int)
    requires z != 0.0
    ensures var (x, y) := Unproject(p, z, width, height); Project(x, y, z, width, height) == p
  {
    var c := Center(width, height);
    var (x, y) := Unproject(p, z, width, height);
    var q := Project(x, y, z, width, height);
    ProjectScales(x, y, z, width, height);
    assert (q.x - c.x) * z == (p.x - c.x) * z;
    assert (q.y - c.y) * z == (p.y - c.y) * z;
  }

  /** The far/near classification of display: far stars are drawn as points. */
  predicate IsFar(z: real)
  {
    z >= NEAR_THRESHOLD
  }

  /** An example: a 1280x720 window, a star at (0.2, 0.0, 0.5). */
  lemma ProjectExample()
    ensures Project(0.2, 0.0, 0.5, 1280, 720) == Point(700.0, 360.0)
  {
  }
}
