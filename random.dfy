/**
 * The random source of starfield95.c. Each call of randFloat takes the next value of a
 * stream of draws in [0, 1]; the stream is an oracle, and a position in it is a `nat`.
 * The rejection loop of initStar reads (x, y) candidates as consecutive pairs of draws.
 */
module Random {
  import opened Params

  /** The stream of draws: the n-th value rand() / RAND_MAX returns. */
  type Stream = imap<nat, real>

  /** The stream never ends, and every draw lies in [0, 1], both ends included. */
  ghost predicate InUnit(draw: Stream)
  {
    forall n: nat :: n in draw && 0.0 <= draw[n] <= 1.0
  }

  /** Maps a draw in [0, 1] to a lateral coordinate in [-1, 1]. */
  function Coord(u: real): real
  {
    2.0 * (u - 0.5)
  }

  /** Squared lateral distance from the axis, r2 in initStar. */
  function Radius2(x: real, y: real): real
  {
    x * x + y * y
  }

  /** The loop exit test of initStar: the candidate lies outside MIN_RADIUS. */
  predicate Accepts(x: real, y: real)
  {
    Radius2(x, y) >= MIN_RADIUS * MIN_RADIUS
  }

  /** The candidate read from draws p and p + 1 is accepted. */
  predicate CandidateOk(draw: Stream, p: nat)
  {
    p in draw && p + 1 in draw && Accepts(Coord(draw[p]), Coord(draw[p + 1]))
  }

  /** The k-th candidate pair starting at position p is accepted. */
  predicate OkAt(draw: Stream, p: nat, k: nat)
  {
    CandidateOk(draw, p + 2 * k)
  }

  /** Some candidate pair from position p on is accepted. */
  ghost predicate HasFit(draw: Stream, p: nat)
  {
    exists k: nat :: OkAt(draw, p, k)
  }

  /** From every position, rejection sampling eventually stops. */
  ghost predicate Fair(draw: Stream)
  {
    forall p: nat :: HasFit(draw, p)
  }

  /** A bound on the number of rejected candidates from position p. */
  ghost function Witness(draw: Stream, p: nat): (k: nat)
    requires HasFit(draw, p)
    ensures OkAt(draw, p, k)
  {
    var k: nat :| OkAt(draw, p, k);
    k
  }

  /** None of the first j candidate pairs from position p is accepted. */
  predicate NoneBefore(draw: Stream, p: nat, j: nat)
  {
    forall t :: 0 <= t < j ==> !OkAt(draw, p, t)
  }

  /** The j-th candidate pair from position p is the first accepted one. */
  predicate FirstAccepted(draw: Stream, p: nat, j: nat)
  {
    OkAt(draw, p, j) && NoneBefore(draw, p, j)
  }

  /**
   * The number of candidates rejection sampling discards from position p;
   * k is any index of an accepted candidate and only bounds the search.
   */
  function Rejections(draw: Stream, p: nat, ghost k: nat): (j: nat)
    requires OkAt(draw, p, k)
    ensures j <= k
    decreases k
  {
    if CandidateOk(draw, p) then
      0
    else
      assert OkAt(draw, p + 2, k - 1);
      1 + Rejections(draw, p + 2, k - 1)
  }

  /** Rejection sampling stops at the first accepted candidate. */
  lemma {:induction false} RejectionsFirst(draw: Stream, p: nat, k: nat)
    requires OkAt(draw, p, k)
    ensures FirstAccepted(draw, p, Rejections(draw, p, k))
    decreases k
  {
    if !CandidateOk(draw, p) {
      assert OkAt(draw, p + 2, k - 1);
      RejectionsFirst(draw, p + 2, k - 1);
      var j := Rejections(draw, p + 2, k - 1);
      assert forall t :: 1 <= t <= j ==> OkAt(draw, p, t) == OkAt(draw, p + 2, t - 1);
    }
  }

  /** Rejection sampling stops at the first accepted candidate, whatever bound is used. */
  lemma RejectionsIsFirst(draw: Stream, p: nat, k: nat, j: nat)
    requires OkAt(draw, p, k) && FirstAccepted(draw, p, j)
    ensures Rejections(draw, p, k) == j
  {
    RejectionsFirst(draw, p, k);
  }
}
