/**
 * The ring of trait values shared by both simulations: the integers 1..100,
 * where 100 and 1 are neighbours. Holds the normalisation formulas, the ring
 * distance with its direction flag, and the movement of a point along the ring.
 */
module Ring {

  /** A trait value or an environment: a point of the 100-point ring. */
  predicate OnRing(x: int) {
    1 <= x <= 100
  }

  predicate AllOnRing(s: seq<int>) {
    forall i :: 0 <= i < |s| ==> OnRing(s[i])
  }

  function Abs(x: int): int {
    if x < 0 then -x else x
  }

  function Min(a: int, b: int): int {
    if a < b then a else b
  }

  /**
   * The normalisation every child and every directed environment move goes
   * through: `((r - 1) % 100) + 1`. It picks the one ring point congruent to
   * `r` modulo 100 and leaves ring points alone.
   */
  function Wrap(r: int): (c: int)
    ensures OnRing(c)
    ensures c % 100 == r % 100
    ensures OnRing(r) ==> c == r
  {
    ((r - 1) % 100) + 1
  }

  /** No other ring point is congruent to `r`: Wrap is the only sensible normalisation. */
  lemma WrapUnique(r: int, c: int)
    requires OnRing(c) && c % 100 == r % 100
    ensures c == Wrap(r)
  {
  }

  /**
   * The normalisation of the random environment branch: `(r % 100) + 1`,
   * without the `- 1` offset that Wrap has. It equals Wrap of the next integer.
   */
  function WrapShifted(r: int): (c: int)
    ensures OnRing(c)
    ensures c == Wrap(r + 1)
  {
    (r % 100) + 1
  }

  /** A random-branch draw that equals the old environment moves it one step right, 100 going to 1. */
  lemma WrapShiftedAdvances(e: int)
    requires OnRing(e)
    ensures WrapShifted(e) == if e == 100 then 1 else e + 1
  {
  }

  /**
   * The random environment move as written is not centred on the old value:
   * a draw `k` places right of it lands `k + 1` places right, a draw `k`
   * places left lands only `k - 1` places left, and the two are never mirror
   * images of each other.
   */
  lemma WrapShiftedSkewed(e: int, k: int)
    requires OnRing(e)
    ensures (WrapShifted(e + k) - e) % 100 == (k + 1) % 100
    ensures (e - WrapShifted(e - k)) % 100 == (k - 1) % 100
    ensures (WrapShifted(e + k) - e) % 100 != (e - WrapShifted(e - k)) % 100
  {
    ResiduesFromCongruent(WrapShifted(e + k), e + k + 1, e);
    ResiduesFromCongruent(WrapShifted(e - k), e - k + 1, e);
    assert e - (e - k + 1) == k - 1;
    var r := (k - 1) % 100;
    var q := (k - 1) / 100;
    assert k + 1 == (r + 2) + 100 * q;
    ShiftByHundreds(r + 2, q);
  }

  /** One place either side of 50: the draw 51 moves the environment to 52, the draw 49 leaves it at 50. */
  lemma WrapShiftedSkewedExample()
    ensures WrapShifted(50 + 1) == 52 && WrapShifted(50 - 1) == 50
  {
  }

  /**
   * Normalising the random move with Wrap instead centres it: a draw equal to
   * the old value keeps it, draws `k` places either side land `k` places
   * either side, and both lie at the same ring distance from it.
   */
  lemma WrapCentred(e: int, k: int)
    requires OnRing(e)
    ensures Wrap(e) == e
    ensures (Wrap(e + k) - e) % 100 == k % 100
    ensures (e - Wrap(e - k)) % 100 == k % 100
    ensures Distance(e, Wrap(e + k)).magnitude == Distance(e, Wrap(e - k)).magnitude
  {
    ResiduesFromCongruent(Wrap(e + k), e + k, e);
    ResiduesFromCongruent(Wrap(e - k), e - k, e);
    assert e - (e + k) == -k;
    assert e - (e - k) == k;
  }

  /** The two ways around the ring from a centre to an offset. */
  datatype Walks = Walks(leftward: int, rightward: int)

  /**
   * The two candidate walks the distance computation compares: going down
   * (`leftward`) or up (`rightward`) from `center` until `offset` is reached.
   */
  function WalksBetween(center: int, offset: int): (w: Walks)
    requires OnRing(center) && OnRing(offset)
    ensures w.leftward + w.rightward == 100
    ensures w.leftward == (center - offset) % 100
    ensures w.rightward == Wrap(offset - center)
  {
    if offset > center then
      Walks((100 - offset) + center, offset - center)
    else
      Walks(center - offset, (100 - center) + offset)
  }

  /** The distance result: the length of the shorter walk and whether it goes up the ring. */
  datatype Pull = Pull(magnitude: int, rightward: bool)

  /** The pull as a signed step: positive for rightward, negative for leftward. */
  function Signed(p: Pull): int {
    if p.rightward then p.magnitude else -p.magnitude
  }

  /**
   * Ring distance from `center` to `offset`. The magnitude is the shorter of
   * the two walks; the direction is rightward when that walk goes up the ring,
   * ties (both walks 50) resolving to rightward and a zero distance reporting
   * leftward. Taking the signed step from `center` lands on `offset`.
   */
  function Distance(center: int, offset: int): (p: Pull)
    requires OnRing(center) && OnRing(offset)
    ensures 0 <= p.magnitude <= 50
    ensures p.magnitude == Min((offset - center) % 100, (center - offset) % 100)
    ensures p.rightward <==> 1 <= (offset - center) % 100 <= 50
    ensures Wrap(center + Signed(p)) == offset
  {
    var w := WalksBetween(center, offset);
    if w.leftward < w.rightward then Pull(w.leftward, false) else Pull(w.rightward, true)
  }

  /** The magnitude is the shorter arc: min(|offset - center|, 100 - |offset - center|). */
  lemma DistanceIsShorterArc(center: int, offset: int)
    requires OnRing(center) && OnRing(offset)
    ensures Distance(center, offset).magnitude == Min(Abs(offset - center), 100 - Abs(offset - center))
  {
  }

  /** Tie-break policy: a point is at distance 0 leftward from itself, and opposite points are 50 rightward. */
  lemma TieBreak(center: int, offset: int)
    requires OnRing(center) && OnRing(offset)
    ensures center == offset ==> Distance(center, offset) == Pull(0, false)
    ensures (offset - center) % 100 == 50 <==> Distance(center, offset) == Pull(50, true)
  {
  }

  /** The magnitude does not depend on which point is the centre. */
  lemma DistanceSymmetric(a: int, b: int)
    requires OnRing(a) && OnRing(b)
    ensures Distance(a, b).magnitude == Distance(b, a).magnitude
  {
  }

  /** Away from the two tie cases, swapping the points flips the direction. */
  lemma DirectionAntisymmetric(a: int, b: int)
    requires OnRing(a) && OnRing(b)
    requires 0 < Distance(a, b).magnitude < 50
    ensures Distance(b, a).rightward == !Distance(a, b).rightward
  {
  }

  /** Moving a point `d` places up (`rightward`) or down the ring. */
  function Step(c: int, d: int, rightward: bool): (e: int)
    ensures OnRing(e)
    ensures e % 100 == (if rightward then c + d else c - d) % 100
  {
    Wrap(if rightward then c + d else c - d)
  }

  /** Moving the start of a walk by `s` places up the ring shortens the residue to the end by `s`. */
  lemma ResidueFromMovedStart(a: int, b: int, e: int, k: int, s: int)
    requires (a - b) % 100 == k
    requires e % 100 == (b + s) % 100
    requires 0 <= k - s < 100
    ensures (a - e) % 100 == k - s
  {
    assert a - b == 100 * ((a - b) / 100) + k;
    assert e == 100 * (e / 100) + (b + s) % 100;
    assert b + s == 100 * ((b + s) / 100) + (b + s) % 100;
    assert a - e == (k - s) + 100 * ((a - b) / 100 + (b + s) / 100 - e / 100);
    ShiftByHundreds(k - s, (a - b) / 100 + (b + s) / 100 - e / 100);
  }

  /** Moving the end of a walk by `s` places down the ring shortens the residue from the start by `s`. */
  lemma ResidueToMovedEnd(a: int, b: int, e: int, k: int, s: int)
    requires (b - a) % 100 == k
    requires e % 100 == (b - s) % 100
    requires 0 <= k - s < 100
    ensures (e - a) % 100 == k - s
  {
    assert b - a == 100 * ((b - a) / 100) + k;
    assert e == 100 * (e / 100) + (b - s) % 100;
    assert b - s == 100 * ((b - s) / 100) + (b - s) % 100;
    assert e - a == (k - s) + 100 * ((b - a) / 100 - (b - s) / 100 + e / 100);
    ShiftByHundreds(k - s, (b - a) / 100 - (b - s) / 100 + e / 100);
  }

  /** Going the other way round the ring: the complementary residue. */
  lemma NegatedResidue(x: int)
    ensures (-x) % 100 == if x % 100 == 0 then 0 else 100 - x % 100
  {
    var r := x % 100;
    var q := x / 100;
    assert -x == 100 * (-q) - r;
    if r != 0 {
      assert -x == 100 * (-q - 1) + (100 - r);
    }
  }

  /** Two congruent points have the same residues to and from any third point. */
  lemma ResiduesFromCongruent(x: int, y: int, t: int)
    requires x % 100 == y % 100
    ensures (x - t) % 100 == (y - t) % 100
    ensures (t - x) % 100 == (t - y) % 100
  {
    var d := x / 100 - y / 100;
    assert x - t == (y - t) + 100 * d;
    assert t - x == (t - y) + 100 * (-d);
    ShiftByHundreds(y - t, d);
    ShiftByHundreds(t - y, -d);
  }

  lemma ShiftByHundreds(x: int, k: int)
    ensures (x + 100 * k) % 100 == x % 100
  {
    var r := x % 100;
    var q := x / 100;
    assert x + 100 * k == 100 * (q + k) + r;
  }

  /** A point whose residue from another, either way round, is at most half the ring lies at that distance. */
  lemma MagnitudeFromResidue(e: int, m: int, x: int)
    requires OnRing(e) && OnRing(m) && 0 <= x <= 50
    requires (m - e) % 100 == x || (e - m) % 100 == x
    ensures Distance(e, m).magnitude == x
  {
    NegatedResidue(m - e);
    NegatedResidue(e - m);
  }

  /**
   * Stepping `d` places in the direction of the pull, no further than the
   * distance, shortens the distance by exactly `d`.
   */
  lemma {:induction false} StepToward(c: int, m: int, d: int)
    requires OnRing(c) && OnRing(m)
    requires 0 <= d <= Distance(c, m).magnitude
    ensures Distance(Step(c, d, Distance(c, m).rightward), m).magnitude == Distance(c, m).magnitude - d
  {
    var p := Distance(c, m);
    var e := Step(c, d, p.rightward);
    var k := p.magnitude;
    NegatedResidue(m - c);
    if p.rightward {
      ResidueFromMovedStart(m, c, e, k, d);
    } else {
      ResidueToMovedEnd(m, c, e, k, d);
    }
    MagnitudeFromResidue(e, m, k - d);
  }

  /**
   * Stepping `d` places against the pull, while the result stays within half
   * the ring, lengthens the distance by exactly `d`.
   */
  lemma {:induction false} StepAway(c: int, m: int, d: int)
    requires OnRing(c) && OnRing(m)
    requires 0 <= d && Distance(c, m).magnitude + d <= 50
    ensures Distance(Step(c, d, !Distance(c, m).rightward), m).magnitude == Distance(c, m).magnitude + d
  {
    var p := Distance(c, m);
    var e := Step(c, d, !p.rightward);
    var k := p.magnitude;
    NegatedResidue(m - c);
    if p.rightward {
      ResidueFromMovedStart(m, c, e, k, -d);
    } else {
      ResidueToMovedEnd(m, c, e, k, -d);
    }
    MagnitudeFromResidue(e, m, k + d);
  }
}
