/**
 * The layout formulas of the two regroup coroutines (Game.cs, RegroupCardsOnTableCoroutine and
 * RegroupCardsInHandCoroutine): for the card at index i of a zone list of length k they give the
 * offset from the zone's anchor, the rotation and the sorting order.  Floats are modelled as
 * exact reals.
 */
module Layout {
  import opened Geometry

  /** The inspector settings `_angleStep` and `_positionStep` of Game. */
  datatype Steps = Steps(angle: real, x: real, y: real)

  /** A resting pose: position, z rotation in degrees, and sorting order. */
  datatype Pose = Pose(position: Vec2, rotation: real, sortingOrder: int)

  /** The middle index of a hand of k cards, `((float)k - 1) / 2`. */
  function Mid(k: nat): (m: real)
    ensures k >= 1 ==> 0.0 <= m <= (k - 1) as real
    ensures 2.0 * m == (k - 1) as real
  {
    (k as real - 1.0) / 2.0
  }

  /** Rotation of hand card i: `(mid - i) * angleStep`. */
  function HandRotation(i: nat, k: nat, angle: real): (r: real)
    ensures i as real == Mid(k) ==> r == 0.0
    ensures angle > 0.0 ==> (r > 0.0 <==> i as real < Mid(k))
  {
    (Mid(k) - i as real) * angle
  }

  /** Horizontal offset of hand card i: `(i - mid) * stepX`. */
  function HandX(i: nat, k: nat, stepX: real): (x: real)
    ensures i as real == Mid(k) ==> x == 0.0
    ensures stepX > 0.0 ==> (x < 0.0 <==> i as real < Mid(k))
  {
    (i as real - Mid(k)) * stepX
  }

  /** Vertical offset of hand card i: `-|mid - i| * stepY`. */
  function HandY(i: nat, k: nat, stepY: real): (y: real)
    ensures stepY >= 0.0 ==> y <= 0.0
    ensures i as real == Mid(k) ==> y == 0.0
  {
    -Abs(Mid(k) - i as real) * stepY
  }

  /** Horizontal offset of table card i: `(i - (k - 2) / 2) * stepX`. */
  function TableX(i: nat, k: nat, stepX: real): (x: real)
    ensures stepX > 0.0 ==> (x > 0.0 <==> 2 * i + 2 > k)
  {
    var d := i as real - (k as real - 2.0) / 2.0;
    assert d > 0.0 <==> 2 * i + 2 > k;
    d * stepX
  }

  /** The home pose the hand coroutine gives card i of k. */
  function HandSlot(anchor: Vec2, i: nat, k: nat, steps: Steps): (p: Pose)
    ensures p.sortingOrder == i
    ensures steps.y >= 0.0 ==> p.position.y <= anchor.y
  {
    Pose(anchor.Plus(Vec2(HandX(i, k, steps.x), HandY(i, k, steps.y))), HandRotation(i, k, steps.angle), i)
  }

  /** The home pose the table coroutine gives card i of k: no rotation, on the anchor's line. */
  function TableSlot(anchor: Vec2, i: nat, k: nat, steps: Steps): (p: Pose)
    ensures p.sortingOrder == i
    ensures p.rotation == 0.0 && p.position.y == anchor.y
  {
    Pose(anchor.Plus(Vec2(TableX(i, k, steps.x), 0.0)), 0.0, i)
  }

  /** The hand fans out symmetrically: mirrored cards have opposite rotations and x offsets and the same y. */
  lemma HandMirror(i: nat, k: nat, steps: Steps)
    requires i < k
    ensures HandRotation(i, k, steps.angle) == -HandRotation(k - 1 - i, k, steps.angle)
    ensures HandX(i, k, steps.x) == -HandX(k - 1 - i, k, steps.x)
    ensures HandY(i, k, steps.y) == HandY(k - 1 - i, k, steps.y)
  {
    var j := k - 1 - i;
    assert Mid(k) - j as real == -(Mid(k) - i as real);
  }

  /** With a non-negative vertical step the fan curves downwards: no hand card is above the anchor,
      and none is lower than the outermost ones. */
  lemma HandYBounds(i: nat, k: nat, stepY: real)
    requires i < k
    requires stepY >= 0.0
    ensures -Mid(k) * stepY <= HandY(i, k, stepY) <= 0.0
  {
    var d := Abs(Mid(k) - i as real);
    assert 0.0 <= d <= Mid(k);
    ScaleBound(d, Mid(k), stepY);
  }

  /** The rotation of a hand card never exceeds that of the outermost card. */
  lemma HandRotationBounds(i: nat, k: nat, angle: real)
    requires i < k
    ensures Abs(HandRotation(i, k, angle)) <= Mid(k) * Abs(angle)
  {
    var d := Mid(k) - i as real;
    assert -Mid(k) <= d <= Mid(k);
    assert HandRotation(i, k, angle) == d * angle;
    AbsMul(d, angle);
    ScaleBound(Abs(d), Mid(k), Abs(angle));
  }

  /** The absolute value of a product is the product of the absolute values. */
  lemma AbsMul(x: real, y: real)
    ensures Abs(x * y) == Abs(x) * Abs(y)
  {
    if x < 0.0 && y < 0.0 {
      assert x * y == (-x) * (-y);
    } else if x < 0.0 {
      assert x * y == -((-x) * y);
    } else if y < 0.0 {
      assert x * y == -(x * (-y));
    }
  }

  /** Multiplying by a non-negative factor keeps an order. */
  lemma ScaleBound(e: real, m: real, a: real)
    requires 0.0 <= e <= m && 0.0 <= a
    ensures e * a <= m * a
  {
    assert m * a - e * a == (m - e) * a;
  }

  /** In an odd-sized hand the middle card is upright, centred and highest. */
  lemma HandCentre(k: nat, steps: Steps)
    requires k % 2 == 1
    ensures HandRotation(k / 2, k, steps.angle) == 0.0
    ensures HandX(k / 2, k, steps.x) == 0.0
    ensures HandY(k / 2, k, steps.y) == 0.0
  {
    assert Mid(k) == (k / 2) as real;
  }

  /** Neighbouring cards of either zone are exactly one horizontal step apart. */
  lemma RowSpacing(i: nat, k: nat, stepX: real)
    ensures HandX(i + 1, k, stepX) - HandX(i, k, stepX) == stepX
    ensures TableX(i + 1, k, stepX) - TableX(i, k, stepX) == stepX
  {
  }

  /** The table row is the centred hand row shifted right by half a step, so it is not centred. */
  lemma TableOffCentre(i: nat, k: nat, stepX: real)
    ensures TableX(i, k, stepX) == HandX(i, k, stepX) + stepX / 2.0
  {
  }

  /** A single table card sits half a step to the right of the anchor, not on it. */
  lemma SingleTableCard(stepX: real)
    ensures TableX(0, 1, stepX) == stepX / 2.0
  {
  }

  /** With a non-zero step, distinct indices get distinct table positions. */
  lemma TableXInjective(i: nat, j: nat, k: nat, stepX: real)
    requires stepX != 0.0 && i != j
    ensures TableX(i, k, stepX) != TableX(j, k, stepX)
  {
    assert TableX(i, k, stepX) - TableX(j, k, stepX) == (i as real - j as real) * stepX;
  }

  /** Five dealt cards fan from +2 to -2 angle steps, with the third card upright. */
  lemma FiveCardFan(angle: real)
    ensures HandRotation(0, 5, angle) == 2.0 * angle
    ensures HandRotation(2, 5, angle) == 0.0
    ensures HandRotation(4, 5, angle) == -2.0 * angle
  {
  }
}
