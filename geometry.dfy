/** Option, used for "no planet was clicked" and "no planet is selected". */
module Options {
  datatype Option<+T> = None | Some(value: T)
}

/**
 * The two geometric tests of the simulator: the eclipse predicate and the
 * click hit-test. The program compares Euclidean distances computed with
 * a square root in floating point; this model works over the reals and
 * compares SQUARED distances, and the lemmas below show that both forms
 * agree whenever the distances are the true (non-negative) square roots.
 */
module Geometry {

  /** A screen position in pixels. */
  datatype Point = Point(x: real, y: real)

  /** Largest moon-to-planet distance (exclusive) at which an eclipse is reported. */
  const ShadowRange: real := 50.0

  /** Extra pixels around a planet's drawn radius that still count as a hit. */
  const ClickMargin: int := 5

  /** Square of the Euclidean distance between a and b. */
  function SqDist(a: Point, b: Point): (d: real)
    ensures d >= 0.0
  {
    var dx, dy := a.x - b.x, a.y - b.y;
    assert dx * dx >= 0.0 && dy * dy >= 0.0;
    dx * dx + dy * dy
  }

  /** Distance does not depend on the order of its ends. */
  lemma SqDistSymmetric(a: Point, b: Point)
    ensures SqDist(a, b) == SqDist(b, a)
  {
  }

  /** r is the Euclidean distance between a and b, i.e. the square root of SqDist(a, b). */
  ghost predicate IsDistance(r: real, a: Point, b: Point) {
    r >= 0.0 && r * r == SqDist(a, b)
  }

  /**
   * The eclipse predicate: the moon is nearer the sun than the planet is,
   * and the moon is within ShadowRange of the planet.
   */
  predicate CheckEclipse(sun: Point, planet: Point, moon: Point) {
    SqDist(moon, sun) < SqDist(planet, sun)
    && SqDist(moon, planet) < ShadowRange * ShadowRange
  }

  /**
   * The click hit-test: pos lies within the planet's drawn radius plus
   * ClickMargin. A negative bound (size < -5) can never be reached by a
   * square root, so it never hits.
   */
  predicate IsClicked(centre: Point, size: int, pos: Point) {
    var bound := (size + ClickMargin) as real;
    bound >= 0.0 && SqDist(pos, centre) <= bound * bound
  }

  /** Squaring is strictly monotone on the non-negative reals. */
  lemma SquareLess(r: real, s: real)
    requires r >= 0.0 && s >= 0.0
    ensures r < s <==> r * r < s * s
  {
    if r < s {
      assert (s - r) * r >= 0.0;
      assert (s - r) * s > 0.0;
    } else {
      assert (r - s) * s >= 0.0;
      assert (r - s) * r >= 0.0;
    }
  }

  /** Squaring is monotone on the non-negative reals (non-strict form). */
  lemma SquareAtMost(r: real, s: real)
    requires r >= 0.0 && s >= 0.0
    ensures r <= s <==> r * r <= s * s
  {
    SquareLess(s, r);
  }

  /**
   * CheckEclipse agrees with the program's test on true distances:
   * sun-to-moon < sun-to-planet and moon-to-planet < 50.
   */
  lemma CheckEclipseMatchesDistances(sun: Point, planet: Point, moon: Point,
                                     sunToPlanet: real, sunToMoon: real, moonToPlanet: real)
    requires IsDistance(sunToPlanet, planet, sun)
    requires IsDistance(sunToMoon, moon, sun)
    requires IsDistance(moonToPlanet, moon, planet)
    ensures CheckEclipse(sun, planet, moon) <==> sunToMoon < sunToPlanet && moonToPlanet < ShadowRange
  {
    SquareLess(sunToMoon, sunToPlanet);
    SquareLess(moonToPlanet, ShadowRange);
  }

  /** IsClicked agrees with the program's test on the true distance: distance <= size + 5. */
  lemma IsClickedMatchesDistance(centre: Point, size: int, pos: Point, distance: real)
    requires IsDistance(distance, pos, centre)
    ensures IsClicked(centre, size, pos) <==> distance <= (size + ClickMargin) as real
  {
    var bound := (size + ClickMargin) as real;
    if bound >= 0.0 {
      SquareAtMost(distance, bound);
    }
  }

  /** A moon at the planet's own position never eclipses it: it is not nearer the sun. */
  lemma NoEclipseAtPlanet(sun: Point, planet: Point)
    ensures !CheckEclipse(sun, planet, planet)
  {
  }

  /** A click at a planet's centre always hits it, whenever its drawn size is at least -5. */
  lemma CentreIsClicked(centre: Point, size: int)
    requires size + ClickMargin >= 0
    ensures IsClicked(centre, size, centre)
  {
  }
}
