/**
 * The bodies and the main loop's state. Planets and the moon advance
 * their orbital angle by speed times the speed multiplier on every
 * unpaused frame; Sim holds the state the main loop changes frame by
 * frame and event by event: pause, speed, selection, the banner timer and
 * the statistics panel.
 *
 * Positions on screen are derived from the angles with cosine and sine and
 * are not modelled: the eclipse predicate's value for the frame and the
 * planets' positions for a click are passed in as parameters.
 */
module Simulation {
  import opened Options
  import opened Geometry
  import opened Stats
  import opened Controls

  /**
   * The banner timer and the statistics counter fit together: the banner
   * is shorter than the debounce window, and counts down at least as fast
   * as frames pass after the last accepted eclipse.
   */
  ghost predicate BannerFits(timer: int, c: Counter) {
    && 0 <= timer < BannerFrames
    && (timer == 0 || timer + (c.totalFrames - c.lastEclipseFrame) < BannerFrames)
  }

  /**
   * An unpaused frame keeps the banner and the counter fitting together,
   * and a new eclipse is only ever accepted once the previous banner is gone.
   */
  lemma BannerFitsAfterStep(timer: nat, c: Counter, detected: bool)
    requires BannerFits(timer, c)
    ensures Step(c, detected).isNew ==> timer == 0
    ensures BannerFits(BannerTick(timer, Step(c, detected).isNew), Step(c, detected).next)
  {
  }

  /** A paused frame (the counter unchanged, the timer counting down) keeps them fitting together. */
  lemma BannerFitsWhilePaused(timer: nat, c: Counter)
    requires BannerFits(timer, c)
    ensures BannerFits(BannerTick(timer, false), c)
  {
  }

  class Planet {
    const name: string
    const distance: int
    const size: int
    const speed: real
    var angle: real
    var selected: bool

    constructor (name: string, distance: int, size: int, speed: real, angle: real)
      ensures this.name == name && this.distance == distance && this.size == size
      ensures this.speed == speed && this.angle == angle && !selected
    {
      this.name := name;
      this.distance := distance;
      this.size := size;
      this.speed := speed;
      this.angle := angle;
      selected := false;
    }

    /** Advances the orbit by one frame at the given speed multiplier. */
    method Update(speedMult: real)
      modifies this`angle
      ensures angle == old(angle) + speed * speedMult
    {
      angle := angle + speed * speedMult;
    }
  }

  class Moon {
    const planet: Planet
    const distance: int
    const size: int
    const speed: real
    var angle: real

    constructor (planet: Planet, distance: int, size: int, speed: real)
      ensures this.planet == planet && this.distance == distance && this.size == size
      ensures this.speed == speed && angle == 0.0
    {
      this.planet := planet;
      this.distance := distance;
      this.size := size;
      this.speed := speed;
      angle := 0.0;
    }

    /** Advances the orbit around the planet by one frame at the given speed multiplier. */
    method Update(speedMult: real)
      modifies this`angle
      ensures angle == old(angle) + speed * speedMult
    {
      angle := angle + speed * speedMult;
    }
  }

  class Sim {
    /** Mercury, Venus, Earth and Mars, in this order; clicks test them in this order. */
    const planets: seq<Planet>
    /** The planet whose moon is watched for eclipses. */
    const earth: Planet
    const moon: Moon
    const stats: StatsPanel

    var paused: bool
    var speedHalves: int
    var showInstructions: bool
    /** Frames of the "ECLIPSE!" banner still to show; drawn while positive. */
    var eclipseTimer: nat
    /** The selected planet, or null. */
    var selectedPlanet: Planet?
    /** The index in planets of the selected planet, if any. */
    ghost var selectedIndex: Option<nat>

    /**
     * The loop's invariant: four distinct planets with the moon around
     * Earth; a valid statistics panel; the speed in range; the selection
     * flags of the planets agree with the selected planet, so at most one
     * is set; and the banner timer has always run out before the debounce
     * lets a new eclipse through.
     */
    ghost predicate Valid()
      reads this, planets, stats
    {
      && |planets| == 4
      && (forall i, j :: 0 <= i < j < |planets| ==> planets[i] != planets[j])
      && earth == planets[2] && moon.planet == earth
      && stats.Valid()
      && SpeedInRange(speedHalves)
      && SelectionValid()
      && BannerValid()
    }

    /** The selection flags of the planets agree with the selected planet. */
    ghost predicate SelectionValid()
      reads this`selectedIndex, this`selectedPlanet, planets
    {
      && (match selectedIndex
          case None => selectedPlanet == null
          case Some(k) => k < |planets| && selectedPlanet == planets[k])
      && (forall i :: 0 <= i < |planets| ==> (planets[i].selected <==> selectedIndex == Some(i)))
    }

    /** The banner timer runs out before the debounce lets the next eclipse through. */
    ghost predicate BannerValid()
      reads this`eclipseTimer, stats
    {
      BannerFits(eclipseTimer, stats.State())
    }

    /** At most one planet is selected, and it is the selected planet. */
    lemma OneSelected()
      requires Valid()
      ensures forall i, j ::
                0 <= i < |planets| && 0 <= j < |planets| && planets[i].selected && planets[j].selected ==> i == j
      ensures forall i :: 0 <= i < |planets| ==> (planets[i].selected <==> selectedPlanet == planets[i])
    {
    }

    /**
     * The start of the program: the four planets at their given starting
     * angles, the moon at angle 0, speed 1, not paused, nothing selected,
     * no banner and a fresh statistics panel.
     */
    constructor (mercuryAngle: real, venusAngle: real, earthAngle: real, marsAngle: real)
      ensures Valid() && fresh(stats) && fresh(moon)
      ensures |planets| == 4 && forall i :: 0 <= i < 4 ==> fresh(planets[i])
      ensures planets[0].name == "Mercury" && planets[0].distance == 100 && planets[0].size == 7
      ensures planets[0].speed == 0.04 && planets[0].angle == mercuryAngle
      ensures planets[1].name == "Venus" && planets[1].distance == 150 && planets[1].size == 11
      ensures planets[1].speed == 0.03 && planets[1].angle == venusAngle
      ensures planets[2].name == "Earth" && planets[2].distance == 210 && planets[2].size == 13
      ensures planets[2].speed == 0.02 && planets[2].angle == earthAngle
      ensures planets[3].name == "Mars" && planets[3].distance == 280 && planets[3].size == 9
      ensures planets[3].speed == 0.018 && planets[3].angle == marsAngle
      ensures moon.distance == 35 && moon.size == 5 && moon.speed == 0.08 && moon.angle == 0.0
      ensures stats.State() == Fresh()
      ensures !paused && speedHalves == InitialHalves && showInstructions
      ensures eclipseTimer == 0 && selectedPlanet == null && selectedIndex == None
    {
      var mercury := new Planet("Mercury", 100, 7, 0.04, mercuryAngle);
      var venus := new Planet("Venus", 150, 11, 0.03, venusAngle);
      var earthPlanet := new Planet("Earth", 210, 13, 0.02, earthAngle);
      var mars := new Planet("Mars", 280, 9, 0.018, marsAngle);
      planets := [mercury, venus, earthPlanet, mars];
      earth := earthPlanet;
      moon := new Moon(earthPlanet, 35, 5, 0.08);
      stats := new StatsPanel();
      paused := false;
      speedHalves := InitialHalves;
      showInstructions := true;
      eclipseTimer := 0;
      selectedPlanet := null;
      selectedIndex := None;
    }

    /** SPACE: pause or resume. */
    method TogglePause()
      requires Valid()
      modifies this`paused
      ensures Valid() && paused == !old(paused)
    {
      paused := !paused;
    }

    /** UP: one half faster, at most 10. */
    method PressUp()
      requires Valid()
      modifies this`speedHalves
      ensures Valid() && speedHalves == SpeedUp(old(speedHalves))
    {
      speedHalves := if speedHalves + 1 <= MaxHalves then speedHalves + 1 else MaxHalves;
    }

    /** DOWN: one half slower, at least 0.5. */
    method PressDown()
      requires Valid()
      modifies this`speedHalves
      ensures Valid() && speedHalves == SpeedDown(old(speedHalves))
    {
      speedHalves := if speedHalves - 1 >= MinHalves then speedHalves - 1 else MinHalves;
    }

    /** H: hide or show the instructions panel. */
    method ToggleInstructions()
      requires Valid()
      modifies this`showInstructions
      ensures Valid() && showInstructions == !old(showInstructions)
    {
      showInstructions := !showInstructions;
    }

    /**
     * The hit-test of a click: the index of the first planet, in list order,
     * whose disc (plus the margin) holds mouse, or None. positions[i] is the
     * current screen position of planets[i].
     */
    method FindClicked(positions: seq<Point>, mouse: Point) returns (hit: Option<nat>)
      requires |positions| == |planets|
      ensures hit.Some? ==> hit.value < |planets|
                            && IsClicked(positions[hit.value], planets[hit.value].size, mouse)
      ensures hit.Some? ==> forall j :: 0 <= j < hit.value ==> !IsClicked(positions[j], planets[j].size, mouse)
      ensures hit.None? ==> forall j :: 0 <= j < |planets| ==> !IsClicked(positions[j], planets[j].size, mouse)
    {
      var i := 0;
      while i < |planets|
        invariant 0 <= i <= |planets|
        invariant forall j :: 0 <= j < i ==> !IsClicked(positions[j], planets[j].size, mouse)
      {
        if IsClicked(positions[i], planets[i].size, mouse) {
          return Some(i);
        }
        i := i + 1;
      }
      return None;
    }

    /**
     * A click that landed on planets[hit.value], or on empty space when hit
     * is None: clicking the selected planet deselects it, another planet
     * takes over the selection, empty space clears it. Angles, speed, pause
     * and statistics are left as they were.
     */
    method Click(hit: Option<nat>)
      requires Valid()
      requires hit.Some? ==> hit.value < |planets|
      modifies this`selectedPlanet, this`selectedIndex, planets
      ensures Valid()
      ensures selectedIndex == NextSelection(old(selectedIndex), hit)
      ensures forall i :: 0 <= i < |planets| ==> planets[i].angle == old(planets[i].angle)
    {
      match hit
      case Some(i) =>
        var planet := planets[i];
        if selectedPlanet == planet {
          selectedPlanet := null;
          planet.selected := false;
          selectedIndex := None;
        } else {
          if selectedPlanet != null {
            selectedPlanet.selected := false;
          }
          selectedPlanet := planet;
          planet.selected := true;
          selectedIndex := Some(i);
        }
      case None =>
        if selectedPlanet != null {
          selectedPlanet.selected := false;
          selectedPlanet := null;
          selectedIndex := None;
        }
    }

    /** A mouse press at mouse, with the planets at positions: hit-test, then change the selection. */
    method MouseDown(positions: seq<Point>, mouse: Point) returns (hit: Option<nat>)
      requires Valid()
      requires |positions| == |planets|
      modifies this`selectedPlanet, this`selectedIndex, planets
      ensures Valid()
      ensures hit.Some? ==> hit.value < |planets|
                            && IsClicked(positions[hit.value], planets[hit.value].size, mouse)
                            && forall j :: 0 <= j < hit.value ==> !IsClicked(positions[j], planets[j].size, mouse)
      ensures hit.None? ==> forall j :: 0 <= j < |planets| ==> !IsClicked(positions[j], planets[j].size, mouse)
      ensures selectedIndex == NextSelection(old(selectedIndex), hit)
      ensures forall i :: 0 <= i < |planets| ==> planets[i].angle == old(planets[i].angle)
    {
      hit := FindClicked(positions, mouse);
      Click(hit);
    }

    /** Every planet, in order, advances by one frame at the speed multiplier mult. */
    method AdvancePlanets(mult: real)
      requires forall i, j :: 0 <= i < j < |planets| ==> planets[i] != planets[j]
      modifies planets
      ensures forall i :: 0 <= i < |planets| ==> planets[i].angle == old(planets[i].angle) + planets[i].speed * mult
      ensures forall i :: 0 <= i < |planets| ==> planets[i].selected == old(planets[i].selected)
    {
      var i := 0;
      while i < |planets|
        invariant 0 <= i <= |planets|
        invariant forall j :: 0 <= j < i ==> planets[j].angle == old(planets[j].angle) + planets[j].speed * mult
        invariant forall j :: i <= j < |planets| ==> planets[j].angle == old(planets[j].angle)
        invariant forall j :: 0 <= j < |planets| ==> planets[j].selected == old(planets[j].selected)
      {
        planets[i].Update(mult);
        i := i + 1;
      }
    }

    /** Since the method's pre-state, every planet and the moon advanced by its speed times mult. */
    twostate predicate Advanced(mult: real)
      reads planets, moon
    {
      && (forall i :: 0 <= i < |planets| ==> planets[i].angle == old(planets[i].angle) + planets[i].speed * mult)
      && moon.angle == old(moon.angle) + moon.speed * mult
    }

    /** Since the method's pre-state, no planet and not the moon has moved. */
    twostate predicate Frozen()
      reads planets, moon
    {
      && (forall i :: 0 <= i < |planets| ==> planets[i].angle == old(planets[i].angle))
      && moon.angle == old(moon.angle)
    }

    /**
     * The unpaused part of a frame: every planet and the moon advance by
     * their speed times the multiplier, and the statistics panel takes
     * eclipseDetected, the eclipse predicate on the new positions of Earth
     * and the moon.
     */
    method Advance(eclipseDetected: bool) returns (newEclipse: bool)
      requires Valid()
      modifies stats, planets, moon
      ensures stats.Valid() && SelectionValid()
      ensures forall i :: 0 <= i < |planets| ==> planets[i].selected == old(planets[i].selected)
      ensures Advanced(Multiplier(speedHalves))
      ensures StepResult(newEclipse, stats.State()) == Step(old(stats.State()), eclipseDetected)
    {
      var mult := Multiplier(speedHalves);
      AdvancePlanets(mult);
      moon.Update(mult);
      newEclipse := stats.Update(eclipseDetected);
    }

    /**
     * One frame of the main loop after its events. Unless paused, the
     * bodies and the statistics panel advance as in Advance, and a new
     * eclipse resets the banner timer to 60. Paused, nothing moves and the
     * panel is not updated. Either way the banner timer then counts down by
     * one while positive, so a new eclipse never cuts short the banner of
     * the one before.
     */
    method Tick(eclipseDetected: bool) returns (newEclipse: bool)
      requires Valid()
      modifies this`eclipseTimer, stats, planets, moon
      ensures Valid()
      ensures forall i :: 0 <= i < |planets| ==> planets[i].selected == old(planets[i].selected)
      ensures old(paused) ==> !newEclipse && stats.State() == old(stats.State()) && Frozen()
      ensures !old(paused) ==> StepResult(newEclipse, stats.State()) == Step(old(stats.State()), eclipseDetected)
                               && Advanced(Multiplier(speedHalves))
      ensures eclipseTimer == BannerTick(old(eclipseTimer), newEclipse)
      ensures newEclipse ==> old(eclipseTimer) == 0
    {
      newEclipse := false;
      if !paused {
        BannerFitsAfterStep(eclipseTimer, stats.State(), eclipseDetected);
        newEclipse := Advance(eclipseDetected);
        if newEclipse {
          eclipseTimer := BannerFrames;
        }
      } else {
        BannerFitsWhilePaused(eclipseTimer, stats.State());
      }
      if eclipseTimer > 0 {
        eclipseTimer := eclipseTimer - 1;
      }
    }
  }
}
