/**
 * The per-frame control state of the main loop as values: the speed
 * multiplier, the planet selection and the countdown of the "ECLIPSE!"
 * banner. The Sim class applies these on each key press, click and frame.
 */
module Controls {
  import opened Options

  /**
   * The speed multiplier is always a multiple of 0.5 between 0.5 and 10,
   * so it is kept as a whole number of halves between 1 and 20. It starts
   * at 1, that is 2 halves.
   */
  const MinHalves: int := 1
  const MaxHalves: int := 20
  const InitialHalves: int := 2

  /** The banner is shown for this many frames' worth of countdown after a new eclipse. */
  const BannerFrames: nat := 60

  predicate SpeedInRange(halves: int) {
    MinHalves <= halves <= MaxHalves
  }

  /** The multiplier the program uses, from its count of halves. */
  function Multiplier(halves: int): real {
    halves as real / 2.0
  }

  function RealMin(a: real, b: real): real { if a <= b then a else b }
  function RealMax(a: real, b: real): real { if a >= b then a else b }

  /** The UP key: one half faster, but never above 10. */
  function SpeedUp(halves: int): (r: int)
    ensures SpeedInRange(halves) ==> SpeedInRange(r)
    ensures halves < MaxHalves ==> r == halves + 1
    ensures halves >= MaxHalves ==> r == MaxHalves
  {
    if halves + 1 <= MaxHalves then halves + 1 else MaxHalves
  }

  /** The DOWN key: one half slower, but never below 0.5. */
  function SpeedDown(halves: int): (r: int)
    ensures SpeedInRange(halves) ==> SpeedInRange(r)
    ensures halves > MinHalves ==> r == halves - 1
    ensures halves <= MinHalves ==> r == MinHalves
  {
    if halves - 1 >= MinHalves then halves - 1 else MinHalves
  }

  /** SpeedUp is exactly `min(10, multiplier + 0.5)` on the multiplier itself. */
  lemma SpeedUpMatchesMultiplier(halves: int)
    ensures Multiplier(SpeedUp(halves)) == RealMin(10.0, Multiplier(halves) + 0.5)
  {
  }

  /** SpeedDown is exactly `max(0.5, multiplier - 0.5)` on the multiplier itself. */
  lemma SpeedDownMatchesMultiplier(halves: int)
    ensures Multiplier(SpeedDown(halves)) == RealMax(0.5, Multiplier(halves) - 0.5)
  {
  }

  /** A count of halves in range is a multiplier in [0.5, 10]. */
  lemma MultiplierBounds(halves: int)
    requires SpeedInRange(halves)
    ensures 0.5 <= Multiplier(halves) <= 10.0
  {
  }

  /** UP undoes DOWN and DOWN undoes UP, away from the ends of the range. */
  lemma UpDownInverse(halves: int)
    ensures MinHalves <= halves < MaxHalves ==> SpeedDown(SpeedUp(halves)) == halves
    ensures MinHalves < halves <= MaxHalves ==> SpeedUp(SpeedDown(halves)) == halves
  {
  }

  /** UP at the top speed and DOWN at the bottom speed leave the speed unchanged. */
  lemma SpeedClampsAtEnds()
    ensures SpeedUp(MaxHalves) == MaxHalves && Multiplier(MaxHalves) == 10.0
    ensures SpeedDown(MinHalves) == MinHalves && Multiplier(MinHalves) == 0.5
  {
  }

  datatype SpeedKey = Up | Down

  /** The speed after the UP/DOWN presses in keys, in order. */
  function PressAll(halves: int, keys: seq<SpeedKey>): int
    decreases |keys|
  {
    if keys == [] then halves
    else
      var h := if keys[0] == Up then SpeedUp(halves) else SpeedDown(halves);
      PressAll(h, keys[1..])
  }

  /** Any sequence of UP/DOWN presses keeps the multiplier within [0.5, 10]. */
  lemma {:induction false} PressAllInRange(halves: int, keys: seq<SpeedKey>)
    requires SpeedInRange(halves)
    ensures SpeedInRange(PressAll(halves, keys))
    ensures 0.5 <= Multiplier(PressAll(halves, keys)) <= 10.0
    decreases |keys|
  {
    if keys != [] {
      var h := if keys[0] == Up then SpeedUp(halves) else SpeedDown(halves);
      PressAllInRange(h, keys[1..]);
    }
  }

  /** Twenty UP presses reach the top speed from anywhere in range. */
  lemma {:induction false} EnoughUpsReachTop(halves: int, n: nat)
    requires SpeedInRange(halves)
    requires n >= MaxHalves - halves
    ensures PressAll(halves, seq(n, _ => Up)) == MaxHalves
    decreases n
  {
    if n > 0 {
      var keys := seq(n, _ => Up);
      assert keys[0] == Up && keys[1..] == seq(n - 1, _ => Up);
      EnoughUpsReachTop(SpeedUp(halves), n - 1);
    }
  }

  /**
   * The selection after a click. hit is the index of the first planet the
   * click landed on, or None for empty space. Clicking the selected planet
   * deselects it, clicking another planet selects that one instead, and
   * clicking empty space clears the selection.
   */
  function NextSelection(selected: Option<nat>, hit: Option<nat>): (r: Option<nat>)
    ensures r == None || r == hit
    ensures hit != None ==> (r == None <==> selected == hit)
  {
    match hit
    case None => None
    case Some(i) => if selected == Some(i) then None else Some(i)
  }

  /** Clicking the same planet twice from no selection ends with no selection again. */
  lemma ClickTwiceFromNothing(hit: Option<nat>)
    ensures NextSelection(NextSelection(None, hit), hit) == None
  {
  }

  /** The banner countdown for one frame: reset to 60 on a new eclipse, then count down to 0. */
  function BannerTick(timer: nat, newEclipse: bool): (r: nat)
    ensures newEclipse ==> r == BannerFrames - 1
    ensures !newEclipse ==> r == if timer > 0 then timer - 1 else 0
  {
    var t := if newEclipse then BannerFrames else timer;
    if t > 0 then t - 1 else 0
  }

  /** The banner timer after n frames with no new eclipse. */
  function BannerAfter(timer: nat, n: nat): (r: nat)
    ensures r <= timer
    decreases n
  {
    if n == 0 then timer else BannerAfter(BannerTick(timer, false), n - 1)
  }

  /**
   * Once set by a new eclipse, the banner counts down 59, 58, ..., 1 on
   * the following frames and is gone 59 frames after the eclipse.
   */
  lemma {:induction false} BannerCountdown(timer: nat, n: nat)
    ensures BannerAfter(timer, n) == if n <= timer then timer - n else 0
    decreases n
  {
    if n > 0 {
      BannerCountdown(BannerTick(timer, false), n - 1);
    }
  }

  /** The frames after a new eclipse during which the banner is still drawn. */
  lemma BannerShownAfterEclipse(timer: nat, n: nat)
    ensures BannerAfter(BannerTick(timer, true), n) > 0 <==> n < BannerFrames - 1
  {
    BannerCountdown(BannerTick(timer, true), n);
  }
}
