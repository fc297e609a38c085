/**
 * The statistics panel: a frame counter, an eclipse counter and the frame
 * of the last accepted eclipse, with a debounce of 60 frames so that one
 * alignment is not counted again on every frame while it lasts.
 *
 * The abstract state is the value Counter; Step is one call of the
 * panel's update, Run a sequence of calls, and Accepted the frames at
 * which a run accepted an eclipse. StatsPanel is the panel itself, whose
 * fields are changed in place, proved against Step.
 */
module Stats {

  /** An eclipse is accepted only when more than this many frames have passed since the last one. */
  const DebounceFrames: int := 60

  /** The last-eclipse frame of a fresh panel, far enough back that the first detection is accepted. */
  const NoEclipseYet: int := -1000

  /** Frames per simulated day, days per year and days per month in the elapsed-time display. */
  const FramesPerDay: nat := 60
  const DaysPerYear: nat := 365
  const DaysPerMonth: nat := 30

  datatype Counter = Counter(totalFrames: nat, eclipseCount: nat, lastEclipseFrame: int)

  /** The outcome of one update: whether a new eclipse was accepted, and the new counter. */
  datatype StepResult = StepResult(isNew: bool, next: Counter)

  /**
   * What every reachable counter satisfies: either nothing was accepted yet
   * and the last-eclipse frame is still the initial one, or the last
   * accepted frame is within the frames seen and accepted frames are
   * spaced so that k eclipses need at least 61 * (k - 1) + 1 frames.
   */
  ghost predicate Inv(c: Counter) {
    (c.eclipseCount == 0 && c.lastEclipseFrame == NoEclipseYet)
    || (c.eclipseCount >= 1
        && (DebounceFrames + 1) * (c.eclipseCount - 1) + 1 <= c.lastEclipseFrame <= c.totalFrames)
  }

  /** The counter of a newly created panel. */
  function Fresh(): (c: Counter)
    ensures Inv(c) && c.totalFrames == 0 && c.eclipseCount == 0
  {
    Counter(0, 0, NoEclipseYet)
  }

  /** One update: count the frame, and accept a detection only outside the debounce window. */
  function Step(c: Counter, detected: bool): (r: StepResult)
    ensures r.next.totalFrames == c.totalFrames + 1
    ensures r.isNew <==> detected && r.next.totalFrames - c.lastEclipseFrame > DebounceFrames
    ensures r.isNew ==> r.next.eclipseCount == c.eclipseCount + 1
                        && r.next.lastEclipseFrame == r.next.totalFrames
    ensures !r.isNew ==> r.next.eclipseCount == c.eclipseCount
                         && r.next.lastEclipseFrame == c.lastEclipseFrame
  {
    var frames := c.totalFrames + 1;
    if detected && frames - c.lastEclipseFrame > DebounceFrames then
      StepResult(true, Counter(frames, c.eclipseCount + 1, frames))
    else
      StepResult(false, c.(totalFrames := frames))
  }

  /** A fresh panel accepts its very first detection. */
  lemma FirstDetectionAccepted()
    ensures Step(Fresh(), true).isNew
    ensures Step(Fresh(), true).next == Counter(1, 1, 1)
  {
  }

  /** Every update keeps the invariant. */
  lemma StepKeepsInv(c: Counter, detected: bool)
    requires Inv(c)
    ensures Inv(Step(c, detected).next)
  {
  }

  /** The invariant bounds the count by the frames seen: at most one eclipse per 61 frames, rounded up. */
  lemma CountBounded(c: Counter)
    requires Inv(c)
    ensures c.eclipseCount <= c.totalFrames
    ensures (DebounceFrames + 1) * c.eclipseCount <= c.totalFrames + DebounceFrames
  {
  }

  /** The counter after feeding the detections xs, one per frame, in order. */
  function Run(c: Counter, xs: seq<bool>): (r: Counter)
    ensures r.totalFrames == c.totalFrames + |xs|
    ensures c.eclipseCount <= r.eclipseCount <= c.eclipseCount + |xs|
    ensures Inv(c) ==> Inv(r)
    decreases |xs|
  {
    if xs == [] then c
    else Run(Step(c, xs[0]).next, xs[1..])
  }

  /** The frames at which the run of xs from c accepts an eclipse, in order. */
  function Accepted(c: Counter, xs: seq<bool>): seq<int>
    decreases |xs|
  {
    if xs == [] then []
    else
      var s := Step(c, xs[0]);
      (if s.isNew then [s.next.totalFrames] else []) + Accepted(s.next, xs[1..])
  }

  /**
   * What a run records: the count grows by the number of accepted frames,
   * and the last-eclipse frame is the last of them (unchanged if there is none).
   */
  lemma {:induction false} RunRecordsAccepted(c: Counter, xs: seq<bool>)
    ensures Run(c, xs).eclipseCount == c.eclipseCount + |Accepted(c, xs)|
    ensures Run(c, xs).lastEclipseFrame
            == if Accepted(c, xs) == [] then c.lastEclipseFrame else Accepted(c, xs)[|Accepted(c, xs)| - 1]
    decreases |xs|
  {
    if xs != [] {
      RunRecordsAccepted(Step(c, xs[0]).next, xs[1..]);
    }
  }

  /** Every accepted frame is one of the frames of the run. */
  lemma {:induction false} AcceptedWithinRun(c: Counter, xs: seq<bool>)
    ensures forall i :: 0 <= i < |Accepted(c, xs)| ==>
              c.totalFrames < Accepted(c, xs)[i] <= c.totalFrames + |xs|
    decreases |xs|
  {
    if xs != [] {
      var s := Step(c, xs[0]);
      AcceptedWithinRun(s.next, xs[1..]);
      var rest := Accepted(s.next, xs[1..]);
      if s.isNew {
        assert Accepted(c, xs) == [s.next.totalFrames] + rest;
      } else {
        assert Accepted(c, xs) == rest;
      }
    }
  }

  /**
   * Accepted frames are spaced by the debounce: the first is more than 60
   * frames after the previous last eclipse, and each later one more than 60
   * frames after the one before it.
   */
  lemma {:induction false} AcceptedSpacing(c: Counter, xs: seq<bool>)
    ensures Accepted(c, xs) != [] ==> Accepted(c, xs)[0] - c.lastEclipseFrame > DebounceFrames
    ensures forall i :: 0 < i < |Accepted(c, xs)| ==>
              Accepted(c, xs)[i] - Accepted(c, xs)[i - 1] > DebounceFrames
    decreases |xs|
  {
    if xs != [] {
      var s := Step(c, xs[0]);
      AcceptedSpacing(s.next, xs[1..]);
      var rest := Accepted(s.next, xs[1..]);
      var a := Accepted(c, xs);
      if s.isNew {
        assert a == [s.next.totalFrames] + rest;
        assert forall i :: 0 < i < |a| ==> a[i] == rest[i - 1];
      } else {
        assert a == rest;
      }
    }
  }

  /**
   * Debounce: within 60 frames of the last accepted eclipse, nothing is
   * accepted, whatever the detections are; count and last-eclipse frame
   * stay as they were.
   */
  lemma {:induction false} QuietWithinWindow(c: Counter, xs: seq<bool>)
    requires c.totalFrames + |xs| - c.lastEclipseFrame <= DebounceFrames
    ensures Accepted(c, xs) == []
    ensures Run(c, xs).eclipseCount == c.eclipseCount
    ensures Run(c, xs).lastEclipseFrame == c.lastEclipseFrame
    decreases |xs|
  {
    if xs != [] {
      QuietWithinWindow(Step(c, xs[0]).next, xs[1..]);
    }
  }

  /**
   * Right after an accepted eclipse, the next 60 updates accept nothing,
   * even when every one of them reports a detection.
   */
  lemma DebounceAfterAccept(c: Counter, detected: bool, xs: seq<bool>)
    requires Step(c, detected).isNew
    requires |xs| <= DebounceFrames
    ensures Accepted(Step(c, detected).next, xs) == []
    ensures Run(Step(c, detected).next, xs).eclipseCount == c.eclipseCount + 1
  {
    QuietWithinWindow(Step(c, detected).next, xs);
  }

  /** n frames in a row on which the eclipse predicate holds. */
  function AllDetected(n: nat): (xs: seq<bool>)
    ensures |xs| == n && forall i :: 0 <= i < n ==> xs[i]
  {
    seq(n, _ => true)
  }

  /** Running xs and then one more frame is one more step after the run. */
  lemma {:induction false} RunSnoc(c: Counter, xs: seq<bool>, x: bool)
    ensures Run(c, xs + [x]) == Step(Run(c, xs), x).next
    decreases |xs|
  {
    if xs == [] {
      assert xs + [x] == [x];
    } else {
      assert (xs + [x])[1..] == xs[1..] + [x];
      RunSnoc(Step(c, xs[0]).next, xs[1..], x);
    }
  }

  /**
   * A detection that never stops is counted once every 61 frames: after n
   * frames a fresh panel has counted ceil(n / 61) eclipses, the last one at
   * frame 61 * floor((n - 1) / 61) + 1.
   */
  lemma {:induction false} ContinuousDetection(n: nat)
    requires n >= 1
    ensures Run(Fresh(), AllDetected(n)).eclipseCount == (n + DebounceFrames) / (DebounceFrames + 1)
    ensures Run(Fresh(), AllDetected(n)).lastEclipseFrame == (DebounceFrames + 1) * ((n - 1) / (DebounceFrames + 1)) + 1
  {
    if n == 1 {
      assert AllDetected(1) == [] + [true];
      RunSnoc(Fresh(), [], true);
    } else {
      ContinuousDetection(n - 1);
      assert AllDetected(n) == AllDetected(n - 1) + [true];
      RunSnoc(Fresh(), AllDetected(n - 1), true);
      var q, r := (n - 2) / 61, (n - 2) % 61;
      assert n - 2 == 61 * q + r && 0 <= r < 61;
      if r == 60 {
        assert n - 1 == 61 * (q + 1);
        assert (n - 1) / 61 == q + 1;
        assert (n + 60) / 61 == q + 2;
      } else {
        assert n - 1 == 61 * q + (r + 1) && r + 1 < 61;
        assert (n - 1) / 61 == q;
        assert (n + 60) / 61 == q + 1;
      }
    }
  }

  /** Simulated time shown on the panel: one day per 60 frames, 365-day years, 30-day months. */
  datatype Elapsed = Elapsed(days: nat, years: nat, months: nat)

  /**
   * The days/years/months breakdown of a frame count: whole days elapsed,
   * whole years in them, and whole 30-day months in the rest of the year,
   * which can reach 12 in the last five days of a year.
   */
  function ElapsedTime(totalFrames: nat): (t: Elapsed)
    ensures t.days * FramesPerDay <= totalFrames < (t.days + 1) * FramesPerDay
    ensures t.years * DaysPerYear <= t.days < (t.years + 1) * DaysPerYear
    ensures t.years * DaysPerYear + t.days % DaysPerYear == t.days
    ensures t.months * DaysPerMonth <= t.days % DaysPerYear < (t.months + 1) * DaysPerMonth
    ensures t.months <= 12
  {
    var days := totalFrames / FramesPerDay;
    var years := days / DaysPerYear;
    var months := (days % DaysPerYear) / DaysPerMonth;
    Elapsed(days, years, months)
  }

  /** Time never runs backwards: more frames show at least as many days, and a later-or-equal year and month. */
  lemma ElapsedMonotone(f: nat, g: nat)
    requires f <= g
    ensures ElapsedTime(f).days <= ElapsedTime(g).days
    ensures ElapsedTime(f).years < ElapsedTime(g).years
            || (ElapsedTime(f).years == ElapsedTime(g).years && ElapsedTime(f).months <= ElapsedTime(g).months)
  {
  }

  /** The statistics panel, whose three counters are updated in place once per unpaused frame. */
  class StatsPanel {
    var eclipseCount: nat
    var totalFrames: nat
    var lastEclipseFrame: int

    /** The panel's counters as a value. */
    ghost function State(): Counter
      reads this
    {
      Counter(totalFrames, eclipseCount, lastEclipseFrame)
    }

    ghost predicate Valid()
      reads this
    {
      Inv(State())
    }

    constructor ()
      ensures Valid() && State() == Fresh()
    {
      eclipseCount := 0;
      totalFrames := 0;
      lastEclipseFrame := NoEclipseYet;
    }

    /** Counts one frame and reports whether eclipseDetected starts a new, counted eclipse. */
    method Update(eclipseDetected: bool) returns (isNew: bool)
      requires Valid()
      modifies this
      ensures Valid()
      ensures StepResult(isNew, State()) == Step(old(State()), eclipseDetected)
    {
      totalFrames := totalFrames + 1;
      if eclipseDetected && totalFrames - lastEclipseFrame > DebounceFrames {
        eclipseCount := eclipseCount + 1;
        lastEclipseFrame := totalFrames;
        return true;
      }
      return false;
    }

    /** The simulated time the panel displays. */
    function Time(): (t: Elapsed)
      reads this
      ensures t.months <= 12
      ensures t.days * FramesPerDay <= totalFrames < (t.days + 1) * FramesPerDay
    {
      ElapsedTime(totalFrames)
    }
  }
}
