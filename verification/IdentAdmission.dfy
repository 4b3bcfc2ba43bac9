/** apps/ident/ident_common.hpp: what an accepted schedule is promised. On a run without faults,
    soft events, window extensions or unsolvable blocks, the 10 % slack of the budget covers
    every overshoot of a phase, so that nothing is refused and the run completes. */
module IdentAdmission {
  import opened Basics
  import opened Products
  import opened IdentSchedule
  import opened IdentMachine
  import IdentWindow

  // A hand-placed, uneventful run: no capture, no extended windows, cycles one step apart (or
  // repeated), at least five of them to every probe period, and nothing amiss in any.
  ghost predicate Nominal(c: Config, inputs: seq<Input>, step: real) {
    && ValidConfig(c) && c.captureEnvelope <= 0.0 && 0.0 < step
    && (forall k | 0 <= k < |c.dwells| :: c.dwells[k].freq * step <= 0.2 && c.dwells[k].windowMult == 1)
    && 0.0 <= c.setupOffset <= SETUP_ALLOWANCE && ScheduleFitsBudget(c.dwells, c.tStop)
    && (|inputs| > 0 ==> 0.0 <= inputs[0].t <= step)
    && (forall k | 0 < k < |inputs| :: inputs[k].t == inputs[k - 1].t || inputs[k].t == inputs[k - 1].t + step)
    && (forall k | 0 <= k < |inputs| :: Uneventful(inputs[k]))
  }

  predicate Uneventful(i: Input) {
    !i.fault && !i.soft && !i.clipped && !i.observerFault && i.solved && i.t >= 0.0
  }

  // The latest instant at which dwell k begins: five cycles of overshoot for each before it.
  function Late(c: Config, k: nat, step: real): real
    requires PositiveFrequencies(c.dwells) && k <= |c.dwells|
  {
    IdentSchedule.LeadIn(c.dwells) + step + WorstBefore(c.dwells, k) + 5.0 * k as real * step
  }

  lemma LateNext(c: Config, k: nat, step: real)
    requires PositiveFrequencies(c.dwells) && k < |c.dwells|
    ensures Late(c, k + 1, step) == Late(c, k, step) + DwellWorst(c.dwells[k].freq) + 5.0 * step
  {
    assert 5.0 * (k + 1) as real * step == 5.0 * k as real * step + 5.0 * step;
  }

  lemma {:induction false} WorstBeforeIsLong(dwells: seq<DwellSpec>, k: nat, step: real)
    requires PositiveFrequencies(dwells) && k <= |dwells| && step >= 0.0
    requires forall j | 0 <= j < |dwells| :: dwells[j].freq * step <= 0.2
    ensures WorstBefore(dwells, k) >= 50.0 * k as real * step
  {
    if k > 0 {
      WorstBeforeIsLong(dwells, k - 1, step);
      DwellIsLong(dwells[k - 1].freq, step);
      assert 50.0 * k as real * step == 50.0 * (k - 1) as real * step + 50.0 * step;
    }
  }

  lemma Scaled(x: real, y: real, step: real)
    requires x <= y && step >= 0.0
    ensures x * step <= y * step
  {
  }

  lemma LeadInIsLong(dwells: seq<DwellSpec>, step: real)
    requires PositiveFrequencies(dwells) && dwells != [] && step >= 0.0
    requires forall k | 0 <= k < |dwells| :: dwells[k].freq * step <= 0.2
    ensures IdentSchedule.LeadIn(dwells) >= 20.0 * step
  {
    var lowest := LowestFreq(dwells, |dwells|);
    LowestFreqIsLowest(dwells, |dwells|);
    Scaled(lowest, dwells[0].freq, step);
    QuotientAtLeast(4.0, lowest, 20.0 * step);
  }

  // The slack covers the overshoots of all the dwells.
  lemma SlackCoversOvershoot(c: Config, step: real)
    requires PositiveFrequencies(c.dwells) && c.dwells != [] && step >= 0.0
    requires forall k | 0 <= k < |c.dwells| :: c.dwells[k].freq * step <= 0.2
    requires c.setupOffset <= SETUP_ALLOWANCE && ScheduleFitsBudget(c.dwells, c.tStop)
    ensures Late(c, |c.dwells|, step) + FINAL_HOLD <= StopTime(c)
  {
    hide IdentSchedule.LeadIn, WorstBefore;
    WorstBeforeIsLong(c.dwells, |c.dwells|, step);
    LeadInIsLong(c.dwells, step);
    var cycles := |c.dwells| as real * step;
    assert 50.0 * |c.dwells| as real * step == 50.0 * cycles;
    assert 5.0 * |c.dwells| as real * step == 5.0 * cycles;
  }

  lemma {:induction false} LateMonotone(c: Config, j: nat, k: nat, step: real)
    requires PositiveFrequencies(c.dwells) && j <= k <= |c.dwells| && step >= 0.0
    ensures Late(c, j, step) <= Late(c, k, step)
    decreases k
  {
    if j < k {
      LateMonotone(c, j, k - 1, step);
      LateNext(c, k - 1, step);
      QuotientAtLeast(WindowPeriods(c.dwells[k - 1].freq) as real, c.dwells[k - 1].freq, 0.0);
    }
  }

  // ----- The measurement window ends in time -----

  // The window's period counter, `elapsed` after it began with probe frequency f: the block's
  // first sample lies within one cycle of its boundary, and the blocks counted are the turns made.
  ghost predicate WindowTracks(d: Demod, phi: real, elapsed: real, f: real, step: real) {
    var g := Mul(f, step);
    if !d.primed then d == FRESH_DEMOD && elapsed == 0.0
    else
      && d.samples >= 1 && phi < d.start + 1.0
      && d.start <= phi - Mul((d.samples - 1) as real, g) < d.start + g
      && Mul(f, elapsed - step) == phi - d.start + d.blocks as real
  }

  // A block that spans a turn in cycles of at most a fifth of one holds five samples.
  lemma FullBlock(samples: nat, g: real)
    requires 0.0 < g <= 0.2 && samples >= 1 && Mul((samples - 1) as real, g) > 1.0 - 2.0 * g
    ensures samples >= 5
  {
    hide Mul;
    if samples < 5 {
      MulMonotone((samples - 1) as real, 3.0, g);
      Triple(g);
    }
  }

  lemma Triple(g: real)
    ensures Mul(3.0, g) == 3.0 * g
  {
  }

  lemma SamplesMore(n: nat, g: real)
    ensures n >= 1 ==> Mul(n as real, g) == Mul((n - 1) as real, g) + g
    ensures Mul(0 as real, g) == 0.0
  {
    hide Mul;
    if n >= 1 { MulAdds((n - 1) as real, 1.0, g); }
    MulUnits(g);
  }

  lemma PhaseAdvances(f: real, e: real, step: real)
    ensures Mul(f, e + step - step) == Mul(f, e - step) + Mul(f, step)
    ensures Mul(f, 0.0) == 0.0
  {
    hide Mul;
    MulSwaps(f, e + step - step);
    MulSwaps(f, e - step);
    MulSwaps(f, step);
    MulSwaps(f, 0.0);
    MulAdds(e - step, step, f);
    MulUnits(f);
    assert e + step - step == (e - step) + step;
  }

  lemma WindowStep(d: Demod, phi: real, elapsed: real, f: real, step: real)
    requires 0.0 < f && 0.0 < step && 0.0 < Mul(f, step) <= 0.2 && WindowTracks(d, phi, elapsed, f, step)
    ensures WindowTracks(DemodAdd(d, phi + Mul(f, step), true), phi + Mul(f, step), elapsed + step, f, step)
    ensures var d' := DemodAdd(d, phi + Mul(f, step), true);
            d'.blocks == d.blocks || (d'.blocks == d.blocks + 1 && d'.primed && d'.samples == 1)
  {
    hide Mul;
    var g := Mul(f, step);
    PhaseAdvances(f, elapsed, step);
    SamplesMore(d.samples, g);
    SamplesMore(1, g);
    if d.primed && phi + g - d.start >= 1.0 { FullBlock(d.samples, g); }
  }

  // A window still short of its n blocks has not lasted a cycle beyond n periods.
  lemma WindowShort(d: Demod, phi: real, elapsed: real, f: real, step: real, n: int)
    requires 0.0 < f && 0.0 < step && 0.0 < Mul(f, step) && WindowTracks(d, phi, elapsed, f, step) && d.blocks < n
    ensures elapsed < n as real / f + step
  {
    hide Mul;
    if d.primed {
      LessThanQuotient(elapsed - step, n as real, f);
    } else {
      PhaseAdvances(f, 0.0, step);
      LessThanQuotient(0.0, n as real, f);
    }
  }

  // One that has just reached them has not lasted two.
  lemma WindowEnds(d: Demod, phi: real, elapsed: real, f: real, step: real, n: int)
    requires 0.0 < f && 0.0 < step && 0.0 < Mul(f, step) <= 0.2 && WindowTracks(d, phi, elapsed, f, step) && d.blocks < n
    ensures var d' := DemodAdd(d, phi + Mul(f, step), true);
            && WindowTracks(d', phi + Mul(f, step), elapsed + step, f, step)
            && (d'.blocks >= n ==> elapsed + step < n as real / f + 2.0 * step)
  {
    hide DemodAdd, Mul;
    WindowStep(d, phi, elapsed, f, step);
    var d', e := DemodAdd(d, phi + Mul(f, step), true), elapsed + step;
    if d'.blocks >= n {
      WindowReached(d', phi + Mul(f, step), e, f, step, n);
    }
  }

  // A first sample past its boundary by less than a cycle, in the n-th block.
  lemma WindowReached(d: Demod, phi: real, elapsed: real, f: real, step: real, n: int)
    requires 0.0 < f && WindowTracks(d, phi, elapsed, f, step) && d.primed && d.samples == 1 && d.blocks == n
    ensures elapsed < n as real / f + 2.0 * step
  {
    hide Mul;
    SamplesMore(1, Mul(f, step));
    PhaseAdvances(f, elapsed - step, step);
    assert elapsed - step + step - step == elapsed - step;
    LessThanQuotient(elapsed - step - step, n as real, f);
  }

  lemma LessThanQuotient(x: real, n: real, f: real)
    requires f > 0.0 && Mul(f, x) < n
    ensures x < n / f
  {
    hide Mul, Div;
    DivMul(n, f);
    MulSwaps(f, x);
    MulStrict(x, Div(n, f), f);
    assert Div(n, f) == n / f by { Quotient(n, f); }
  }

  lemma Quotient(n: real, f: real)
    requires f != 0.0
    ensures Div(n, f) == n / f
  {
  }

  // ----- The run keeps to the latest instants -----

  ghost predicate MeasuredBefore(s: State, k: int) {
    forall j | 0 <= j < k && j < |s.results| :: s.results[j].completed || s.results[j].skipped
  }

  // At the instant t of a cycle, where the phase may have overrun by `slack`.
  ghost predicate PhaseInBudget(c: Config, s: State, t: real, step: real, slack: real)
    requires WellShaped(c, s)
  {
    match s.phase
    case LeadIn => s.phaseStart == 0.0 && t < IdentSchedule.LeadIn(c.dwells) + slack
    case RampIn => s.phaseStart <= Late(c, s.dwell, step) && t < s.phaseStart + RAMP + slack
    case Hold => s.holdStart <= Late(c, s.dwell, step) + 0.5 + step && t < s.holdStart + HOLD_MAX + slack
    case Measure =>
      && s.window.start <= Late(c, s.dwell, step) + 4.5 + 2.0 * step
      && s.window.mult == 1 && s.window.demod.blocks < WindowPeriods(c.dwells[s.dwell].freq)
      && WindowTracks(s.window.demod, s.probe.phi, t - slack - s.window.start, c.dwells[s.dwell].freq, step)
    case RampOut =>
      && s.phaseStart <= Late(c, s.dwell, step) + 4.5 + 4.0 * step + WindowSeconds(c.dwells[s.dwell].freq, 1)
      && t < s.phaseStart + RAMP + slack && s.results[s.dwell].completed
    case FinalHold => s.phaseStart <= Late(c, |c.dwells|, step) && t < s.phaseStart + FINAL_HOLD + slack && s.dwell == |c.dwells|
    case Done => s.outcome == Completed && s.dwell == |c.dwells|
    case _ => false
  }

  ghost predicate InBudget(c: Config, s: State, t: real, step: real, slack: real)
    requires WellShaped(c, s)
  {
    && (s.outcome == Running || (s.outcome == Completed && s.phase == Done))
    && s.clipRun == 0 && s.window.mult == 1 && MeasuredBefore(s, s.dwell)
    && PhaseInBudget(c, s, t, step, slack)
  }

  ghost predicate Budgeted(c: Config, step: real) {
    && ValidConfig(c) && c.dwells != [] && 0.0 < step
    && (forall k | 0 <= k < |c.dwells| :: c.dwells[k].freq * step <= 0.2 && c.dwells[k].windowMult == 1)
    && Late(c, |c.dwells|, step) + FINAL_HOLD <= StopTime(c)
  }

  lemma AdmittedWhenBudgeted(c: Config, k: nat, t: real, step: real)
    requires Budgeted(c, step) && k < |c.dwells| && t <= Late(c, k, step)
    ensures Admits(c, t, WorstOnward(c, k))
  {
    hide IdentSchedule.LeadIn, WorstBefore, DwellWorst;
    WorstSplits(c.dwells, k);
    Scaled(5.0 * k as real, 5.0 * |c.dwells| as real, step);
  }

  // A dwell due to begin by its latest instant is begun, or skipped for torque headroom only.
  lemma {:induction false} StartDwellInBudget(c: Config, s: State, k: nat, t: real, headroom: real, step: real)
    requires Budgeted(c, step) && |s.results| == |c.dwells| && k <= |c.dwells| && t <= Late(c, k, step)
    requires s.outcome == Running && s.clipRun == 0 && s.window.mult == 1 && MeasuredBefore(s, k)
    ensures WellShaped(c, StartDwell(c, s, k, t, headroom))
    ensures InBudget(c, StartDwell(c, s, k, t, headroom), t, step, 0.0)
    decreases |c.dwells| - k
  {
    StartDwellShape(c, s, k, t, headroom);
    if k < |c.dwells| {
      AdmittedWhenBudgeted(c, k, t, step);
      if Min(s.results[k].amp, headroom) < AMP_FLOOR {
        LateMonotone(c, k, k + 1, step);
        StartDwellInBudget(c, NoRetry(s).(dwell := k, results := s.results[k := s.results[k].(skipped := true)]), k + 1, t, headroom, step);
      }
    }
  }

  // What is left after the latest beginning of a dwell: its worst case, its overshoots and the
  // final hold.
  lemma RoomAfter(c: Config, k: nat, step: real)
    requires Budgeted(c, step) && k < |c.dwells|
    ensures Late(c, k, step) + 5.5 + WindowSeconds(c.dwells[k].freq, 1) + 5.0 * step <= StopTime(c)
    ensures WindowSeconds(c.dwells[k].freq, 1) == WindowPeriods(c.dwells[k].freq) as real / c.dwells[k].freq >= 0.0
  {
    hide Late, WindowPeriods;
    LateNext(c, k, step);
    LateMonotone(c, k + 1, |c.dwells|, step);
    assert WindowPeriods(c.dwells[k].freq) >= 0 by { PeriodsPositive(c.dwells[k].freq); }
    QuotientAtLeast(WindowPeriods(c.dwells[k].freq) as real, c.dwells[k].freq, 0.0);
  }

  lemma PeriodsPositive(f: real)
    ensures WindowPeriods(f) >= 10
  {
  }

  lemma LeadInRoom(c: Config, step: real)
    requires Budgeted(c, step)
    ensures IdentSchedule.LeadIn(c.dwells) + step + 5.5 <= StopTime(c)
  {
    hide IdentSchedule.LeadIn, WindowSeconds, StopTime;
    RoomAfter(c, 0, step);
    assert Late(c, 0, step) == IdentSchedule.LeadIn(c.dwells) + step;
  }

  // A window in progress, at most a cycle into the overrun.
  lemma MeasureIsEarly(c: Config, s: State, t: real, step: real, slack: real)
    requires Budgeted(c, step) && WellShaped(c, s) && s.phase == Measure && 0.0 <= slack <= step
    requires InBudget(c, s, t, step, slack)
    ensures t + 1.0 <= StopTime(c)
  {
    hide Late, WindowPeriods, WindowSeconds, WindowTracks, StopTime;
    var k, f := s.dwell, c.dwells[s.dwell].freq;
    RoomAfter(c, k, step);
    CycleTurns(f, step);
    WindowShort(s.window.demod, s.probe.phi, t - slack - s.window.start, f, step, WindowPeriods(f));
  }

  // In every phase of the nominal run an immediate ramp-out still fits.
  lemma BackstopSilent(c: Config, s: State, t: real, step: real)
    requires Budgeted(c, step) && WellShaped(c, s) && InBudget(c, s, t, step, step)
    ensures Backstop(c, s, t) == s
  {
    hide Late, WindowSeconds, WindowTracks, WindowPeriods, MeasuredBefore, IdentSchedule.LeadIn, MarkRest, EnterKill;
    if s.phase == LeadIn {
      LeadInRoom(c, step);
    } else if s.phase == Measure {
      MeasureIsEarly(c, s, t, step, step);
    } else if ProbeCarrying(s.phase) {
      RoomAfter(c, s.dwell, step);
    }
  }

  lemma ProbingInBudget(c: Config, s: State, t: real, i: Input, step: real)
    requires Budgeted(c, step) && WellShaped(c, s) && InBudget(c, s, t, step, step) && Uneventful(i)
    requires s.phase == RampIn || s.phase == Hold
    ensures WellShaped(c, InPhase(c, s, t, step, i)) && InBudget(c, InPhase(c, s, t, step, i), t, step, 0.0)
  {
    hide ProbeTorque, SoftRemoval;
    InPhaseShape(c, s, t, step, i);
  }

  lemma CycleTurns(f: real, step: real)
    requires 0.0 < f && 0.0 < step
    ensures Mul(f, step) == f * step > 0.0
  {
  }

  lemma InMeasureInBudget(c: Config, s: State, t: real, i: Input, step: real)
    requires Budgeted(c, step) && WellShaped(c, s) && InBudget(c, s, t, step, step) && Uneventful(i) && s.phase == Measure
    ensures WellShaped(c, InMeasure(c, s, t, step, i)) && InBudget(c, InMeasure(c, s, t, step, i), t, step, 0.0)
  {
    hide ProbeTorque, SoftRemoval, DemodAdd, WindowTracks, WindowPeriods;
    CycleTurns(c.dwells[s.dwell].freq, step);
    InPhaseShape(c, s, t, step, i);
    var f := c.dwells[s.dwell].freq;
    var elapsed := t - step - s.window.start;
    WindowEnds(s.window.demod, s.probe.phi, elapsed, f, step, WindowPeriods(f));
    assert elapsed + step == t - 0.0 - s.window.start;
    assert Turn(c, s, step).probe.phi == s.probe.phi + Mul(f, step);
    var d' := DemodAdd(s.window.demod, s.probe.phi + Mul(f, step), true);
    assert d'.blocks < WindowPeriods(f) ==> InMeasure(c, s, t, step, i).phase == Measure;
    assert InMeasure(c, s, t, step, i).window.demod == d';
  }

  lemma InRampOutInBudget(c: Config, s: State, t: real, i: Input, step: real)
    requires Budgeted(c, step) && WellShaped(c, s) && InBudget(c, s, t, step, step) && Uneventful(i) && s.phase == RampOut
    ensures WellShaped(c, InRampOut(c, s, t, step, i)) && InBudget(c, InRampOut(c, s, t, step, i), t, step, 0.0)
  {
    hide ProbeTorque, StartDwell, WindowPeriods, Late;
    InRampOutShape(c, s, t, step, i);
    if t - s.phaseStart >= RAMP {
      LateNext(c, s.dwell, step);
      StartDwellInBudget(c, AfterRampOut(c, s, step, i), s.dwell + 1, t, i.headroom, step);
    }
  }

  lemma InPhaseInBudget(c: Config, s: State, t: real, i: Input, step: real)
    requires Budgeted(c, step) && WellShaped(c, s) && InBudget(c, s, t, step, step) && Uneventful(i) && s.outcome == Running
    ensures WellShaped(c, InPhase(c, s, t, step, i)) && InBudget(c, InPhase(c, s, t, step, i), t, step, 0.0)
  {
    hide StartDwell, InRampIn, InHold, InMeasure, InRampOut, IdentSchedule.LeadIn;
    InPhaseShape(c, s, t, step, i);
    match s.phase
    case LeadIn => if t >= IdentSchedule.LeadIn(c.dwells) { StartDwellInBudget(c, s, 0, t, i.headroom, step); }
    case RampIn => ProbingInBudget(c, s, t, i, step);
    case Hold => ProbingInBudget(c, s, t, i, step);
    case Measure => InMeasureInBudget(c, s, t, i, step);
    case RampOut => InRampOutInBudget(c, s, t, i, step);
    case _ =>
  }

  // One step of time stretches every phase's window by that step.
  lemma StepStretches(c: Config, s: State, t0: real, step: real)
    requires WellShaped(c, s) && InBudget(c, s, t0, step, 0.0)
    ensures WellShaped(c, s.(tPrev := t0 + step)) && InBudget(c, s.(tPrev := t0 + step), t0 + step, step, step)
  {
  }

  lemma CycleInBudget(c: Config, s: State, i: Input, step: real)
    requires Budgeted(c, step) && WellShaped(c, s) && Uneventful(i)
    requires s.tPrev >= 0.0 && InBudget(c, s, s.tPrev, step, 0.0) && (i.t == s.tPrev || i.t == s.tPrev + step)
    ensures WellShaped(c, Cycle(c, s, i)) && InBudget(c, Cycle(c, s, i), i.t, step, 0.0)
  {
    hide InPhase, Backstop, PhaseInBudget;
    CycleShape(c, s, i);
    PhaseIsNominal(c, s, s.tPrev, step);
    if i.t > s.tPrev {
      var s1 := s.(tPrev := i.t);
      StepStretches(c, s, s.tPrev, step);
      if s.outcome == Running {
        BackstopSilent(c, s1, i.t, step);
        InPhaseInBudget(c, s1, i.t, i, step);
        ClipRunUnread(c, Advance(c, s1, i.t, step, i), i.t, step);
      } else {
        DoneIsTimeless(c, s, s.tPrev, i.t, step);
      }
    }
  }

  lemma PhaseIsNominal(c: Config, s: State, t: real, step: real)
    requires WellShaped(c, s) && InBudget(c, s, t, step, 0.0)
    ensures s.phase != Capture
  {
  }

  lemma ClipRunUnread(c: Config, s: State, t: real, step: real)
    requires WellShaped(c, s) && InBudget(c, s, t, step, 0.0)
    ensures WellShaped(c, s.(clipRun := 0)) && InBudget(c, s.(clipRun := 0), t, step, 0.0)
  {
  }

  lemma DoneIsTimeless(c: Config, s: State, t: real, t': real, step: real)
    requires WellShaped(c, s) && InBudget(c, s, t, step, 0.0) && s.outcome != Running
    ensures var s' := s.(tPrev := t', clipRun := 0); WellShaped(c, s') && InBudget(c, s', t', step, 0.0)
  {
  }

  lemma NominalIsBudgeted(c: Config, inputs: seq<Input>, step: real)
    requires Nominal(c, inputs, step)
    ensures Budgeted(c, step)
  {
    SlackCoversOvershoot(c, step);
  }

  lemma FirstCycleInBudget(c: Config, i: Input, step: real)
    requires Budgeted(c, step) && c.captureEnvelope <= 0.0 && 0.0 <= i.t <= step && Uneventful(i)
    ensures WellShaped(c, Cycle(c, Initial(c), i)) && InBudget(c, Cycle(c, Initial(c), i), i.t, step, 0.0)
    ensures Cycle(c, Initial(c), i).tPrev == i.t
  {
    hide Advance;
    CycleShape(c, Initial(c), i);
    LeadInIsLong(c.dwells, step);
  }

  lemma {:induction false} RunInBudget(c: Config, inputs: seq<Input>, n: nat, step: real)
    requires Nominal(c, inputs, step) && 0 < n <= |inputs|
    ensures InBudget(c, Run(c, inputs, n), inputs[n - 1].t, step, 0.0)
    ensures Run(c, inputs, n).tPrev == inputs[n - 1].t
  {
    hide Cycle, Advance;
    NominalIsBudgeted(c, inputs, step);
    if n == 1 {
      assert Run(c, inputs, 0) == Initial(c);
      FirstCycleInBudget(c, inputs[0], step);
    } else {
      RunInBudget(c, inputs, n - 1, step);
      CycleInBudget(c, Run(c, inputs, n - 1), inputs[n - 1], step);
      CycleClock(c, Run(c, inputs, n - 1), inputs[n - 1]);
    }
  }

  // ----- With torque headroom nothing is skipped -----

  // Every amplitude is one the run would probe at, and no dwell has been skipped.
  ghost predicate Plenty(s: State) {
    forall k | 0 <= k < |s.results| :: s.results[k].amp >= AMP_FLOOR && !s.results[k].skipped
  }

  lemma StartDwellPlenty(c: Config, s: State, k: nat, t: real, headroom: real, step: real)
    requires Budgeted(c, step) && |s.results| == |c.dwells| && k <= |c.dwells| && t <= Late(c, k, step)
    requires Plenty(s) && headroom >= AMP_FLOOR
    ensures Plenty(StartDwell(c, s, k, t, headroom))
  {
    if k < |c.dwells| { AdmittedWhenBudgeted(c, k, t, step); }
  }

  lemma ProbingPlenty(c: Config, s: State, t: real, i: Input, step: real)
    requires WellShaped(c, s) && s.clipRun == 0 && Uneventful(i) && Plenty(s)
    requires s.phase == RampIn || s.phase == Hold || s.phase == Measure
    ensures Plenty(InPhase(c, s, t, step, i))
  {
    hide ProbeTorque, SoftRemoval, DemodAdd, WindowPeriods;
  }

  lemma InRampOutPlenty(c: Config, s: State, t: real, i: Input, step: real)
    requires Budgeted(c, step) && WellShaped(c, s) && InBudget(c, s, t, step, step) && s.phase == RampOut
    requires Plenty(s) && i.headroom >= AMP_FLOOR
    ensures Plenty(InRampOut(c, s, t, step, i))
  {
    hide ProbeTorque, StartDwell, WindowPeriods, MeasuredBefore, Late;
    if t - s.phaseStart >= RAMP {
      LateNext(c, s.dwell, step);
      StartDwellPlenty(c, AfterRampOut(c, s, step, i), s.dwell + 1, t, i.headroom, step);
    }
  }

  lemma InPhasePlenty(c: Config, s: State, t: real, i: Input, step: real)
    requires Budgeted(c, step) && WellShaped(c, s) && InBudget(c, s, t, step, step) && Uneventful(i) && s.outcome == Running
    requires Plenty(s) && i.headroom >= AMP_FLOOR
    ensures Plenty(InPhase(c, s, t, step, i))
  {
    hide StartDwell, InRampIn, InHold, InMeasure, InRampOut, IdentSchedule.LeadIn;
    match s.phase
    case LeadIn => if t >= IdentSchedule.LeadIn(c.dwells) { StartDwellPlenty(c, s, 0, t, i.headroom, step); }
    case RampIn => ProbingPlenty(c, s, t, i, step);
    case Hold => ProbingPlenty(c, s, t, i, step);
    case Measure => ProbingPlenty(c, s, t, i, step);
    case RampOut => InRampOutPlenty(c, s, t, i, step);
    case _ =>
  }

  lemma CyclePlenty(c: Config, s: State, i: Input, step: real)
    requires Budgeted(c, step) && WellShaped(c, s) && Uneventful(i)
    requires s.tPrev >= 0.0 && InBudget(c, s, s.tPrev, step, 0.0) && (i.t == s.tPrev || i.t == s.tPrev + step)
    requires Plenty(s) && i.headroom >= AMP_FLOOR
    ensures Plenty(Cycle(c, s, i))
  {
    hide InPhase, Backstop, PhaseInBudget;
    PhaseIsNominal(c, s, s.tPrev, step);
    if i.t > s.tPrev && s.outcome == Running {
      var s1 := s.(tPrev := i.t);
      StepStretches(c, s, s.tPrev, step);
      BackstopSilent(c, s1, i.t, step);
      InPhasePlenty(c, s1, i.t, i, step);
    }
  }

  // What the schedule asks for, and the torque headroom of every cycle, are above the floor.
  ghost predicate Ample(c: Config, inputs: seq<Input>) {
    && (forall k | 0 <= k < |c.dwells| :: c.dwells[k].amp >= AMP_FLOOR)
    && (forall k | 0 <= k < |inputs| :: inputs[k].headroom >= AMP_FLOOR)
  }

  lemma {:induction false} RunPlenty(c: Config, inputs: seq<Input>, n: nat, step: real)
    requires Nominal(c, inputs, step) && Ample(c, inputs) && n <= |inputs|
    ensures Plenty(Run(c, inputs, n))
  {
    hide Cycle;
    NominalIsBudgeted(c, inputs, step);
    if n == 1 {
      assert Run(c, inputs, 0) == Initial(c);
      FirstCyclePlenty(c, inputs[0]);
    } else if n > 1 {
      RunPlenty(c, inputs, n - 1, step);
      RunInBudget(c, inputs, n - 1, step);
      CyclePlenty(c, Run(c, inputs, n - 1), inputs[n - 1], step);
    }
  }

  lemma FirstCyclePlenty(c: Config, i: Input)
    requires ValidConfig(c) && c.captureEnvelope <= 0.0 && Uneventful(i) && Plenty(Initial(c))
    ensures Plenty(Cycle(c, Initial(c), i))
  {
    hide Advance;
  }

  lemma CompletedUnlessSkipped(s: State, n: int)
    requires MeasuredBefore(s, n) && Plenty(s)
    ensures forall k | 0 <= k < n && k < |s.results| :: s.results[k].completed
  {
  }

  /** The admission promise. An accepted schedule whose setup kept to its allowance runs to
      completion when nothing is amiss: at every cycle the run is still running or completed, so
      that neither an admission nor the backstop has refused anything, and by the graceful-stop
      threshold it is completed. A completed run has every dwell completed or skipped, and with
      the amplitudes and the torque headroom at or above the floor every one of them completed;
      and a dwell is completed only by a measurement in full. */
  lemma AcceptedScheduleCompletes(c: Config, inputs: seq<Input>, n: nat, step: real)
    requires Nominal(c, inputs, step) && 0 < n <= |inputs|
    ensures var s := Run(c, inputs, n);
            && (s.outcome == Running || s.outcome == Completed)
            && (s.phase == Done <==> s.outcome == Completed)
            && (inputs[n - 1].t >= StopTime(c) ==> s.phase == Done)
            && (s.phase == Done ==> MeasuredBefore(s, |c.dwells|))
            && (s.phase == Done && Ample(c, inputs) ==>
                  forall k | 0 <= k < |c.dwells| :: s.results[k].completed && !s.results[k].skipped)
            && (forall k | 0 <= k < |c.dwells| && s.results[k].completed :: IdentWindow.FullyMeasured(c, inputs, n, k))
  {
    hide IdentWindow.FullyMeasured;
    var s := Run(c, inputs, n);
    IdentWindow.AllCompletedMeasured(c, inputs, n);
    RunInBudget(c, inputs, n, step);
    NominalIsBudgeted(c, inputs, step);
    if s.phase != Done { StillRunningIsEarly(c, s, inputs[n - 1].t, step); }
    if Ample(c, inputs) && s.phase == Done {
      RunPlenty(c, inputs, n, step);
      CompletedUnlessSkipped(s, |c.dwells|);
    }
  }

  lemma StillRunningIsEarly(c: Config, s: State, t: real, step: real)
    requires Budgeted(c, step) && WellShaped(c, s) && InBudget(c, s, t, step, 0.0) && s.phase != Done
    ensures t < StopTime(c)
  {
    hide Late, WindowSeconds, WindowTracks, WindowPeriods, MeasuredBefore, IdentSchedule.LeadIn;
    if s.phase == LeadIn {
      LeadInRoom(c, step);
    } else if s.phase == Measure {
      MeasureIsEarly(c, s, t, step, 0.0);
    } else if s.phase != FinalHold {
      RoomAfter(c, s.dwell, step);
    }
  }
}
