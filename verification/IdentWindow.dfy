/** apps/ident/ident_common.hpp: what a measured dwell is. Over the cycles of a run and the phases
    the probe reached in them: the hold before the window, its whole turns, and how many. */
module IdentWindow {
  import opened Basics
  import opened Products
  import opened IdentSchedule
  import opened IdentMachine

  // One sample of a measurement window: the probe phase, in turns, and whether the block that
  // ends there can be solved.
  datatype Sampled = Sampled(phi: real, solved: bool)

  // ----- Whole turns in a sequence of samples -----

  // Where block j begins; block j ends at sample ends[j].
  function Begin(ends: seq<nat>, j: nat): nat
    requires j <= |ends|
  {
    if j == 0 then 0 else ends[j - 1]
  }

  // Each block runs up to the first sample a whole turn past the boundary it began at.
  ghost predicate Turns(xs: seq<Sampled>, ends: seq<nat>) {
    forall j | 0 <= j < |ends| :: TurnAt(xs, ends, j)
  }

  ghost predicate TurnAt(xs: seq<Sampled>, ends: seq<nat>, j: nat)
    requires j < |ends|
  {
    && Begin(ends, j) < ends[j] < |xs|
    && xs[ends[j]].phi >= xs[0].phi + (j + 1) as real
    && forall i | Begin(ends, j) < i < ends[j] :: xs[i].phi < xs[0].phi + (j + 1) as real
  }

  // Five samples at least, and a solvable fit.
  predicate Counts(xs: seq<Sampled>, ends: seq<nat>, j: nat)
    requires j < |ends|
  {
    ends[j] < |xs| && ends[j] - Begin(ends, j) >= 5 && xs[ends[j]].solved
  }

  function Counted(xs: seq<Sampled>, ends: seq<nat>, n: nat): nat
    requires n <= |ends|
  {
    if n == 0 then 0 else Counted(xs, ends, n - 1) + if Counts(xs, ends, n - 1) then 1 else 0
  }

  lemma {:induction false} CountedStays(xs: seq<Sampled>, ys: seq<Sampled>, ends: seq<nat>, more: seq<nat>, n: nat)
    requires n <= |ends| && Turns(xs, ends) && xs <= ys && ends <= more
    ensures Counted(ys, more, n) == Counted(xs, ends, n) <= n
  {
    if n > 0 {
      CountedStays(xs, ys, ends, more, n - 1);
      assert TurnAt(xs, ends, n - 1);
      assert Begin(more, n - 1) == Begin(ends, n - 1);
    }
  }

  // The counter's state after these samples, with the blocks ended so far.
  ghost predicate Holds(d: Demod, xs: seq<Sampled>, ends: seq<nat>) {
    && Turns(xs, ends) && (xs == [] ==> d == FRESH_DEMOD && ends == [])
    && d.blocks == Counted(xs, ends, |ends|)
    && (xs != [] ==> d.primed && d.start == xs[0].phi + |ends| as real && Begin(ends, |ends|) < |xs|
                     && d.samples == |xs| - Begin(ends, |ends|)
                     && forall i | Begin(ends, |ends|) < i < |xs| :: xs[i].phi < xs[0].phi + (|ends| + 1) as real)
  }

  lemma TurnsStay(xs: seq<Sampled>, ends: seq<nat>, x: Sampled)
    requires Turns(xs, ends)
    ensures Turns(xs + [x], ends)
  {
    forall j | 0 <= j < |ends| ensures TurnAt(xs + [x], ends, j) { assert TurnAt(xs, ends, j); }
  }

  // One more sample, which may end a block.
  lemma OneMoreSample(d: Demod, xs: seq<Sampled>, ends: seq<nat>, x: Sampled) returns (ends': seq<nat>)
    requires Holds(d, xs, ends)
    ensures Holds(DemodAdd(d, x.phi, x.solved), xs + [x], ends')
  {
    var ys := xs + [x];
    TurnsStay(xs, ends, x);
    CountedStays(xs, ys, ends, ends, |ends|);
    if xs == [] || x.phi - d.start < 1.0 {
      ends' := ends;
    } else {
      ends' := ends + [|xs|];
      NewTurn(xs, ends, x);
      CountedStays(xs, ys, ends, ends', |ends|);
      assert Begin(ends', |ends|) == Begin(ends, |ends|);
    }
  }

  lemma NewTurn(xs: seq<Sampled>, ends: seq<nat>, x: Sampled)
    requires Turns(xs, ends) && xs != [] && Begin(ends, |ends|) < |xs|
    requires x.phi >= xs[0].phi + (|ends| + 1) as real
    requires forall i | Begin(ends, |ends|) < i < |xs| :: xs[i].phi < xs[0].phi + (|ends| + 1) as real
    ensures Turns(xs + [x], ends + [|xs|])
  {
    var ys, more := xs + [x], ends + [|xs|];
    forall j | 0 <= j < |more| ensures TurnAt(ys, more, j) {
      assert Begin(more, j) == Begin(ends, j);
      if j < |ends| { assert TurnAt(xs, ends, j); }
    }
  }

  // ----- Cycles into, within and out of the hold and the window -----

  // A cycle the controller advances in.
  predicate Fresh(s: State, i: Input) {
    0.0 <= s.tPrev < i.t
  }

  // Past the first cycle of a capture.
  predicate Begun(s: State) {
    s.phase == Capture ==> s.capture.begun
  }

  lemma NotFresh(c: Config, s: State, i: Input)
    requires WellShaped(c, s) && !Fresh(s, i) && Begun(s)
    ensures var s' := Cycle(c, s, i);
            Unmoved(s, s') && s'.probe.phi == s.probe.phi && s'.tPrev == if s.tPrev < 0.0 then i.t else s.tPrev
  {
    hide Advance;
  }

  // Phase, hold, window and results are as they were.
  predicate Unmoved(s: State, s': State) {
    s'.phase == s.phase && s'.window == s.window && s'.dwell == s.dwell && s'.holdStart == s.holdStart && s'.results == s.results
  }

  // What an advancing cycle does before and after the phase itself.
  lemma Advances(c: Config, s: State, i: Input) returns (b: State, p: State)
    requires WellShaped(c, s) && Accounted(c, s) && Fresh(s, i) && s.outcome != HardFault && Begun(s) && s.phase != Done
    requires s.outcome == Running ==> !i.fault
    ensures b == Backstop(c, s.(tPrev := i.t), i.t) && WellShaped(c, b)
    ensures p == InPhase(c, b, i.t, i.t - s.tPrev, i)
    ensures var s' := Cycle(c, s, i);
            && s'.phase == p.phase && s'.window == p.window && s'.dwell == p.dwell && s'.holdStart == p.holdStart
            && s'.results == p.results && s'.probe.phi == p.probe.phi && s'.tPrev == p.tPrev
            && (s'.outcome != HardFault ==> s'.outcome == p.outcome)
  {
    hide InPhase, Backstop;
    BackstopShape(c, s.(tPrev := i.t), i.t);
    b := Backstop(c, s.(tPrev := i.t), i.t);
    p := InPhase(c, b, i.t, i.t - s.tPrev, i);
  }

  // A fault leaves the phase where it is, for good.
  lemma FaultStays(c: Config, s: State, i: Input)
    requires WellShaped(c, s) && Fresh(s, i) && Begun(s) && (s.outcome == HardFault || (s.outcome == Running && i.fault))
    ensures Unmoved(s, Cycle(c, s, i)) && Cycle(c, s, i).outcome == HardFault
  {
  }

  lemma BackstopKeeps(c: Config, s: State, t: real)
    requires WellShaped(c, s)
    ensures var b := Backstop(c, s, t);
            && (b == s || (b.phase == KillRamp && InDwell(s.phase)) || b.phase == FinalHold)
            && b.dwell == s.dwell && b.window == s.window && b.holdStart == s.holdStart && b.probe.phi == s.probe.phi
            && |b.results| == |s.results| && forall k | 0 <= k < |s.results| :: b.results[k].completed == s.results[k].completed
  {
  }

  // StartDwell marks no dwell completed, and grants a window.
  lemma {:induction false} StartDwellGrants(c: Config, s: State, k: nat, t: real, headroom: real)
    requires PositiveFrequencies(c.dwells) && |s.results| == |c.dwells| && k <= |c.dwells|
    ensures var s' := StartDwell(c, s, k, t, headroom);
            && (s'.phase == RampIn || s'.phase == FinalHold)
            && (s'.phase == RampIn ==> Granted(c, s'))
            && |s'.results| == |s.results| && forall j | 0 <= j < |s.results| :: s'.results[j].completed == s.results[j].completed
    decreases |c.dwells| - k
  {
    hide WorstOnward, WindowSeconds;
    if k < |c.dwells| && Admits(c, t, WorstOnward(c, k)) && Min(s.results[k].amp, headroom) < AMP_FLOOR {
      StartDwellGrants(c, NoRetry(s).(dwell := k, results := s.results[k := s.results[k].(skipped := true)]), k + 1, t, headroom);
    }
  }

  // The window is the base one, or the extension asked for.
  ghost predicate Granted(c: Config, s: State) {
    0 <= s.dwell < |c.dwells| && (s.window.mult == 1 || (s.window.mult == c.dwells[s.dwell].windowMult > 1))
  }

  ghost predicate GrantedIn(c: Config, s: State) {
    InDwell(s.phase) ==> Granted(c, s)
  }

  // What a phase's cycle may do to the hold, the window and the dwells completed.
  ghost predicate PhaseStep(c: Config, s: State, s': State, t: real, dt: real, i: Input)
    requires WellShaped(c, s)
  {
    && |s'.results| == |s.results|
    && (GrantedIn(c, s) ==> GrantedIn(c, s'))
    && (s'.phase == Hold ==>
          || (s.phase == Hold && s'.holdStart == s.holdStart && s'.dwell == s.dwell)
          || (s.phase == RampIn && t - s.phaseStart >= 0.5 && s'.holdStart == t && s'.dwell == s.dwell))
    && (s'.phase == Measure ==> s.phase == Hold || s.phase == Measure)
    && (s'.phase == RampOut ==> s.phase == Measure || s.phase == RampOut)
    && (s.phase == Hold && s'.phase == Measure ==>
          && t - s.holdStart >= 1.0 && (i.converged || t - s.holdStart >= 4.0)
          && s'.window == Window(t, s.window.mult, FRESH_DEMOD) && s'.dwell == s.dwell)
    && (s.phase == Measure && (s'.phase == Measure || s'.phase == RampOut) ==>
          && s'.dwell == s.dwell && s'.window.mult == s.window.mult && s'.window.start == s.window.start
          && s'.probe.phi == s.probe.phi + Mul(c.dwells[s.dwell].freq, dt)
          && s'.window.demod == DemodAdd(s.window.demod, s'.probe.phi, i.solved))
    && (s.phase == Measure && s'.phase == RampOut ==>
          s'.window.demod.blocks >= WindowPeriods(c.dwells[s.dwell].freq) * s'.window.mult)
    && (forall k | 0 <= k < |s.results| ::
          s'.results[k].completed == (s.results[k].completed || (k == s.dwell && s.phase == Measure && s'.phase == RampOut)))
  }

  // A soft event's removal of the probe.
  lemma Removed(s: State, t: real)
    requires 0 <= s.dwell < |s.results|
    ensures var r := SoftRemoval(s, t);
            && (r.phase == KillRamp || r.phase == ReSettle) && r.dwell == s.dwell && r.window == s.window
            && r.holdStart == s.holdStart && r.clipRun == s.clipRun && |r.results| == |s.results|
            && r.results[s.dwell].softEvents == s.results[s.dwell].softEvents + 1
            && forall k | 0 <= k < |s.results| :: r.results[k].completed == s.results[k].completed
  {
  }

  lemma RampInStep(c: Config, s: State, t: real, dt: real, i: Input)
    requires WellShaped(c, s) && s.phase == RampIn
    ensures PhaseStep(c, s, InRampIn(c, s, t, dt, i), t, dt, i)
  {
    hide ProbeTorque, DemodAdd, WindowPeriods, ValidConfig, SoftRemoval, SoftEvent;
    Removed(EmitProbe(Turn(c, s, dt), 0.5 * (1.0 - i.cosine), i.sine), t);
  }

  lemma HoldStep(c: Config, s: State, t: real, dt: real, i: Input)
    requires WellShaped(c, s) && s.phase == Hold
    ensures PhaseStep(c, s, InHold(c, s, t, dt, i), t, dt, i)
  {
    hide ProbeTorque, DemodAdd, WindowPeriods, ValidConfig, SoftRemoval, SoftEvent;
    Removed(EmitProbe(Turn(c, s, dt), 1.0, i.sine), t);
  }

  lemma MeasureStep(c: Config, s: State, t: real, dt: real, i: Input)
    requires WellShaped(c, s) && s.phase == Measure
    ensures PhaseStep(c, s, InMeasure(c, s, t, dt, i), t, dt, i)
  {
    hide ProbeTorque, DemodAdd, WindowPeriods, ValidConfig, SoftRemoval, SoftEvent;
    assert Mul(c.dwells[s.dwell].freq, dt) == c.dwells[s.dwell].freq * dt;
    hide Mul;
    var s0 := EmitProbe(Turn(c, s, dt), 1.0, i.sine);
    Removed(s0.(window := s.window.(demod := DemodAdd(s.window.demod, s0.probe.phi, i.solved))), t);
  }

  lemma RampOutStep(c: Config, s: State, t: real, dt: real, i: Input)
    requires WellShaped(c, s) && s.phase == RampOut
    ensures PhaseStep(c, s, InRampOut(c, s, t, dt, i), t, dt, i)
  {
    hide StartDwell, InRampOut, AfterRampOut;
    InRampOutSplits(c, s, t, dt, i);
    if t - s.phaseStart >= RAMP { StartDwellGrants(c, AfterRampOut(c, s, dt, i), s.dwell + 1, t, i.headroom); }
  }

  lemma KillRampStep(c: Config, s: State, t: real, dt: real, i: Input)
    requires WellShaped(c, s) && s.phase == KillRamp
    ensures PhaseStep(c, s, InKillRamp(c, s, t, dt, i), t, dt, i)
  {
    hide ProbeTorque, KillEnvelope, DemodAdd, WindowPeriods, ValidConfig;
  }

  lemma ReSettleStep(c: Config, s: State, t: real, i: Input, dt: real)
    requires WellShaped(c, s) && s.phase == ReSettle
    ensures PhaseStep(c, s, InReSettle(c, s, t, i), t, dt, i)
  {
    hide StartDwell, Admits, WorstOnward, DemodAdd, WindowPeriods;
    StartDwellGrants(c, NoRetry(NoProbe(s)), s.dwell + 1, t, i.headroom);
  }

  lemma AnyStep(c: Config, s: State, t: real, dt: real, i: Input)
    requires WellShaped(c, s)
    ensures PhaseStep(c, s, InPhase(c, s, t, dt, i), t, dt, i)
  {
    match s.phase
    case RampIn => RampInStep(c, s, t, dt, i);
    case Hold => HoldStep(c, s, t, dt, i);
    case Measure => MeasureStep(c, s, t, dt, i);
    case RampOut => RampOutStep(c, s, t, dt, i);
    case KillRamp => KillRampStep(c, s, t, dt, i);
    case ReSettle => ReSettleStep(c, s, t, i, dt);
    case LeadIn => LeadInStep(c, s, t, dt, i);
    case _ => OtherStep(c, s, t, dt, i);
  }

  lemma LeadInStep(c: Config, s: State, t: real, dt: real, i: Input)
    requires WellShaped(c, s) && s.phase == LeadIn
    ensures PhaseStep(c, s, InPhase(c, s, t, dt, i), t, dt, i)
  {
    hide StartDwell, IdentSchedule.LeadIn, DemodAdd, WindowPeriods;
    StartDwellGrants(c, s, 0, t, i.headroom);
  }

  lemma OtherStep(c: Config, s: State, t: real, dt: real, i: Input)
    requires WellShaped(c, s) && (s.phase == Capture || s.phase == HoldDiag || s.phase == FinalHold || s.phase == Done)
    ensures PhaseStep(c, s, InPhase(c, s, t, dt, i), t, dt, i)
  {
    hide DemodAdd, WindowPeriods;
  }

  // What a whole cycle may do to them.
  ghost predicate CycleStep(c: Config, s: State, s': State, i: Input)
    requires WellShaped(c, s)
  {
    && |s'.results| == |s.results|
    && (GrantedIn(c, s) ==> GrantedIn(c, s'))
    && (s'.phase == Hold ==>
          || (s.phase == Hold && s'.holdStart == s.holdStart && s'.dwell == s.dwell)
          || (s.phase == RampIn && i.t - s.phaseStart >= 0.5 && s'.holdStart == i.t && s'.dwell == s.dwell))
    && (s'.phase == Measure ==> s.phase == Hold || s.phase == Measure)
    && (s.phase == Hold && s'.phase == Measure ==>
          && Fresh(s, i) && i.t - s.holdStart >= 1.0 && (i.converged || i.t - s.holdStart >= 4.0)
          && s'.window == Window(i.t, s.window.mult, FRESH_DEMOD) && s'.dwell == s.dwell && s'.tPrev == i.t)
    && (s.phase == Measure && s'.phase == Measure && s'.outcome != HardFault && !Fresh(s, i) ==>
          s'.window == s.window && s'.dwell == s.dwell && s'.probe.phi == s.probe.phi && (s.tPrev >= 0.0 ==> s'.tPrev == s.tPrev))
    && (s.phase == Measure && s'.phase == Measure && s'.outcome != HardFault && Fresh(s, i) ==> Sampling(c, s, s', i))
    && (s.phase == Measure && s'.phase == RampOut ==>
          && Fresh(s, i) && Sampling(c, s, s', i)
          && s'.window.demod.blocks >= WindowPeriods(c.dwells[s.dwell].freq) * s'.window.mult)
    && (s.outcome == HardFault ==> s'.outcome == HardFault)
    && (forall k | 0 <= k < |s.results| ::
          s'.results[k].completed == (s.results[k].completed || (k == s.dwell && s.phase == Measure && s'.phase == RampOut)))
  }

  // The probe turns for the time passed, and its phase is sampled.
  ghost predicate Sampling(c: Config, s: State, s': State, i: Input)
    requires WellShaped(c, s) && s.phase == Measure
  {
    && s'.dwell == s.dwell && s'.window.mult == s.window.mult && s'.window.start == s.window.start && s'.tPrev == i.t
    && s'.probe.phi == s.probe.phi + Mul(c.dwells[s.dwell].freq, i.t - s.tPrev)
    && s'.window.demod == DemodAdd(s.window.demod, s'.probe.phi, i.solved)
  }

  // A capture's first cycle is that of the capture begun.
  lemma CaptureBegins(c: Config, s: State, i: Input)
    requires WellShaped(c, s) && s.phase == Capture
    ensures var s0 := BeginCapture(c, s, i);
            && WellShaped(c, s0) && Begun(s0) && Cycle(c, s0, i) == Cycle(c, s, i)
            && Unmoved(s, s0) && s0.tPrev == s.tPrev && (s0.outcome == s.outcome || s0.outcome == HardFault)
  {
    hide Advance;
  }

  lemma DoneCycle(c: Config, s: State, i: Input)
    requires WellShaped(c, s) && s.phase == Done
    ensures CycleStep(c, s, Cycle(c, s, i), i)
  {
    hide DemodAdd, WindowPeriods, StartDwell, MarkRest;
  }

  // What the phase left, the rest of the cycle leaves.
  predicate Left(p: State, s': State) {
    && s'.phase == p.phase && s'.window == p.window && s'.dwell == p.dwell && s'.holdStart == p.holdStart
    && s'.results == p.results && s'.probe.phi == p.probe.phi && s'.tPrev == p.tPrev
  }

  lemma StepLifts(c: Config, s: State, p: State, s': State, i: Input)
    requires WellShaped(c, s) && Fresh(s, i) && s.outcome != HardFault && Left(p, s') && p.tPrev == i.t
    requires WellShaped(c, s.(tPrev := i.t)) && PhaseStep(c, s.(tPrev := i.t), p, i.t, i.t - s.tPrev, i)
    ensures CycleStep(c, s, s', i)
  {
    hide DemodAdd, WindowPeriods, Mul, WellShaped;
  }

  // The backstop has taken over.
  lemma StoppedStep(c: Config, s: State, b: State, p: State, s': State, i: Input)
    requires WellShaped(c, s) && WellShaped(c, b) && s.outcome != HardFault && Left(p, s')
    requires (b.phase == KillRamp && InDwell(s.phase)) || b.phase == FinalHold
    requires b.dwell == s.dwell && b.window == s.window && |b.results| == |s.results|
    requires forall k | 0 <= k < |s.results| :: b.results[k].completed == s.results[k].completed
    requires PhaseStep(c, b, p, i.t, i.t - s.tPrev, i)
    ensures CycleStep(c, s, s', i)
  {
    hide DemodAdd, WindowPeriods, Mul, WellShaped;
  }

  lemma AdvancingCycle(c: Config, s: State, i: Input)
    requires WellShaped(c, s) && Accounted(c, s) && Fresh(s, i) && s.outcome != HardFault && Begun(s) && s.phase != Done
    requires s.outcome == Running ==> !i.fault
    ensures CycleStep(c, s, Cycle(c, s, i), i)
  {
    hide InPhase, Backstop, Cycle, Accounted, DemodAdd, WindowPeriods, PhaseStep, CycleStep;
    var b, p := Advances(c, s, i);
    var s1 := s.(tPrev := i.t);
    BackstopKeeps(c, s1, i.t);
    AnyStep(c, b, i.t, i.t - s.tPrev, i);
    InPhaseKeepsClock(c, b, i.t, i.t - s.tPrev, i);
    AdvanceClock(c, s, i, b);
    if b == s1 { StepLifts(c, s, p, Cycle(c, s, i), i); } else { StoppedStep(c, s, b, p, Cycle(c, s, i), i); }
  }

  lemma AdvanceClock(c: Config, s: State, i: Input, b: State)
    requires b == Backstop(c, s.(tPrev := i.t), i.t)
    ensures b.tPrev == i.t
  {
  }

  lemma AnyCycle(c: Config, s: State, i: Input)
    requires WellShaped(c, s) && Accounted(c, s)
    ensures CycleStep(c, s, Cycle(c, s, i), i)
  {
    hide Advance, Cycle, DemodAdd, WindowPeriods, CycleStep, Accounted;
    if s.phase == Capture {
      var s0 := BeginCapture(c, s, i);
      CaptureBegins(c, s, i);
      BeginAccounted(c, s, i);
      BegunCycle(c, s0, i);
      BegunStep(c, s, s0, Cycle(c, s, i), i);
    } else {
      BegunCycle(c, s, i);
    }
  }

  lemma BegunStep(c: Config, s: State, s0: State, s': State, i: Input)
    requires WellShaped(c, s) && WellShaped(c, s0) && s.phase == Capture && Unmoved(s, s0)
    requires s0.outcome == s.outcome || s0.outcome == HardFault
    requires CycleStep(c, s0, s', i)
    ensures CycleStep(c, s, s', i)
  {
    hide DemodAdd, WindowPeriods;
  }

  lemma BegunCycle(c: Config, s: State, i: Input)
    requires WellShaped(c, s) && Accounted(c, s) && Begun(s)
    ensures CycleStep(c, s, Cycle(c, s, i), i)
  {
    hide Advance, Cycle, DemodAdd, WindowPeriods, CycleStep, Accounted;
    if s.phase == Done {
      DoneCycle(c, s, i);
    } else if !Fresh(s, i) {
      NotFresh(c, s, i);
      UnmovedStep(c, s, i);
    } else if s.outcome == HardFault || (s.outcome == Running && i.fault) {
      FaultStays(c, s, i);
      UnmovedStep(c, s, i);
    } else {
      AdvancingCycle(c, s, i);
    }
  }

  lemma UnmovedStep(c: Config, s: State, i: Input)
    requires WellShaped(c, s) && Unmoved(s, Cycle(c, s, i)) && Begun(s)
    requires Fresh(s, i) ==> Cycle(c, s, i).outcome == HardFault
    ensures CycleStep(c, s, Cycle(c, s, i), i)
  {
    hide Cycle, DemodAdd, WindowPeriods;
    if !Fresh(s, i) { NotFresh(c, s, i); }
    if s.outcome == HardFault { FaultRemains(c, s, i); }
  }

  lemma FaultRemains(c: Config, s: State, i: Input)
    requires WellShaped(c, s) && s.outcome == HardFault
    ensures Cycle(c, s, i).outcome == HardFault
  {
  }

  // ----- A window along a run -----

  // The samples of the cycles from a on, up to cycle b.
  ghost function SamplesOf(c: Config, inputs: seq<Input>, a: nat, b: nat): seq<Sampled>
    requires ValidConfig(c) && b <= |inputs|
    decreases b
  {
    if b <= a then []
    else
      var before := SamplesOf(c, inputs, a, b - 1);
      if Fresh(Run(c, inputs, b - 1), inputs[b - 1]) then before + [Sampled(Run(c, inputs, b).probe.phi, inputs[b - 1].solved)]
      else before
  }

  // The hold was entered by cycle v and held to cycle n.
  ghost predicate HeldFrom(c: Config, inputs: seq<Input>, v: nat, n: nat, dwell: int)
    requires ValidConfig(c) && n <= |inputs|
  {
    && v < n && Run(c, inputs, v).phase == RampIn && Run(c, inputs, n).holdStart == inputs[v].t
    && forall k | v < k <= n :: Run(c, inputs, k).phase == Hold && Run(c, inputs, k).dwell == dwell
  }

  // The window was entered by cycle w, out of a hold of 1 s at least, and 4 s without convergence,
  // and went on to cycle n.
  ghost predicate WindowFrom(c: Config, inputs: seq<Input>, w: nat, n: nat, dwell: int)
    requires ValidConfig(c) && n <= |inputs|
  {
    && w < n && 0.0 <= inputs[w].t
    && (exists v: nat :: HeldFrom(c, inputs, v, w, dwell) && inputs[w].t - inputs[v].t >= 1.0
                         && (inputs[w].converged || inputs[w].t - inputs[v].t >= 4.0))
    && forall k | w < k <= n :: Run(c, inputs, k).phase == Measure && Run(c, inputs, k).dwell == dwell
  }

  lemma {:induction false} HoldEntered(c: Config, inputs: seq<Input>, n: nat) returns (v: nat)
    requires ValidConfig(c) && n <= |inputs| && Run(c, inputs, n).phase == Hold
    ensures HeldFrom(c, inputs, v, n, Run(c, inputs, n).dwell)
  {
    hide Cycle, WellShaped, Accounted;
    var s, s' := Run(c, inputs, n - 1), Run(c, inputs, n);
    RunAccounted(c, inputs, n - 1);
    AnyCycle(c, s, inputs[n - 1]);
    if s.phase == Hold { v := HoldEntered(c, inputs, n - 1); } else { v := n - 1; }
  }

  // A window begun at t0 with the probe at phi0 agrees with its samples, and the probe has turned
  // for the time since.
  ghost predicate Agree(s: State, f: real, phi0: real, t0: real, xs: seq<Sampled>, ends: seq<nat>) {
    && Holds(s.window.demod, xs, ends) && s.tPrev >= t0 && s.probe.phi == phi0 + Mul(f, s.tPrev - t0)
    && forall j | 0 <= j < |xs| :: phi0 <= xs[j].phi <= s.probe.phi
  }

  ghost predicate InStep(c: Config, inputs: seq<Input>, w: nat, n: nat, ends: seq<nat>)
    requires ValidConfig(c) && w < n <= |inputs| && 0 <= Run(c, inputs, n).dwell < |c.dwells|
  {
    Agree(Run(c, inputs, n), c.dwells[Run(c, inputs, n).dwell].freq, Run(c, inputs, w + 1).probe.phi, inputs[w].t,
          SamplesOf(c, inputs, w + 1, n), ends)
  }

  // The probe turns forward.
  lemma TurnsOn(f: real, a: real, b: real)
    requires f > 0.0 && a >= 0.0 && b >= 0.0
    ensures Mul(f, a + b) == Mul(f, a) + Mul(f, b) && Mul(f, a) >= 0.0 && Mul(f, b) >= 0.0 && Mul(f, 0.0) == 0.0
  {
    hide Mul;
    MulSwaps(f, a + b);
    MulSwaps(f, a);
    MulSwaps(f, b);
    MulSwaps(f, 0.0);
    MulAdds(a, b, f);
    MulUnits(f);
    MulSign(f, a);
    MulSign(f, b);
  }

  // One more sample, whether the window goes on or ends with it.
  lemma SampleAgrees(s: State, s': State, i: Input, f: real, phi0: real, t0: real, xs: seq<Sampled>, ends: seq<nat>)
    returns (ends': seq<nat>)
    requires f > 0.0 && Agree(s, f, phi0, t0, xs, ends) && Fresh(s, i) && s'.tPrev == i.t
    requires s'.probe.phi == s.probe.phi + Mul(f, i.t - s.tPrev)
    requires s'.window.demod == DemodAdd(s.window.demod, s'.probe.phi, i.solved)
    ensures Agree(s', f, phi0, t0, xs + [Sampled(s'.probe.phi, i.solved)], ends')
  {
    hide Holds, DemodAdd, Mul;
    ends' := OneMoreSample(s.window.demod, xs, ends, Sampled(s'.probe.phi, i.solved));
    TurnsOn(f, s.tPrev - t0, i.t - s.tPrev);
    assert (s.tPrev - t0) + (i.t - s.tPrev) == i.t - t0;
  }

  // A cycle that is no fresh one leaves it all.
  lemma StillAgrees(s: State, s': State, f: real, phi0: real, t0: real, xs: seq<Sampled>, ends: seq<nat>)
    requires Agree(s, f, phi0, t0, xs, ends) && s'.tPrev == s.tPrev && s'.probe.phi == s.probe.phi && s'.window == s.window
    ensures Agree(s', f, phi0, t0, xs, ends)
  {
    hide Holds, Mul;
  }

  lemma StartAgrees(s: State, f: real, t0: real)
    requires f > 0.0 && s.window.demod == FRESH_DEMOD && s.tPrev == t0
    ensures Agree(s, f, s.probe.phi, t0, [], [])
  {
    TurnsOn(f, 0.0, 0.0);
  }

  lemma {:induction false} WindowEntered(c: Config, inputs: seq<Input>, n: nat) returns (w: nat, ends: seq<nat>)
    requires ValidConfig(c) && n <= |inputs| && Run(c, inputs, n).phase == Measure && Run(c, inputs, n).outcome != HardFault
    ensures WindowFrom(c, inputs, w, n, Run(c, inputs, n).dwell) && InStep(c, inputs, w, n, ends)
  {
    hide Cycle, Accounted, Agree, DemodAdd, Mul, WindowFrom, WindowPeriods;
    assert n > 0 by { if n == 0 { StartsElsewhere(c, inputs); } }
    var s, s', i := Run(c, inputs, n - 1), Run(c, inputs, n), inputs[n - 1];
    RunAccounted(c, inputs, n - 1);
    AnyCycle(c, s, i);
    if s.phase == Hold {
      w, ends := n - 1, [];
      WindowBegins(c, inputs, n);
      StartAgrees(s', c.dwells[s'.dwell].freq, i.t);
    } else {
      w, ends := WindowEntered(c, inputs, n - 1);
      StaysInWindow(c, inputs, w, n, s'.dwell);
      var f, phi0, t0, xs := c.dwells[s'.dwell].freq, Run(c, inputs, w + 1).probe.phi, inputs[w].t, SamplesOf(c, inputs, w + 1, n - 1);
      if Fresh(s, i) {
        ends := SampleAgrees(s, s', i, f, phi0, t0, xs, ends);
      } else {
        AgreeTime(s, f, phi0, t0, xs, ends);
        StillAgrees(s, s', f, phi0, t0, xs, ends);
      }
    }
  }

  lemma AgreeTime(s: State, f: real, phi0: real, t0: real, xs: seq<Sampled>, ends: seq<nat>)
    requires Agree(s, f, phi0, t0, xs, ends)
    ensures s.tPrev >= t0
  {
  }

  lemma StartsElsewhere(c: Config, inputs: seq<Input>)
    requires ValidConfig(c)
    ensures Run(c, inputs, 0).phase == Capture || Run(c, inputs, 0).phase == LeadIn
  {
  }

  lemma WindowBegins(c: Config, inputs: seq<Input>, n: nat)
    requires ValidConfig(c) && 0 < n <= |inputs| && Run(c, inputs, n).phase == Measure
    requires Run(c, inputs, n - 1).phase == Hold && CycleStep(c, Run(c, inputs, n - 1), Run(c, inputs, n), inputs[n - 1])
    ensures WindowFrom(c, inputs, n - 1, n, Run(c, inputs, n).dwell)
  {
    hide Run, DemodAdd, WindowPeriods, Mul;
    var v := HoldEntered(c, inputs, n - 1);
    assert HeldFrom(c, inputs, v, n - 1, Run(c, inputs, n).dwell);
  }

  lemma StaysInWindow(c: Config, inputs: seq<Input>, w: nat, n: nat, dwell: int)
    requires ValidConfig(c) && 0 < n <= |inputs| && WindowFrom(c, inputs, w, n - 1, dwell)
    requires Run(c, inputs, n).phase == Measure && Run(c, inputs, n).dwell == dwell
    ensures WindowFrom(c, inputs, w, n, dwell) && w < n - 1 && 0.0 <= inputs[w].t
  {
    hide Run, HeldFrom;
  }

  // ----- A measured dwell -----

  /** Cycle m ended a measurement of the dwell: entered by cycle w after the hold, its samples made
      whole turns of the probe, of which those of five samples and a solvable fit are counted;
      the count is the periods asked for, and the probe turned at least that often since. */
  ghost predicate MeasuredBy(c: Config, inputs: seq<Input>, w: nat, m: nat, dwell: nat, ends: seq<nat>)
    requires ValidConfig(c) && m < |inputs| && dwell < |c.dwells|
  {
    var f, mult, xs := c.dwells[dwell].freq, Run(c, inputs, m + 1).window.mult, SamplesOf(c, inputs, w + 1, m + 1);
    && WindowFrom(c, inputs, w, m, dwell) && Run(c, inputs, m + 1).phase == RampOut
    && (mult == 1 || mult == c.dwells[dwell].windowMult > 1)
    && Turns(xs, ends) && Counted(xs, ends, |ends|) >= WindowPeriods(f) * mult
    && Mul(f, inputs[m].t - inputs[w].t) >= Counted(xs, ends, |ends|) as real
  }

  ghost predicate FullyMeasured(c: Config, inputs: seq<Input>, n: nat, dwell: nat)
    requires ValidConfig(c) && n <= |inputs| && dwell < |c.dwells|
  {
    exists w: nat, m: nat, ends :: m < n && MeasuredBy(c, inputs, w, m, dwell, ends)
  }

  /** The periods asked for are max(10, 3 f), to 1e-9, rounded up. */
  lemma PeriodsRoundUp(f: real)
    ensures var n := WindowPeriods(f);
            n >= 10 && n as real >= 3.0 * f - 0.000000001
            && ((n - 1) as real < 10.0 - 0.000000001 || (n - 1) as real < 3.0 * f - 0.000000001)
  {
  }

  lemma {:induction false} RunGranted(c: Config, inputs: seq<Input>, n: nat)
    requires ValidConfig(c) && n <= |inputs|
    ensures GrantedIn(c, Run(c, inputs, n))
  {
    hide Cycle, Accounted;
    if n > 0 {
      RunGranted(c, inputs, n - 1);
      RunAccounted(c, inputs, n - 1);
      AnyCycle(c, Run(c, inputs, n - 1), inputs[n - 1]);
    }
  }

  // The turns made are no more than the time passed allows.
  lemma TurnsTakeTime(s: State, f: real, phi0: real, t0: real, xs: seq<Sampled>, ends: seq<nat>)
    requires f > 0.0 && Agree(s, f, phi0, t0, xs, ends)
    ensures Turns(xs, ends) && s.window.demod.blocks == Counted(xs, ends, |ends|)
    ensures Mul(f, s.tPrev - t0) >= Counted(xs, ends, |ends|) as real
  {
    hide Mul;
    CountedStays(xs, xs, ends, ends, |ends|);
    TurnsOn(f, s.tPrev - t0, 0.0);
    if ends != [] { assert TurnAt(xs, ends, |ends| - 1); }
  }

  lemma EndsMeasured(c: Config, inputs: seq<Input>, n: nat) returns (w: nat, ends: seq<nat>)
    requires ValidConfig(c) && 0 < n <= |inputs|
    requires Run(c, inputs, n - 1).phase == Measure && Run(c, inputs, n).phase == RampOut && Run(c, inputs, n - 1).outcome != HardFault
    ensures MeasuredBy(c, inputs, w, n - 1, Run(c, inputs, n - 1).dwell, ends)
  {
    hide Cycle, Accounted, Agree, DemodAdd, Mul, WindowPeriods, Turns, Counted, WindowFrom;
    var s, s', i := Run(c, inputs, n - 1), Run(c, inputs, n), inputs[n - 1];
    RunAccounted(c, inputs, n - 1);
    AnyCycle(c, s, i);
    RunGranted(c, inputs, n);
    w, ends := WindowEntered(c, inputs, n - 1);
    assert w + 1 <= n - 1 by { WindowBefore(c, inputs, w, n - 1, s.dwell); }
    var f, phi0, t0, xs := c.dwells[s.dwell].freq, Run(c, inputs, w + 1).probe.phi, inputs[w].t, SamplesOf(c, inputs, w + 1, n - 1);
    ends := SampleAgrees(s, s', i, f, phi0, t0, xs, ends);
    TurnsTakeTime(s', f, phi0, t0, xs + [Sampled(s'.probe.phi, i.solved)], ends);
  }

  lemma WindowBefore(c: Config, inputs: seq<Input>, w: nat, n: nat, dwell: int)
    requires ValidConfig(c) && n <= |inputs| && WindowFrom(c, inputs, w, n, dwell)
    ensures w < n
  {
  }

  /** Along every run a dwell is completed only by a measurement that was made in full. */
  lemma {:induction false} CompletedIsMeasured(c: Config, inputs: seq<Input>, n: nat, dwell: nat)
    requires ValidConfig(c) && n <= |inputs| && dwell < |c.dwells| && Run(c, inputs, n).results[dwell].completed
    ensures FullyMeasured(c, inputs, n, dwell)
  {
    hide Cycle, Accounted, MeasuredBy;
    if n > 0 {
      var s := Run(c, inputs, n - 1);
      RunAccounted(c, inputs, n - 1);
      AnyCycle(c, s, inputs[n - 1]);
      if s.results[dwell].completed {
        CompletedIsMeasured(c, inputs, n - 1, dwell);
        var w: nat, m: nat, ends :| m < n - 1 && MeasuredBy(c, inputs, w, m, dwell, ends);
      } else {
        if s.outcome == HardFault { FaultHoldsPhase(c, s, inputs[n - 1]); }
        var w, ends := EndsMeasured(c, inputs, n);
      }
    }
  }

  lemma FaultHoldsPhase(c: Config, s: State, i: Input)
    requires WellShaped(c, s) && s.outcome == HardFault && s.phase == Measure
    ensures Cycle(c, s, i).phase == Measure
  {
  }

  lemma {:induction false} AllCompletedMeasured(c: Config, inputs: seq<Input>, n: nat)
    requires ValidConfig(c) && n <= |inputs|
    ensures forall k | 0 <= k < |c.dwells| && Run(c, inputs, n).results[k].completed :: FullyMeasured(c, inputs, n, k)
  {
    hide Run, FullyMeasured;
    forall k | 0 <= k < |c.dwells| && Run(c, inputs, n).results[k].completed ensures FullyMeasured(c, inputs, n, k) {
      CompletedIsMeasured(c, inputs, n, k);
    }
  }

  // ----- Soft events -----

  // What counts as a soft event in a phase.
  predicate SoftNow(s: State, i: Input) {
    s.clipRun >= 5 || (i.soft && s.phase != RampIn)
  }

  ghost predicate SoftStep(s: State, p: State, i: Input)
    requires 0 <= s.dwell < |s.results|
  {
    && |p.results| == |s.results|
    && p.results[s.dwell].softEvents == s.results[s.dwell].softEvents + (if SoftNow(s, i) then 1 else 0)
    && (SoftNow(s, i) <==> p.phase == KillRamp || p.phase == ReSettle)
    && p.clipRun == if p.phase == Hold && s.phase == RampIn then 0 else s.clipRun
  }

  lemma RampInSoft(c: Config, s: State, t: real, dt: real, i: Input)
    requires WellShaped(c, s) && s.phase == RampIn
    ensures SoftStep(s, InRampIn(c, s, t, dt, i), i)
  {
    hide ProbeTorque, SoftRemoval, ValidConfig;
    Removed(EmitProbe(Turn(c, s, dt), 0.5 * (1.0 - i.cosine), i.sine), t);
  }

  lemma HoldSoft(c: Config, s: State, t: real, dt: real, i: Input)
    requires WellShaped(c, s) && s.phase == Hold
    ensures SoftStep(s, InHold(c, s, t, dt, i), i)
  {
    hide ProbeTorque, SoftRemoval, ValidConfig;
    Removed(EmitProbe(Turn(c, s, dt), 1.0, i.sine), t);
  }

  lemma MeasureSoft(c: Config, s: State, t: real, dt: real, i: Input)
    requires WellShaped(c, s) && s.phase == Measure
    ensures SoftStep(s, InMeasure(c, s, t, dt, i), i)
  {
    hide ProbeTorque, SoftRemoval, ValidConfig, DemodAdd, WindowPeriods;
    var s0 := EmitProbe(Turn(c, s, dt), 1.0, i.sine);
    Removed(s0.(window := s.window.(demod := DemodAdd(s.window.demod, s0.probe.phi, i.solved))), t);
  }

  // With the threshold not near, the cycle is that of the phase.
  lemma PhaseOnly(c: Config, s: State, i: Input)
    requires WellShaped(c, s) && Fresh(s, i) && s.outcome == Running && !i.fault && s.phase != Capture
    requires c.setupOffset + i.t + 1.0 <= c.tStop
    ensures WellShaped(c, s.(tPrev := i.t))
    ensures var s', p := Cycle(c, s, i), InPhase(c, s.(tPrev := i.t), i.t, i.t - s.tPrev, i);
            s'.results == p.results && s'.phase == p.phase && s'.clipRun == if i.clipped then p.clipRun + 1 else 0
  {
    hide InPhase;
  }

  /** While the probe ramps in, holds or measures, a cycle counts a soft event exactly when the
      response fired one, which the ramp does not watch, or the five cycles before clipped; the
      probe is then removed. */
  lemma SoftEventCounted(c: Config, s: State, i: Input)
    requires WellShaped(c, s) && Fresh(s, i) && s.outcome == Running && !i.fault
    requires s.phase == RampIn || s.phase == Hold || s.phase == Measure
    requires c.setupOffset + i.t + 1.0 <= c.tStop
    ensures var s' := Cycle(c, s, i);
            && |s'.results| == |s.results|
            && s'.results[s.dwell].softEvents == s.results[s.dwell].softEvents + (if SoftNow(s, i) then 1 else 0)
            && (SoftNow(s, i) <==> s'.phase == KillRamp || s'.phase == ReSettle)
            && s'.clipRun == if i.clipped then (if s'.phase == Hold && s.phase == RampIn then 0 else s.clipRun) + 1 else 0
  {
    hide Cycle, InRampIn, InHold, InMeasure;
    PhaseOnly(c, s, i);
    var s1 := s.(tPrev := i.t);
    match s.phase
    case RampIn => RampInSoft(c, s1, i.t, i.t - s.tPrev, i);
    case Hold => HoldSoft(c, s1, i.t, i.t - s.tPrev, i);
    case Measure => MeasureSoft(c, s1, i.t, i.t - s.tPrev, i);
  }
}
