/** apps/ident/ident_common.hpp: `IdentRun` as the object it is, its methods updating its fields
    step by step, each proved to carry the state of the machine to the machine's next one. */
module IdentController {
  import opened Basics
  import opened IdentSchedule
  import M = IdentMachine
  import A = IdentAdmission
  import W = IdentWindow
  import R = IdentRules

  // What a cycle leaves behind: the phase and outcome it ended in and the probe torque it sent.
  datatype Sent = Sent(phase: M.Phase, outcome: M.Outcome, tau: real)

  // Every torque is within the cap, and none goes out without a probe to excuse it.
  ghost predicate CapKept(sent: seq<Sent>, cap: real) {
    forall k | 0 <= k < |sent| ::
      && -cap <= sent[k].tau <= cap
      && (!M.ProbeActive(sent[k].phase) || sent[k].outcome == M.HardFault ==> sent[k].tau == 0.0)
  }

  // Cycles at most delta apart, begun before the backstop point and going on past the bound.
  ghost predicate GoesOn(c: M.Config, inputs: seq<M.Input>, delta: real) {
    && inputs != [] && 0.0 <= delta && M.Timely(inputs, delta)
    && inputs[0].t + 1.0 <= M.StopTime(c)
    && inputs[|inputs| - 1].t >= M.StopTime(c) + 1.55 + 2.0 * delta
  }

  // The torques of a run's cycles.
  ghost predicate Records(c: M.Config, inputs: seq<M.Input>, sent: seq<Sent>)
    requires M.ValidConfig(c)
  {
    && |sent| <= |inputs|
    && forall k | 0 <= k < |sent| :: sent[k] == SentBy(M.Run(c, inputs, k + 1))
  }

  function SentBy(s: M.State): Sent {
    Sent(s.phase, s.outcome, s.probe.tau)
  }

  lemma RecordsKeepCap(c: M.Config, inputs: seq<M.Input>, sent: seq<Sent>, cap: real)
    requires M.ValidConfig(c) && Records(c, inputs, sent) && AmplitudesWithin(c.dwells, cap) && cap >= 0.0
    requires forall k | 0 <= k < |inputs| :: M.ValidInput(inputs[k])
    ensures CapKept(sent, cap)
  {
    hide M.Cycle, M.Run, M.ValidConfig, M.ProbeActive, AmplitudesWithin;
    forall k | 0 <= k < |sent|
      ensures -cap <= sent[k].tau <= cap
      ensures !M.ProbeActive(sent[k].phase) || sent[k].outcome == M.HardFault ==> sent[k].tau == 0.0
    {
      M.ProbeWithinCap(c, inputs, k + 1, cap);
    }
  }

  lemma {:induction false} TimesAscend(inputs: seq<M.Input>, delta: real, j: nat, k: nat)
    requires M.Timely(inputs, delta) && j <= k < |inputs|
    ensures inputs[j].t <= inputs[k].t
    decreases k
  {
    if j < k { TimesAscend(inputs, delta, j, k - 1); }
  }

  // The run stopped at its n-th cycle: there it is over or out of feedback, and no sooner.
  ghost predicate Stops(c: M.Config, inputs: seq<M.Input>, n: nat)
    requires M.ValidConfig(c)
  {
    && n <= |inputs|
    && (n == |inputs| || M.Terminal(M.Run(c, inputs, n)))
    && forall j | 0 <= j < n :: !M.Terminal(M.Run(c, inputs, j))
  }

  lemma StopsNoLater(c: M.Config, inputs: seq<M.Input>, n: nat, m: nat)
    requires M.ValidConfig(c) && Stops(c, inputs, n) && m <= |inputs| && M.Terminal(M.Run(c, inputs, m))
    ensures n <= m && M.Terminal(M.Run(c, inputs, n)) && 0 < n
  {
    hide M.Cycle, M.Terminal;
    assert !M.Terminal(M.Run(c, inputs, 0)) by { NotOverAtFirst(c, inputs); }
  }

  lemma NotOverAtFirst(c: M.Config, inputs: seq<M.Input>)
    requires M.ValidConfig(c)
    ensures !M.Terminal(M.Run(c, inputs, 0))
  {
    assert M.Run(c, inputs, 0) == M.Initial(c);
  }

  // A run that its inputs do not outlast ended by the bound.
  lemma EndedByTheBound(c: M.Config, inputs: seq<M.Input>, n: nat, delta: real)
    requires M.ValidConfig(c) && GoesOn(c, inputs, delta) && Stops(c, inputs, n)
    ensures M.Terminal(M.Run(c, inputs, n)) && 0 < n && inputs[n - 1].t < M.StopTime(c) + 1.55 + 3.0 * delta
  {
    hide M.Cycle, M.Run, M.Terminal, M.StopTime, Stops;
    var m := M.TerminatesByTheBound(c, inputs, |inputs|, delta);
    StopsNoLater(c, inputs, n, m);
    TimesAscend(inputs, delta, n - 1, m - 1);
  }

  // What the whole run promises of a state it stopped in.
  lemma AcceptedEnd(c: M.Config, inputs: seq<M.Input>, n: nat, step: real)
    requires A.Nominal(c, inputs, step) && inputs != [] && inputs[|inputs| - 1].t >= M.StopTime(c) && Stops(c, inputs, n)
    ensures var s := M.Run(c, inputs, n);
            && s.outcome == M.Completed && A.MeasuredBefore(s, |c.dwells|)
            && (A.Ample(c, inputs) ==> forall k | 0 <= k < |c.dwells| :: s.results[k].completed)
  {
    hide M.Cycle, M.Run, A.Nominal, A.Ample;
    assert M.ValidConfig(c) by { NominalIsValid(c, inputs, step); }
    NotOverAtFirst(c, inputs);
    A.AcceptedScheduleCompletes(c, inputs, n, step);
  }

  lemma NominalIsValid(c: M.Config, inputs: seq<M.Input>, step: real)
    requires A.Nominal(c, inputs, step)
    ensures M.ValidConfig(c)
  {
  }

  // The promises of a stopped run, for every cap, cycle bound and step at once.
  lemma WholeRun(c: M.Config, inputs: seq<M.Input>, sent: seq<Sent>)
    requires M.ValidConfig(c) && Records(c, inputs, sent) && Stops(c, inputs, |sent|)
    ensures forall cap | cap >= 0.0 && AmplitudesWithin(c.dwells, cap)
                         && (forall k | 0 <= k < |inputs| :: M.ValidInput(inputs[k])) :: CapKept(sent, cap)
    ensures forall delta | GoesOn(c, inputs, delta) ::
              M.Terminal(M.Run(c, inputs, |sent|)) && sent != []
              && inputs[|sent| - 1].t < M.StopTime(c) + 1.55 + 3.0 * delta
    ensures forall step | A.Nominal(c, inputs, step) && inputs != [] && inputs[|inputs| - 1].t >= M.StopTime(c) ::
              var s := M.Run(c, inputs, |sent|);
              && s.outcome == M.Completed && A.MeasuredBefore(s, |c.dwells|)
              && (A.Ample(c, inputs) ==> forall k | 0 <= k < |c.dwells| :: s.results[k].completed)
  {
    assert |sent| <= |inputs|;
    hide *;
    forall cap | cap >= 0.0 && AmplitudesWithin(c.dwells, cap) && (forall k | 0 <= k < |inputs| :: M.ValidInput(inputs[k]))
      ensures CapKept(sent, cap)
    {
      RecordsKeepCap(c, inputs, sent, cap);
    }
    forall delta | GoesOn(c, inputs, delta)
      ensures M.Terminal(M.Run(c, inputs, |sent|)) && sent != []
      ensures inputs[|sent| - 1].t < M.StopTime(c) + 1.55 + 3.0 * delta
    {
      EndedByTheBound(c, inputs, |sent|, delta);
    }
    forall step | A.Nominal(c, inputs, step) && inputs != [] && inputs[|inputs| - 1].t >= M.StopTime(c)
      ensures var s := M.Run(c, inputs, |sent|);
              && s.outcome == M.Completed && A.MeasuredBefore(s, |c.dwells|)
              && (A.Ample(c, inputs) ==> forall k | 0 <= k < |c.dwells| :: s.results[k].completed)
    {
      AcceptedEnd(c, inputs, |sent|, step);
    }
  }

  class IdentRun {
    const c: M.Config
    var phase: M.Phase
    var outcome: M.Outcome
    var dwell: int
    var tPrev: real
    var phaseStart: real
    var holdStart: real
    var probe: M.Probe
    var kill: M.Kill
    var window: M.Window
    var clipRun: nat
    var capture: M.CaptureState
    var results: seq<M.DwellResult>

    ghost function Now(): M.State
      reads this
    {
      M.State(phase, outcome, dwell, tPrev, phaseStart, holdStart, probe, kill, window, clipRun, capture, results)
    }

    ghost predicate Valid()
      reads this
    {
      M.WellShaped(c, Now())
    }

    constructor (c: M.Config)
      requires M.ValidConfig(c)
      ensures this.c == c && Valid() && Now() == M.Initial(c)
    {
      this.c := c;
      phase := if c.captureEnvelope > 0.0 then M.Capture else M.LeadIn;
      outcome, dwell, tPrev, phaseStart, holdStart := M.Running, -1, -1.0, 0.0, 0.0;
      probe, kill, window := M.Probe(0.0, 0.0, 0.0, 0.0), M.Kill(0.0, false, false), M.Window(0.0, 1, M.FRESH_DEMOD);
      clipRun, capture := 0, M.CaptureState(false, 0.0, 0.0);
      results := seq(|c.dwells|, k requires 0 <= k < |c.dwells| => M.DwellResult(c.dwells[k].amp, false, false, false, false, false, 0));
    }

    method Fail(why: M.Outcome)
      modifies this
      ensures Now() == M.Fail(old(Now()), why)
    {
      if outcome == M.HardFault { return; }
      outcome := why;
      if why == M.HardFault { probe := probe.(tau := 0.0); }
    }

    method MarkRestNotRun()
      modifies this
      ensures Now() == M.MarkRest(old(Now()))
    {
      ghost var before := results;
      var k := if dwell + 1 > 0 then dwell + 1 else 0;
      var first := k;
      while k < |results|
        invariant first <= k && |results| == |before|
        invariant Now() == old(Now()).(results := results)
        invariant forall j | 0 <= j < |before| ::
                    results[j] == if first <= j < k && !before[j].started then before[j].(skipped := true) else before[j]
      {
        if !results[k].started { results := results[k := results[k].(skipped := true)]; }
        k := k + 1;
      }
      assert results == M.MarkRest(old(Now())).results;
    }

    method EnterKill(t: real, abortAfter: bool, toFinal: bool)
      modifies this
      ensures Now() == M.EnterKill(old(Now()), t, abortAfter, toFinal)
    {
      if dwell < 0 || probe.tau == 0.0 {
        probe := probe.(tau := 0.0);
        phase := if toFinal then M.FinalHold else M.ReSettle;
        phaseStart := t;
        return;
      }
      kill := M.Kill(probe.envelope, abortAfter, toFinal);
      phase := M.KillRamp;
      phaseStart := t;
    }

    method RestartDwell(t: real)
      requires 0 <= dwell < |results|
      modifies this
      ensures Now() == M.Restart(old(Now()), t)
    {
      results := results[dwell := results[dwell].(started := true)];
      probe := probe.(phi := 0.0);
      phase, phaseStart, clipRun := M.RampIn, t, 0;
    }

    // The graceful stop in place of a dwell that would overrun the threshold.
    method RefuseDwell(t: real)
      requires 0 <= dwell < |results|
      modifies this
      ensures var refused := old(Now().(results := results[dwell := results[dwell].(skipped := true)]));
              Now() == (if old(outcome) == M.Running then M.MarkRest(M.Fail(refused, M.DeadlineStop)) else refused)
                       .(phase := M.FinalHold, phaseStart := t)
    {
      results := results[dwell := results[dwell].(skipped := true)];
      if outcome == M.Running {
        Fail(M.DeadlineStop);
        MarkRestNotRun();
      }
      phase, phaseStart := M.FinalHold, t;
    }

    // The requested window extension, under admission.
    method GrantWindow(t: real, worst: real)
      requires 0 <= dwell < |results| && |results| == |c.dwells| && PositiveFrequencies(c.dwells)
      modifies this
      ensures dwell == old(dwell)
      ensures var spec := c.dwells[old(dwell)];
              var extra := WindowSeconds(spec.freq, spec.windowMult) - WindowSeconds(spec.freq, 1);
              var extended := spec.windowMult > 1 && M.Admits(c, t, worst + extra);
              var r := old(results[dwell]);
              Now() == old(Now()).(
                window := old(window).(mult := if extended then spec.windowMult else 1),
                results := old(results)[old(dwell) := r.(lowConfidence := r.lowConfidence || (spec.windowMult > 1 && !extended))])
    {
      var spec := c.dwells[dwell];
      var mult := 1;
      if spec.windowMult > 1 {
        var extra := WindowSeconds(spec.freq, spec.windowMult) - WindowSeconds(spec.freq, 1);
        if M.Admits(c, t, worst + extra) {
          mult := spec.windowMult;
        } else {
          results := results[dwell := results[dwell].(lowConfidence := true)];
        }
      }
      window := window.(mult := mult);
    }

    method StartDwell(k: nat, t: real, headroom: real)
      requires PositiveFrequencies(c.dwells) && |results| == |c.dwells| && k <= |c.dwells|
      modifies this
      ensures Now() == M.StartDwell(c, old(Now()), k, t, headroom)
      decreases |c.dwells| - k
    {
      hide DwellWorst, WorstFrom, WindowSeconds, M.WorstOnward, M.Admits;
      dwell := k;
      if dwell >= |c.dwells| {
        phase, phaseStart := M.FinalHold, t;
        return;
      }
      var worst := M.WorstOnward(c, k);
      if !M.Admits(c, t, worst) {
        RefuseDwell(t);
        return;
      }
      var amp := Min(results[k].amp, headroom);
      if amp < AMP_FLOOR {
        results := results[k := results[k].(skipped := true)];
        probe := probe.(retryAmp := 0.0);
        StartDwell(k + 1, t, headroom);
        return;
      }
      results := results[k := results[k].(amp := amp)];
      GrantWindow(t, worst);
      probe := probe.(retryAmp := 0.0);
      RestartDwell(t);
    }

    method NextDwell(t: real, headroom: real)
      requires Valid() && 0 <= dwell < |c.dwells|
      modifies this
      ensures Now() == M.NextDwell(c, old(Now()), t, headroom)
    {
      probe := probe.(retryAmp := 0.0);
      StartDwell(dwell + 1, t, headroom);
    }

    method StartMeasure(t: real)
      modifies this
      ensures Now() == M.StartMeasure(old(Now()), t)
    {
      window := window.(start := t);
      phase := M.Measure;
      window := window.(demod := M.FRESH_DEMOD);
    }

    method FinishMeasure(t: real)
      requires 0 <= dwell < |results|
      modifies this
      ensures Now() == M.FinishMeasure(old(Now()), t)
    {
      results := results[dwell := results[dwell].(completed := true)];
      phase, phaseStart := M.RampOut, t;
    }

    // Turns the probe phase and emits the probe at an envelope.
    method EmitProbe(dt: real, envelope: real, sine: real)
      requires Valid() && 0 <= dwell < |c.dwells|
      modifies this
      ensures Now() == M.EmitProbe(M.Turn(c, old(Now()), dt), envelope, sine)
    {
      probe := probe.(phi := probe.phi + c.dwells[dwell].freq * dt);
      var amp := if probe.retryAmp > 0.0 then probe.retryAmp else results[dwell].amp;
      probe := probe.(envelope := envelope, tau := M.ProbeTorque(envelope, amp, sine));
    }

    method SoftEventCheck(t: real, pending: bool) returns (fired: bool)
      requires 0 <= dwell < |results|
      modifies this
      ensures fired == M.SoftEvent(old(Now()), pending)
      ensures Now() == if fired then M.SoftRemoval(old(Now()), t) else old(Now())
    {
      if !pending && clipRun < M.CLIP_SOFT_CYCLES { return false; }
      results := results[dwell := results[dwell].(softEvents := results[dwell].softEvents + 1)];
      EnterKill(t, results[dwell].softEvents >= 2, false);
      return true;
    }

    method InCapture(t: real, dt: real, i: M.Input)
      modifies this
      ensures Now() == M.InCapture(c, old(Now()), t, dt, i)
    {
      probe := probe.(tau := 0.0);
      if t < capture.end {
        capture := capture.(quiet := 0.0);
        return;
      }
      var held := t - capture.end;
      capture := capture.(quiet := if i.ready then capture.quiet + dt else 0.0);
      if held >= 0.5 && capture.quiet >= 0.3 {
        phase := if c.holdOnly > 0.0 then M.HoldDiag else M.LeadIn;
        phaseStart := t;
      } else if held >= 10.0 {
        Fail(M.HardFault);
      }
    }

    method InHoldDiag(t: real, i: M.Input)
      modifies this
      ensures Now() == M.InHoldDiag(c, old(Now()), t, i)
    {
      probe := probe.(tau := 0.0);
      if i.holdDeviates { Fail(M.HardFault); }
      if outcome == M.Running && t - phaseStart >= 1.0 && i.holdMoves { Fail(M.HardFault); }
      if outcome == M.Running && t - phaseStart >= c.holdOnly { outcome, phase := M.Completed, M.Done; }
    }

    method InRampIn(t: real, dt: real, i: M.Input)
      requires Valid() && 0 <= dwell < |c.dwells|
      modifies this
      ensures Now() == M.InRampIn(c, old(Now()), t, dt, i)
    {
      hide M.SoftRemoval;
      EmitProbe(dt, 0.5 * (1.0 - i.cosine), i.sine);
      var fired := SoftEventCheck(t, false);
      if fired { return; }
      if t - phaseStart >= RAMP { phase, holdStart, clipRun := M.Hold, t, 0; }
    }

    method InHold(t: real, dt: real, i: M.Input)
      requires Valid() && 0 <= dwell < |c.dwells|
      modifies this
      ensures Now() == M.InHold(c, old(Now()), t, dt, i)
    {
      hide M.SoftRemoval;
      EmitProbe(dt, 1.0, i.sine);
      var fired := SoftEventCheck(t, i.soft);
      if fired { return; }
      if i.converged && t - holdStart >= HOLD_MIN {
        StartMeasure(t);
      } else if t - holdStart >= HOLD_MAX {
        results := results[dwell := results[dwell].(lowConfidence := true)];
        StartMeasure(t);
      }
    }

    method InMeasure(t: real, dt: real, i: M.Input)
      requires Valid() && 0 <= dwell < |c.dwells|
      modifies this
      ensures Now() == M.InMeasure(c, old(Now()), t, dt, i)
    {
      hide M.SoftRemoval, M.DemodAdd;
      EmitProbe(dt, 1.0, i.sine);
      window := window.(demod := M.DemodAdd(window.demod, probe.phi, i.solved));
      var fired := SoftEventCheck(t, i.soft);
      if fired { return; }
      if window.demod.blocks >= WindowPeriods(c.dwells[dwell].freq) * window.mult { FinishMeasure(t); }
    }

    method InRampOut(t: real, dt: real, i: M.Input)
      requires Valid() && 0 <= dwell < |c.dwells|
      modifies this
      ensures Now() == M.InRampOut(c, old(Now()), t, dt, i)
    {
      hide M.StartDwell;
      EmitProbe(dt, 0.5 * (1.0 + i.cosine), i.sine);
      if t - phaseStart >= RAMP {
        probe := probe.(tau := 0.0);
        NextDwell(t, i.headroom);
      }
    }

    method InKillRamp(t: real, dt: real, i: M.Input)
      requires Valid() && 0 <= dwell < |c.dwells|
      modifies this
      ensures Now() == M.InKillRamp(c, old(Now()), t, dt, i)
    {
      EmitProbe(dt, M.KillEnvelope(kill, i.cosine), i.sine);
      if t - phaseStart < KILL_RAMP { return; }
      probe := probe.(tau := 0.0);
      if kill.toFinal {
        phase, phaseStart := M.FinalHold, t;
      } else if kill.abortAfter {
        Fail(M.SoftAbort);
        phase := M.Done;
      } else {
        phase, phaseStart := M.ReSettle, t;
      }
    }

    method InReSettle(t: real, i: M.Input)
      requires Valid() && 0 <= dwell < |c.dwells|
      modifies this
      ensures Now() == M.InReSettle(c, old(Now()), t, i)
    {
      hide M.StartDwell;
      probe := probe.(tau := 0.0);
      if t - phaseStart < RE_SETTLE { return; }
      var r := results[dwell];
      if !r.retried && M.Admits(c, t, M.WorstOnward(c, dwell)) {
        results := results[dwell := r.(retried := true)];
        probe := probe.(retryAmp := 0.5 * r.amp);
        RestartDwell(t);
      } else {
        NextDwell(t, i.headroom);
      }
    }

    method InFinalHold(t: real)
      modifies this
      ensures Now() == M.InFinalHold(old(Now()), t)
    {
      probe := probe.(tau := 0.0);
      if t - phaseStart >= FINAL_HOLD {
        if outcome == M.Running { outcome := M.Completed; }
        phase := M.Done;
      }
    }

    method DeadlineBackstop(t: real)
      modifies this
      ensures Now() == M.Backstop(c, old(Now()), t)
    {
      if outcome == M.Running && M.ProbeCarrying(phase) && c.setupOffset + t + RAMP + FINAL_HOLD > c.tStop {
        Fail(M.DeadlineStop);
        MarkRestNotRun();
        EnterKill(t, false, true);
      }
    }

    method Advance(t: real, dt: real, i: M.Input)
      requires Valid()
      modifies this
      ensures Valid() && Now() == M.Advance(c, old(Now()), t, dt, i)
    {
      hide M.Backstop, M.StartDwell, M.InCapture, M.InHoldDiag, M.InRampIn, M.InHold, M.InMeasure, M.InRampOut, M.InKillRamp,
           M.InReSettle, M.InFinalHold;
      M.BackstopShape(c, Now(), t);
      M.AdvanceShape(c, Now(), t, dt, i);
      DeadlineBackstop(t);
      match phase {
        case Capture => InCapture(t, dt, i);
        case HoldDiag => InHoldDiag(t, i);
        case LeadIn => if t - phaseStart >= IdentSchedule.LeadIn(c.dwells) { StartDwell(0, t, i.headroom); }
        case RampIn => InRampIn(t, dt, i);
        case Hold => InHold(t, dt, i);
        case Measure => InMeasure(t, dt, i);
        case RampOut => InRampOut(t, dt, i);
        case KillRamp => InKillRamp(t, dt, i);
        case ReSettle => InReSettle(t, i);
        case FinalHold => InFinalHold(t);
        case Done => probe := probe.(tau := 0.0);
      }
    }

    // One control cycle: the controller's update, then the observer's verdict. The result is
    // whether the run goes on.
    method Cycle(i: M.Input) returns (goOn: bool)
      requires Valid()
      modifies this
      ensures Valid() && Now() == M.Cycle(c, old(Now()), i)
      ensures goOn <==> !M.Terminal(Now())
    {
      hide M.Update;
      M.CycleShape(c, Now(), i);
      Update(i);
      if i.observerFault { Fail(M.HardFault); }
      goOn := outcome != M.HardFault && phase != M.Done;
    }

    // The first controlled sample installs the capture ramp, or refuses the displacement.
    method BeginCapture(i: M.Input)
      modifies this
      ensures Now() == M.BeginCapture(c, old(Now()), i)
    {
      if phase == M.Capture && !capture.begun {
        var ramp := Clamp(i.deviation * 1.875 / M.CAPTURE_SPEED, 1.0, 5.0);
        capture := capture.(begun := true, end := i.t + ramp);
        if i.deviation > c.captureEnvelope { Fail(M.HardFault); }
      }
    }

    method Update(i: M.Input)
      requires Valid()
      modifies this
      ensures Now() == M.Update(c, old(Now()), i)
    {
      hide M.Advance, M.BeginCapture, M.WellShaped;
      M.BeginShape(c, Now(), i);
      BeginCapture(i);
      M.ResumeShape(c, Now(), i.t);
      if tPrev < 0.0 {
        tPrev := i.t;
        probe := probe.(tau := 0.0);
        return;
      }
      var dt := i.t - tPrev;
      if dt <= 0.0 { return; }
      tPrev := i.t;
      if outcome == M.Running && i.fault { Fail(M.HardFault); }
      if outcome != M.HardFault && outcome != M.Completed { Advance(i.t, dt, i); }
      clipRun := if i.clipped then clipRun + 1 else 0;
    }

    /** A fresh run's cycles, until one of them says it is over or the feedback ends. Whatever
        faults, soft events and refusals occur: the torques sent keep the amplitude cap, and are
        zero where no probe excuses one; the run is over within 1.55 s and three cycles of the
        stop threshold; a dwell is completed only by a measurement in full, and tried at most twice;
        and a clean finish leaves no dwell neither started nor skipped. With nothing amiss, an
        accepted schedule ends completed. */
    method RunCycles(inputs: seq<M.Input>) returns (sent: seq<Sent>, goOn: bool)
      requires M.ValidConfig(c) && Now() == M.Initial(c)
      modifies this
      ensures Valid() && Records(c, inputs, sent) && Now() == M.Run(c, inputs, |sent|)
      ensures goOn <==> outcome != M.HardFault && phase != M.Done
      ensures goOn ==> |sent| == |inputs|
      ensures forall cap | cap >= 0.0 && AmplitudesWithin(c.dwells, cap)
                           && (forall k | 0 <= k < |inputs| :: M.ValidInput(inputs[k])) :: CapKept(sent, cap)
      ensures forall delta | GoesOn(c, inputs, delta) ::
                !goOn && sent != [] && inputs[|sent| - 1].t < M.StopTime(c) + 1.55 + 3.0 * delta
      ensures phase == M.Done && (outcome == M.Completed || outcome == M.DeadlineStop) ==>
                forall k | 0 <= k < |c.dwells| :: M.Settled(results[k])
      ensures forall k | 0 <= k < |c.dwells| && results[k].completed :: W.FullyMeasured(c, inputs, |sent|, k)
      ensures forall k | 0 <= k < |sent| :: R.KeepsRules(c, inputs, k)
      ensures forall step | A.Nominal(c, inputs, step) && inputs != [] && inputs[|inputs| - 1].t >= M.StopTime(c) ::
                outcome == M.Completed && A.MeasuredBefore(Now(), |c.dwells|)
                && (A.Ample(c, inputs) ==> forall k | 0 <= k < |c.dwells| :: results[k].completed)
    {
      hide M.Cycle, M.Timely, A.Nominal, A.Ample, AmplitudesWithin, CapKept, GoesOn, W.FullyMeasured, R.KeepsRules;
      sent, goOn := [], true;
      NotOverAtFirst(c, inputs);
      while goOn && |sent| < |inputs|
        invariant Valid() && Records(c, inputs, sent) && Now() == M.Run(c, inputs, |sent|)
        invariant goOn <==> !M.Terminal(Now())
        invariant forall j | 0 <= j < |sent| :: !M.Terminal(M.Run(c, inputs, j))
        decreases |inputs| - |sent|
      {
        goOn := Cycle(inputs[|sent|]);
        sent := sent + [Sent(phase, outcome, probe.tau)];
      }
      assert Stops(c, inputs, |sent|);
      M.CleanFinishSettlesEveryDwell(c, inputs, |sent|);
      W.AllCompletedMeasured(c, inputs, |sent|);
      R.RunKeepsRules(c, inputs, |sent|);
      WholeRun(c, inputs, sent);
    }
  }
}
