/** apps/ident/ident_common.hpp: `IdentRun`, the stepped-sine identification run, as a machine
    over its control cycles. Everything the arm decides (faults, soft events, block solutions,
    convergence, the probe's sine) is an input; probe phases are in turns. */
module IdentMachine {
  import opened Basics
  import opened Products
  import opened IdentSchedule

  datatype Phase = LeadIn | RampIn | Hold | Measure | RampOut | KillRamp | ReSettle | FinalHold | Done | Capture | HoldDiag

  datatype Outcome = Running | Completed | DeadlineStop | SoftAbort | HardFault

  datatype Config = Config(dwells: seq<DwellSpec>, setupOffset: real, tStop: real,
                           captureEnvelope: real, holdOnly: real)

  // Options the constructor accepts.
  ghost predicate ValidConfig(c: Config) {
    && PositiveFrequencies(c.dwells)
    && (if c.holdOnly > 0.0 then c.dwells == [] && c.captureEnvelope > 0.0 else c.dwells != [])
  }

  datatype DwellResult = DwellResult(amp: real, started: bool, completed: bool, skipped: bool,
                                     lowConfidence: bool, retried: bool, softEvents: nat)

  // The period counter of the measurement window: one block per turn of the probe phase.
  datatype Demod = Demod(primed: bool, start: real, samples: nat, blocks: nat)

  const FRESH_DEMOD := Demod(false, 0.0, 0, 0)

  function DemodAdd(d: Demod, phase: real, solved: bool): Demod {
    var p := if d.primed then d else d.(primed := true, start := phase);
    var q := if phase - p.start >= 1.0 then
               Demod(true, p.start + 1.0, 0, p.blocks + if p.samples >= 5 && solved then 1 else 0)
             else p;
    q.(samples := q.samples + 1)
  }

  /** One cycle's inputs: its time; a supervision fault; the first sample's distance to the
      anchor; the capture gates; the hold diagnostic's violations; a response soft event; a
      clipped probe sum; hold convergence; a solvable window block; the least torque headroom;
      the sine of the probe phase and the cosine of the ramp; a fault seen by the observer. */
  datatype Input = Input(t: real, fault: bool, deviation: real, ready: bool, holdDeviates: bool, holdMoves: bool,
                         soft: bool, clipped: bool, converged: bool, solved: bool, headroom: real,
                         sine: real, cosine: real, observerFault: bool)

  ghost predicate ValidInput(i: Input) {
    0.0 <= i.t && -1.0 <= i.sine <= 1.0 && -1.0 <= i.cosine <= 1.0
  }

  datatype Probe = Probe(tau: real, phi: real, envelope: real, retryAmp: real)

  datatype Kill = Kill(envelope: real, abortAfter: bool, toFinal: bool)

  datatype Window = Window(start: real, mult: int, demod: Demod)

  datatype CaptureState = CaptureState(begun: bool, end: real, quiet: real)

  datatype State = State(phase: Phase, outcome: Outcome, dwell: int, tPrev: real, phaseStart: real, holdStart: real,
                         probe: Probe, kill: Kill, window: Window, clipRun: nat, capture: CaptureState,
                         results: seq<DwellResult>)

  function Initial(c: Config): State {
    State(if c.captureEnvelope > 0.0 then Capture else LeadIn, Running, -1, -1.0, 0.0, 0.0,
          Probe(0.0, 0.0, 0.0, 0.0), Kill(0.0, false, false), Window(0.0, 1, FRESH_DEMOD), 0, CaptureState(false, 0.0, 0.0),
          seq(|c.dwells|, k requires 0 <= k < |c.dwells| => DwellResult(c.dwells[k].amp, false, false, false, false, false, 0)))
  }

  predicate BeforeDwells(p: Phase) {
    p == Capture || p == HoldDiag || p == LeadIn
  }

  // The phases that carry a probe or wait to retry one.
  predicate InDwell(p: Phase) {
    p != FinalHold && p != Done && !BeforeDwells(p)
  }

  ghost predicate WellShaped(c: Config, s: State) {
    && ValidConfig(c)
    && |s.results| == |c.dwells|
    && -1 <= s.dwell <= |c.dwells|
    && (s.phase == HoldDiag ==> c.holdOnly > 0.0)
    && (BeforeDwells(s.phase) ==> s.dwell == -1)
    && (InDwell(s.phase) ==> 0 <= s.dwell < |c.dwells|)
  }

  function NoProbe(s: State): State {
    s.(probe := s.probe.(tau := 0.0))
  }

  function Fail(s: State, outcome: Outcome): State {
    if s.outcome == HardFault then s
    else if outcome == HardFault then NoProbe(s).(outcome := outcome)
    else s.(outcome := outcome)
  }

  // The requested work from t on still ends by the graceful-stop threshold.
  predicate Admits(c: Config, t: real, requested: real) {
    c.setupOffset + t + requested <= c.tStop
  }

  function MarkRest(s: State): State {
    s.(results := seq(|s.results|, k requires 0 <= k < |s.results| =>
         if k > s.dwell && !s.results[k].started then s.results[k].(skipped := true) else s.results[k]))
  }

  function EnterKill(s: State, t: real, abortAfter: bool, toFinal: bool): State {
    if s.dwell < 0 || s.probe.tau == 0.0 then
      NoProbe(s).(phase := if toFinal then FinalHold else ReSettle, phaseStart := t)
    else
      s.(kill := Kill(s.probe.envelope, abortAfter, toFinal), phase := KillRamp, phaseStart := t)
  }

  function Restart(s: State, t: real): State
    requires 0 <= s.dwell < |s.results|
  {
    s.(results := s.results[s.dwell := s.results[s.dwell].(started := true)], probe := s.probe.(phi := 0.0),
       phase := RampIn, phaseStart := t, clipRun := 0)
  }

  // Base seconds of the dwell k and everything after it.
  function WorstOnward(c: Config, k: nat): real
    requires k < |c.dwells| && PositiveFrequencies(c.dwells)
  {
    DwellWorst(c.dwells[k].freq) + WorstFrom(c.dwells, k + 1)
  }

  function NoRetry(s: State): State {
    s.(probe := s.probe.(retryAmp := 0.0))
  }

  function StartDwell(c: Config, s: State, k: nat, t: real, headroom: real): State
    requires PositiveFrequencies(c.dwells) && |s.results| == |c.dwells| && k <= |c.dwells|
    decreases |c.dwells| - k
  {
    if k >= |c.dwells| then s.(dwell := k, phase := FinalHold, phaseStart := t)
    else
      var r := s.results[k];
      if !Admits(c, t, WorstOnward(c, k)) then
        var refused := s.(dwell := k, results := s.results[k := r.(skipped := true)]);
        var stopped := if s.outcome == Running then MarkRest(Fail(refused, DeadlineStop)) else refused;
        stopped.(phase := FinalHold, phaseStart := t)
      else
        var amp := Min(r.amp, headroom);
        if amp < AMP_FLOOR then
          StartDwell(c, NoRetry(s).(dwell := k, results := s.results[k := r.(skipped := true)]), k + 1, t, headroom)
        else
          var spec := c.dwells[k];
          var extra := WindowSeconds(spec.freq, spec.windowMult) - WindowSeconds(spec.freq, 1);
          var extended := spec.windowMult > 1 && Admits(c, t, WorstOnward(c, k) + extra);
          var r' := r.(amp := amp, lowConfidence := r.lowConfidence || (spec.windowMult > 1 && !extended));
          Restart(NoRetry(s).(dwell := k, results := s.results[k := r'],
                              window := s.window.(mult := if extended then spec.windowMult else 1)), t)
  }

  function NextDwell(c: Config, s: State, t: real, headroom: real): State
    requires WellShaped(c, s) && 0 <= s.dwell < |c.dwells|
  {
    StartDwell(c, NoRetry(s), s.dwell + 1, t, headroom)
  }

  function StartMeasure(s: State, t: real): State {
    s.(phase := Measure, window := s.window.(start := t, demod := FRESH_DEMOD))
  }

  function FinishMeasure(s: State, t: real): State
    requires 0 <= s.dwell < |s.results|
  {
    s.(results := s.results[s.dwell := s.results[s.dwell].(completed := true)], phase := RampOut, phaseStart := t)
  }

  function ProbeTorque(envelope: real, amp: real, sine: real): real {
    Mul(Mul(envelope, amp), sine)
  }

  function EmitProbe(s: State, envelope: real, sine: real): State
    requires 0 <= s.dwell < |s.results|
  {
    var amp := if s.probe.retryAmp > 0.0 then s.probe.retryAmp else s.results[s.dwell].amp;
    s.(probe := s.probe.(envelope := envelope, tau := ProbeTorque(envelope, amp, sine)))
  }

  const CLIP_SOFT_CYCLES := 5

  predicate SoftEvent(s: State, pending: bool) {
    pending || s.clipRun >= CLIP_SOFT_CYCLES
  }

  // A soft event counts against its dwell and removes the probe.
  function SoftRemoval(s: State, t: real): State
    requires 0 <= s.dwell < |s.results|
  {
    var r := s.results[s.dwell].(softEvents := s.results[s.dwell].softEvents + 1);
    EnterKill(s.(results := s.results[s.dwell := r]), t, r.softEvents >= 2, false)
  }

  // The phases the deadline backstop watches.
  predicate ProbeCarrying(p: Phase) {
    BeforeDwells(p) || p == RampIn || p == Hold || p == Measure
  }

  function Backstop(c: Config, s: State, t: real): State {
    if s.outcome == Running && ProbeCarrying(s.phase) && c.setupOffset + t + RAMP + FINAL_HOLD > c.tStop then
      EnterKill(MarkRest(Fail(s, DeadlineStop)), t, false, true)
    else s
  }

  function Turn(c: Config, s: State, dt: real): State
    requires WellShaped(c, s) && 0 <= s.dwell < |c.dwells|
  {
    s.(probe := s.probe.(phi := s.probe.phi + c.dwells[s.dwell].freq * dt))
  }

  function InCapture(c: Config, s: State, t: real, dt: real, i: Input): State {
    var s0 := NoProbe(s);
    if t < s.capture.end then s0.(capture := s.capture.(quiet := 0.0))
    else
      var held := t - s.capture.end;
      var s1 := s0.(capture := s.capture.(quiet := if i.ready then s.capture.quiet + dt else 0.0));
      if held >= 0.5 && s1.capture.quiet >= 0.3 then
        s1.(phase := if c.holdOnly > 0.0 then HoldDiag else LeadIn, phaseStart := t)
      else if held >= 10.0 then Fail(s1, HardFault)
      else s1
  }

  function InHoldDiag(c: Config, s: State, t: real, i: Input): State {
    var s0 := NoProbe(s);
    var s1 := if i.holdDeviates then Fail(s0, HardFault) else s0;
    var s2 := if s1.outcome == Running && t - s.phaseStart >= 1.0 && i.holdMoves then Fail(s1, HardFault) else s1;
    if s2.outcome == Running && t - s.phaseStart >= c.holdOnly then s2.(outcome := Completed, phase := Done) else s2
  }

  function InRampIn(c: Config, s: State, t: real, dt: real, i: Input): State
    requires WellShaped(c, s) && 0 <= s.dwell < |c.dwells|
  {
    var s0 := EmitProbe(Turn(c, s, dt), 0.5 * (1.0 - i.cosine), i.sine);
    if SoftEvent(s0, false) then SoftRemoval(s0, t)
    else if t - s.phaseStart >= RAMP then s0.(phase := Hold, holdStart := t, clipRun := 0)
    else s0
  }

  function InHold(c: Config, s: State, t: real, dt: real, i: Input): State
    requires WellShaped(c, s) && 0 <= s.dwell < |c.dwells|
  {
    var s0 := EmitProbe(Turn(c, s, dt), 1.0, i.sine);
    if SoftEvent(s0, i.soft) then SoftRemoval(s0, t)
    else if i.converged && t - s.holdStart >= HOLD_MIN then StartMeasure(s0, t)
    else if t - s.holdStart >= HOLD_MAX then
      StartMeasure(s0.(results := s0.results[s.dwell := s0.results[s.dwell].(lowConfidence := true)]), t)
    else s0
  }

  function InMeasure(c: Config, s: State, t: real, dt: real, i: Input): State
    requires WellShaped(c, s) && 0 <= s.dwell < |c.dwells|
  {
    var s0 := EmitProbe(Turn(c, s, dt), 1.0, i.sine);
    var s1 := s0.(window := s.window.(demod := DemodAdd(s.window.demod, s0.probe.phi, i.solved)));
    if SoftEvent(s1, i.soft) then SoftRemoval(s1, t)
    else if s1.window.demod.blocks >= WindowPeriods(c.dwells[s.dwell].freq) * s.window.mult then FinishMeasure(s1, t)
    else s1
  }

  function InRampOut(c: Config, s: State, t: real, dt: real, i: Input): State
    requires WellShaped(c, s) && 0 <= s.dwell < |c.dwells|
  {
    var s0 := EmitProbe(Turn(c, s, dt), 0.5 * (1.0 + i.cosine), i.sine);
    if t - s.phaseStart >= RAMP then NextDwell(c, NoProbe(s0), t, i.headroom) else s0
  }

  function KillEnvelope(k: Kill, cosine: real): real {
    Mul(k.envelope, 0.5 * (1.0 + cosine))
  }

  function InKillRamp(c: Config, s: State, t: real, dt: real, i: Input): State
    requires WellShaped(c, s) && 0 <= s.dwell < |c.dwells|
  {
    var s0 := EmitProbe(Turn(c, s, dt), KillEnvelope(s.kill, i.cosine), i.sine);
    if t - s.phaseStart < KILL_RAMP then s0
    else
      var s1 := NoProbe(s0);
      if s.kill.toFinal then s1.(phase := FinalHold, phaseStart := t)
      else if s.kill.abortAfter then Fail(s1, SoftAbort).(phase := Done)
      else s1.(phase := ReSettle, phaseStart := t)
  }

  function InReSettle(c: Config, s: State, t: real, i: Input): State
    requires WellShaped(c, s) && 0 <= s.dwell < |c.dwells|
  {
    var s0 := NoProbe(s);
    var r := s.results[s.dwell];
    if t - s.phaseStart < RE_SETTLE then s0
    else if !r.retried && Admits(c, t, WorstOnward(c, s.dwell)) then
      Restart(s0.(results := s.results[s.dwell := r.(retried := true)], probe := s0.probe.(retryAmp := 0.5 * r.amp)), t)
    else NextDwell(c, s0, t, i.headroom)
  }

  function InFinalHold(s: State, t: real): State {
    var s0 := NoProbe(s);
    if t - s.phaseStart >= FINAL_HOLD then
      s0.(outcome := if s.outcome == Running then Completed else s.outcome, phase := Done)
    else s0
  }

  function InPhase(c: Config, s: State, t: real, dt: real, i: Input): State
    requires WellShaped(c, s)
  {
    match s.phase
    case Capture => InCapture(c, s, t, dt, i)
    case HoldDiag => InHoldDiag(c, s, t, i)
    case LeadIn => if t - s.phaseStart >= IdentSchedule.LeadIn(c.dwells) then StartDwell(c, s, 0, t, i.headroom) else s
    case RampIn => InRampIn(c, s, t, dt, i)
    case Hold => InHold(c, s, t, dt, i)
    case Measure => InMeasure(c, s, t, dt, i)
    case RampOut => InRampOut(c, s, t, dt, i)
    case KillRamp => InKillRamp(c, s, t, dt, i)
    case ReSettle => InReSettle(c, s, t, i)
    case FinalHold => InFinalHold(s, t)
    case Done => NoProbe(s)
  }

  // The dwell state machine's cycle.
  function Advance(c: Config, s: State, t: real, dt: real, i: Input): State
    requires WellShaped(c, s)
  {
    InPhase(c, Backstop(c, s, t), t, dt, i)
  }

  const CAPTURE_SPEED := 0.05

  function BeginCapture(c: Config, s: State, i: Input): State {
    if s.phase == Capture && !s.capture.begun then
      var ramp := Clamp(i.deviation * 1.875 / CAPTURE_SPEED, 1.0, 5.0);
      var s0 := s.(capture := s.capture.(begun := true, end := i.t + ramp));
      if i.deviation > c.captureEnvelope then Fail(s0, HardFault) else s0
    else s
  }

  // One controller update: a first sample and a duplicate one change nothing but the capture.
  function Update(c: Config, s: State, i: Input): State
    requires WellShaped(c, s)
  {
    var s0 := BeginCapture(c, s, i);
    if s0.tPrev < 0.0 then NoProbe(s0).(tPrev := i.t)
    else if i.t - s0.tPrev <= 0.0 then s0
    else
      var s1 := s0.(tPrev := i.t);
      var s2 := if s1.outcome == Running && i.fault then Fail(s1, HardFault) else s1;
      var s3 := if s2.outcome != HardFault && s2.outcome != Completed then Advance(c, s2, i.t, i.t - s0.tPrev, i) else s2;
      s3.(clipRun := if i.clipped then s3.clipRun + 1 else 0)
  }

  // One cycle: the update, then the observer, which may turn any run into a hard fault.
  function Cycle(c: Config, s: State, i: Input): State
    requires WellShaped(c, s)
  {
    var s' := Update(c, s, i);
    if i.observerFault then Fail(s', HardFault) else s'
  }

  predicate Terminal(s: State) {
    s.outcome == HardFault || s.phase == Done
  }

  lemma {:induction false} StartDwellShape(c: Config, s: State, k: nat, t: real, headroom: real)
    requires ValidConfig(c) && |s.results| == |c.dwells| && k <= |c.dwells|
    ensures WellShaped(c, StartDwell(c, s, k, t, headroom))
    ensures var s' := StartDwell(c, s, k, t, headroom);
            && (s'.phase == RampIn || s'.phase == FinalHold) && s'.phaseStart == t && s'.tPrev == s.tPrev
            && (s'.phase == RampIn ==> s'.outcome == s.outcome && Admits(c, t, WorstOnward(c, s'.dwell)))
            && s'.probe.tau == s.probe.tau
            && (s'.outcome == s.outcome || (s.outcome == Running && s'.outcome == DeadlineStop && s'.phase == FinalHold))
    decreases |c.dwells| - k
  {
    if k < |c.dwells| && Admits(c, t, WorstOnward(c, k)) && Min(s.results[k].amp, headroom) < AMP_FLOOR {
      var s1 := NoRetry(s).(dwell := k, results := s.results[k := s.results[k].(skipped := true)]);
      StartDwellShape(c, s1, k + 1, t, headroom);
    }
  }

  // The states from which a dwell ends in RampOut and ReSettle.
  function AfterRampOut(c: Config, s: State, dt: real, i: Input): State
    requires WellShaped(c, s) && 0 <= s.dwell < |c.dwells|
  {
    NoRetry(NoProbe(EmitProbe(Turn(c, s, dt), 0.5 * (1.0 + i.cosine), i.sine)))
  }

  // Below the ramp's end only the probe changes; at it, the next dwell is due.
  lemma InRampOutSplits(c: Config, s: State, t: real, dt: real, i: Input)
    requires WellShaped(c, s) && 0 <= s.dwell < |c.dwells|
    ensures var s' := AfterRampOut(c, s, dt, i);
            s'.results == s.results && s'.outcome == s.outcome && s'.dwell == s.dwell
    ensures var s' := InRampOut(c, s, t, dt, i);
            if t - s.phaseStart >= RAMP then s' == StartDwell(c, AfterRampOut(c, s, dt, i), s.dwell + 1, t, i.headroom)
            else s' == s.(probe := s'.probe)
  {
    hide StartDwell, ProbeTorque;
  }

  lemma InRampOutShape(c: Config, s: State, t: real, dt: real, i: Input)
    requires WellShaped(c, s) && 0 <= s.dwell < |c.dwells|
    ensures WellShaped(c, InRampOut(c, s, t, dt, i))
  {
    hide StartDwell, ProbeTorque;
    StartDwellShape(c, AfterRampOut(c, s, dt, i), s.dwell + 1, t, i.headroom);
  }

  lemma InReSettleShape(c: Config, s: State, t: real, i: Input)
    requires WellShaped(c, s) && 0 <= s.dwell < |c.dwells|
    ensures WellShaped(c, InReSettle(c, s, t, i))
  {
    hide StartDwell, Admits, WorstOnward;
    StartDwellShape(c, NoRetry(NoProbe(s)), s.dwell + 1, t, i.headroom);
  }

  lemma ProbingShape(c: Config, s: State, t: real, dt: real, i: Input)
    requires WellShaped(c, s) && (s.phase == RampIn || s.phase == Hold || s.phase == Measure || s.phase == KillRamp)
    ensures WellShaped(c, InPhase(c, s, t, dt, i))
  {
    hide ProbeTorque, KillEnvelope, DemodAdd, WindowPeriods;
  }

  lemma InPhaseShape(c: Config, s: State, t: real, dt: real, i: Input)
    requires WellShaped(c, s)
    ensures WellShaped(c, InPhase(c, s, t, dt, i))
  {
    hide StartDwell, InRampIn, InHold, InMeasure, InKillRamp, InRampOut, InReSettle;
    match s.phase
    case LeadIn => StartDwellShape(c, s, 0, t, i.headroom);
    case RampOut => InRampOutShape(c, s, t, dt, i);
    case ReSettle => InReSettleShape(c, s, t, i);
    case RampIn => ProbingShape(c, s, t, dt, i);
    case Hold => ProbingShape(c, s, t, dt, i);
    case Measure => ProbingShape(c, s, t, dt, i);
    case KillRamp => ProbingShape(c, s, t, dt, i);
    case _ =>
  }

  lemma BackstopShape(c: Config, s: State, t: real)
    requires WellShaped(c, s)
    ensures WellShaped(c, Backstop(c, s, t))
  {
  }

  lemma AdvanceShape(c: Config, s: State, t: real, dt: real, i: Input)
    requires WellShaped(c, s)
    ensures WellShaped(c, Advance(c, s, t, dt, i))
  {
    hide InPhase, Backstop;
    BackstopShape(c, s, t);
    InPhaseShape(c, Backstop(c, s, t), t, dt, i);
  }

  lemma BeginShape(c: Config, s: State, i: Input)
    requires WellShaped(c, s)
    ensures WellShaped(c, BeginCapture(c, s, i))
    ensures BeginCapture(c, s, i).tPrev == s.tPrev
    ensures BeginCapture(c, s, i).outcome == s.outcome || BeginCapture(c, s, i).outcome == HardFault
  {
  }

  lemma ResumeShape(c: Config, s: State, t: real)
    requires WellShaped(c, s)
    ensures WellShaped(c, s.(tPrev := t)) && WellShaped(c, Fail(s.(tPrev := t), HardFault))
  {
  }

  lemma CycleShape(c: Config, s: State, i: Input)
    requires WellShaped(c, s)
    ensures WellShaped(c, Cycle(c, s, i))
  {
    hide Advance, BeginCapture;
    BeginShape(c, s, i);
    var s0 := BeginCapture(c, s, i);
    AdvanceShape(c, s0.(tPrev := i.t), i.t, i.t - s0.tPrev, i);
  }

  // ----- Whole runs -----

  // The state after the first n cycles.
  function Run(c: Config, inputs: seq<Input>, n: nat): (s: State)
    requires ValidConfig(c) && n <= |inputs|
    ensures WellShaped(c, s)
  {
    if n == 0 then Initial(c)
    else
      var s := Run(c, inputs, n - 1);
      CycleShape(c, s, inputs[n - 1]);
      Cycle(c, s, inputs[n - 1])
  }

  // ----- The probe stays within the cap, and is off wherever no clamp is excused -----

  // The phases in which the observer excuses a clamp of the probe joint.
  predicate ProbeActive(p: Phase) {
    p == RampIn || p == Hold || p == Measure || p == RampOut || p == KillRamp
  }

  ghost predicate ProbeBounded(s: State, cap: real) {
    && 0.0 <= s.probe.envelope <= 1.0 && 0.0 <= s.kill.envelope <= 1.0 && 0.0 <= s.probe.retryAmp <= cap
    && -cap <= s.probe.tau <= cap
    && (!ProbeActive(s.phase) || s.outcome == HardFault ==> s.probe.tau == 0.0)
    && forall k | 0 <= k < |s.results| :: AMP_FLOOR <= s.results[k].amp <= cap
  }

  lemma SwungWithin(peak: real, sine: real)
    requires 0.0 <= peak && -1.0 <= sine <= 1.0
    ensures -peak <= Mul(peak, sine) <= peak
  {
    hide Mul;
    MulSwaps(peak, sine);
    MulMonotone(sine, 1.0, peak);
    MulMonotone(-1.0, sine, peak);
    MulUnits(peak);
    MulAdds(0.0, 1.0, peak);
  }

  lemma TorqueBounded(envelope: real, amp: real, sine: real, cap: real)
    requires 0.0 <= envelope <= 1.0 && 0.0 <= amp <= cap && -1.0 <= sine <= 1.0
    ensures -cap <= ProbeTorque(envelope, amp, sine) <= cap
  {
    hide Mul;
    ShareWithin(envelope, amp);
    SwungWithin(Mul(envelope, amp), sine);
  }

  lemma EmitBounded(s: State, envelope: real, sine: real, cap: real)
    requires 0 <= s.dwell < |s.results| && ProbeBounded(s, cap) && s.outcome != HardFault && ProbeActive(s.phase)
    requires 0.0 <= envelope <= 1.0 && -1.0 <= sine <= 1.0
    ensures ProbeBounded(EmitProbe(s, envelope, sine), cap)
  {
    TorqueBounded(envelope, if s.probe.retryAmp > 0.0 then s.probe.retryAmp else s.results[s.dwell].amp, sine, cap);
  }

  lemma {:induction false} StartDwellBounded(c: Config, s: State, k: nat, t: real, headroom: real, cap: real)
    requires ValidConfig(c) && |s.results| == |c.dwells| && k <= |c.dwells|
    requires ProbeBounded(s, cap) && s.probe.tau == 0.0
    ensures ProbeBounded(StartDwell(c, s, k, t, headroom), cap)
    decreases |c.dwells| - k
  {
    if k < |c.dwells| && Admits(c, t, WorstOnward(c, k)) && Min(s.results[k].amp, headroom) < AMP_FLOOR {
      StartDwellBounded(c, NoRetry(s).(dwell := k, results := s.results[k := s.results[k].(skipped := true)]), k + 1, t, headroom, cap);
    }
  }

  lemma BackstopBounded(c: Config, s: State, t: real, cap: real)
    requires WellShaped(c, s) && ProbeBounded(s, cap)
    ensures ProbeBounded(Backstop(c, s, t), cap)
  {
  }

  lemma InRampOutBounded(c: Config, s: State, t: real, dt: real, i: Input, cap: real)
    requires WellShaped(c, s) && ProbeBounded(s, cap) && ValidInput(i) && s.outcome != HardFault && s.phase == RampOut
    ensures ProbeBounded(InRampOut(c, s, t, dt, i), cap)
  {
    hide ProbeTorque, StartDwell;
    EmitBounded(Turn(c, s, dt), 0.5 * (1.0 + i.cosine), i.sine, cap);
    StartDwellBounded(c, AfterRampOut(c, s, dt, i), s.dwell + 1, t, i.headroom, cap);
  }

  lemma KillEnvelopeBounded(k: Kill, cosine: real)
    requires 0.0 <= k.envelope <= 1.0 && -1.0 <= cosine <= 1.0
    ensures 0.0 <= KillEnvelope(k, cosine) <= 1.0
  {
    hide Mul;
    ShareWithin(k.envelope, 0.5 * (1.0 + cosine));
  }

  lemma InKillRampBounded(c: Config, s: State, t: real, dt: real, i: Input, cap: real)
    requires WellShaped(c, s) && ProbeBounded(s, cap) && ValidInput(i) && s.outcome != HardFault && s.phase == KillRamp
    ensures ProbeBounded(InKillRamp(c, s, t, dt, i), cap)
  {
    hide ProbeTorque, KillEnvelope;
    KillEnvelopeBounded(s.kill, i.cosine);
    EmitBounded(Turn(c, s, dt), KillEnvelope(s.kill, i.cosine), i.sine, cap);
  }

  lemma SoftRemovalBounded(s: State, t: real, cap: real)
    requires 0 <= s.dwell < |s.results| && ProbeBounded(s, cap) && s.outcome != HardFault
    ensures ProbeBounded(SoftRemoval(s, t), cap)
  {
  }

  lemma InRampInBounded(c: Config, s: State, t: real, dt: real, i: Input, cap: real)
    requires WellShaped(c, s) && ProbeBounded(s, cap) && ValidInput(i) && s.outcome != HardFault && s.phase == RampIn
    ensures ProbeBounded(InRampIn(c, s, t, dt, i), cap)
  {
    hide ProbeTorque, SoftRemoval;
    EmitBounded(Turn(c, s, dt), 0.5 * (1.0 - i.cosine), i.sine, cap);
    SoftRemovalBounded(EmitProbe(Turn(c, s, dt), 0.5 * (1.0 - i.cosine), i.sine), t, cap);
  }

  lemma InHoldBounded(c: Config, s: State, t: real, dt: real, i: Input, cap: real)
    requires WellShaped(c, s) && ProbeBounded(s, cap) && ValidInput(i) && s.outcome != HardFault && s.phase == Hold
    ensures ProbeBounded(InHold(c, s, t, dt, i), cap)
  {
    hide ProbeTorque, SoftRemoval;
    EmitBounded(Turn(c, s, dt), 1.0, i.sine, cap);
    SoftRemovalBounded(EmitProbe(Turn(c, s, dt), 1.0, i.sine), t, cap);
  }

  lemma InMeasureBounded(c: Config, s: State, t: real, dt: real, i: Input, cap: real)
    requires WellShaped(c, s) && ProbeBounded(s, cap) && ValidInput(i) && s.outcome != HardFault && s.phase == Measure
    ensures ProbeBounded(InMeasure(c, s, t, dt, i), cap)
  {
    hide ProbeTorque, SoftRemoval, DemodAdd;
    var s0 := EmitProbe(Turn(c, s, dt), 1.0, i.sine);
    EmitBounded(Turn(c, s, dt), 1.0, i.sine, cap);
    SoftRemovalBounded(s0.(window := s.window.(demod := DemodAdd(s.window.demod, s0.probe.phi, i.solved))), t, cap);
  }

  lemma InReSettleBounded(c: Config, s: State, t: real, i: Input, cap: real)
    requires WellShaped(c, s) && ProbeBounded(s, cap) && s.phase == ReSettle
    ensures ProbeBounded(InReSettle(c, s, t, i), cap)
  {
    hide StartDwell;
    StartDwellBounded(c, NoRetry(NoProbe(s)), s.dwell + 1, t, i.headroom, cap);
  }

  lemma InPhaseBounded(c: Config, s: State, t: real, dt: real, i: Input, cap: real)
    requires WellShaped(c, s) && ProbeBounded(s, cap) && ValidInput(i) && s.outcome != HardFault
    ensures ProbeBounded(InPhase(c, s, t, dt, i), cap)
  {
    hide StartDwell, InRampIn, InHold, InMeasure, InRampOut, InKillRamp, InReSettle;
    match s.phase
    case LeadIn => StartDwellBounded(c, s, 0, t, i.headroom, cap);
    case RampIn => InRampInBounded(c, s, t, dt, i, cap);
    case Hold => InHoldBounded(c, s, t, dt, i, cap);
    case Measure => InMeasureBounded(c, s, t, dt, i, cap);
    case RampOut => InRampOutBounded(c, s, t, dt, i, cap);
    case KillRamp => InKillRampBounded(c, s, t, dt, i, cap);
    case ReSettle => InReSettleBounded(c, s, t, i, cap);
    case _ =>
  }

  lemma AdvanceBounded(c: Config, s: State, t: real, dt: real, i: Input, cap: real)
    requires WellShaped(c, s) && ProbeBounded(s, cap) && ValidInput(i) && s.outcome != HardFault
    ensures ProbeBounded(Advance(c, s, t, dt, i), cap)
  {
    hide InPhase, Backstop;
    BackstopShape(c, s, t);
    BackstopBounded(c, s, t, cap);
    BackstopKeepsRunning(c, s, t);
    InPhaseBounded(c, Backstop(c, s, t), t, dt, i, cap);
  }

  lemma BeginBounded(c: Config, s: State, i: Input, cap: real)
    requires WellShaped(c, s) && ProbeBounded(s, cap)
    ensures ProbeBounded(BeginCapture(c, s, i), cap) && WellShaped(c, BeginCapture(c, s, i))
  {
  }

  lemma CycleBounded(c: Config, s: State, i: Input, cap: real)
    requires WellShaped(c, s) && ProbeBounded(s, cap) && ValidInput(i)
    ensures ProbeBounded(Cycle(c, s, i), cap)
  {
    hide Advance, BeginCapture;
    var s0 := BeginCapture(c, s, i);
    BeginBounded(c, s, i, cap);
    if s0.outcome != HardFault { AdvanceBounded(c, s0.(tPrev := i.t), i.t, i.t - s0.tPrev, i, cap); }
  }

  lemma BackstopKeepsRunning(c: Config, s: State, t: real)
    ensures Backstop(c, s, t).outcome == s.outcome || (s.outcome == Running && Backstop(c, s, t).outcome == DeadlineStop)
  {
  }

  /** For schedules within the cap: after every cycle of every run the probe torque is within
      it, and is zero in every phase where the observer excuses no clamp, and after a fault. */
  lemma {:induction false} ProbeWithinCap(c: Config, inputs: seq<Input>, n: nat, cap: real)
    requires ValidConfig(c) && n <= |inputs| && AmplitudesWithin(c.dwells, cap) && cap >= 0.0
    requires forall k | 0 <= k < |inputs| :: ValidInput(inputs[k])
    ensures var s := Run(c, inputs, n);
            && -cap <= s.probe.tau <= cap
            && (!ProbeActive(s.phase) || s.outcome == HardFault ==> s.probe.tau == 0.0)
  {
    RunBounded(c, inputs, n, cap);
  }

  lemma {:induction false} RunBounded(c: Config, inputs: seq<Input>, n: nat, cap: real)
    requires ValidConfig(c) && n <= |inputs| && AmplitudesWithin(c.dwells, cap) && cap >= 0.0
    requires forall k | 0 <= k < |inputs| :: ValidInput(inputs[k])
    ensures ProbeBounded(Run(c, inputs, n), cap)
  {
    hide Cycle;
    if n > 0 {
      RunBounded(c, inputs, n - 1, cap);
      CycleBounded(c, Run(c, inputs, n - 1), inputs[n - 1], cap);
    }
  }

  // ----- Every scheduled dwell is started or skipped -----

  predicate Settled(r: DwellResult) {
    r.started || r.skipped
  }

  ghost predicate SettledBefore(s: State, k: int) {
    forall j | 0 <= j < k && j < |s.results| :: Settled(s.results[j])
  }

  // No dwell is passed over on the way, and the run is stopped only with all of them settled.
  ghost predicate Accounted(c: Config, s: State)
    requires WellShaped(c, s)
  {
    || s.outcome == HardFault
    || (s.outcome == SoftAbort && s.phase == Done)
    || ((s.outcome == DeadlineStop || s.outcome == Completed) && SettledBefore(s, |s.results|)
        && (s.phase == Done || (s.outcome == DeadlineStop
                                && (s.phase == FinalHold || (s.phase == KillRamp && s.kill.toFinal)))))
    || (s.outcome == Running && s.phase != Done && SettledBefore(s, s.dwell)
        && (InDwell(s.phase) ==> s.results[s.dwell].started)
        && (s.phase == FinalHold ==> s.dwell == |s.results|)
        && (s.phase == KillRamp ==> !s.kill.toFinal))
  }

  lemma {:induction false} StartDwellAccounted(c: Config, s: State, k: nat, t: real, headroom: real)
    requires ValidConfig(c) && |s.results| == |c.dwells| && k <= |c.dwells|
    requires s.outcome == Running && SettledBefore(s, k)
    ensures WellShaped(c, StartDwell(c, s, k, t, headroom)) && Accounted(c, StartDwell(c, s, k, t, headroom))
    decreases |c.dwells| - k
  {
    StartDwellShape(c, s, k, t, headroom);
    if k < |c.dwells| && Admits(c, t, WorstOnward(c, k)) && Min(s.results[k].amp, headroom) < AMP_FLOOR {
      StartDwellAccounted(c, NoRetry(s).(dwell := k, results := s.results[k := s.results[k].(skipped := true)]), k + 1, t, headroom);
    }
  }

  lemma BackstopAccounted(c: Config, s: State, t: real)
    requires WellShaped(c, s) && Accounted(c, s)
    ensures WellShaped(c, Backstop(c, s, t)) && Accounted(c, Backstop(c, s, t))
  {
    BackstopShape(c, s, t);
    if s.outcome == Running && ProbeCarrying(s.phase) {
      var marked := MarkRest(Fail(s, DeadlineStop));
      forall j | 0 <= j < |s.results| ensures Settled(marked.results[j]) {
        assert j < s.dwell ==> Settled(s.results[j]);
      }
    }
  }

  lemma ProbingAccounted(c: Config, s: State, t: real, dt: real, i: Input)
    requires WellShaped(c, s) && Accounted(c, s) && (s.phase == RampIn || s.phase == Hold || s.phase == Measure || s.phase == KillRamp)
    ensures WellShaped(c, InPhase(c, s, t, dt, i)) && Accounted(c, InPhase(c, s, t, dt, i))
  {
    hide ProbeTorque, KillEnvelope, DemodAdd;
    ProbingShape(c, s, t, dt, i);
  }

  lemma InRampOutAccounted(c: Config, s: State, t: real, dt: real, i: Input)
    requires WellShaped(c, s) && Accounted(c, s) && s.phase == RampOut && s.outcome == Running
    ensures WellShaped(c, InRampOut(c, s, t, dt, i)) && Accounted(c, InRampOut(c, s, t, dt, i))
  {
    hide StartDwell, InRampOut, AfterRampOut;
    InRampOutSplits(c, s, t, dt, i);
    InRampOutShape(c, s, t, dt, i);
    if t - s.phaseStart >= RAMP { StartDwellAccounted(c, AfterRampOut(c, s, dt, i), s.dwell + 1, t, i.headroom); }
  }

  lemma InReSettleAccounted(c: Config, s: State, t: real, i: Input)
    requires WellShaped(c, s) && Accounted(c, s) && s.phase == ReSettle && s.outcome == Running
    ensures WellShaped(c, InReSettle(c, s, t, i)) && Accounted(c, InReSettle(c, s, t, i))
  {
    hide StartDwell;
    InReSettleShape(c, s, t, i);
    StartDwellAccounted(c, NoRetry(NoProbe(s)), s.dwell + 1, t, i.headroom);
  }

  lemma InPhaseAccounted(c: Config, s: State, t: real, dt: real, i: Input)
    requires WellShaped(c, s) && Accounted(c, s) && s.outcome != HardFault && s.outcome != Completed
    ensures WellShaped(c, InPhase(c, s, t, dt, i)) && Accounted(c, InPhase(c, s, t, dt, i))
  {
    hide StartDwell, InRampIn, InHold, InMeasure, InRampOut, InKillRamp, InReSettle;
    InPhaseShape(c, s, t, dt, i);
    match s.phase
    case LeadIn => StartDwellAccounted(c, s, 0, t, i.headroom);
    case RampOut => InRampOutAccounted(c, s, t, dt, i);
    case ReSettle => InReSettleAccounted(c, s, t, i);
    case RampIn => ProbingAccounted(c, s, t, dt, i);
    case Hold => ProbingAccounted(c, s, t, dt, i);
    case Measure => ProbingAccounted(c, s, t, dt, i);
    case KillRamp => ProbingAccounted(c, s, t, dt, i);
    case _ =>
  }

  lemma AdvanceAccounted(c: Config, s: State, t: real, dt: real, i: Input)
    requires WellShaped(c, s) && Accounted(c, s) && s.outcome != HardFault && s.outcome != Completed
    ensures WellShaped(c, Advance(c, s, t, dt, i)) && Accounted(c, Advance(c, s, t, dt, i))
  {
    hide InPhase, Backstop;
    BackstopAccounted(c, s, t);
    BackstopKeepsRunning(c, s, t);
    InPhaseAccounted(c, Backstop(c, s, t), t, dt, i);
  }

  lemma BeginAccounted(c: Config, s: State, i: Input)
    requires WellShaped(c, s) && Accounted(c, s)
    ensures WellShaped(c, BeginCapture(c, s, i)) && Accounted(c, BeginCapture(c, s, i))
  {
  }

  lemma CycleAccounted(c: Config, s: State, i: Input)
    requires WellShaped(c, s) && Accounted(c, s)
    ensures WellShaped(c, Cycle(c, s, i)) && Accounted(c, Cycle(c, s, i))
  {
    hide Advance, BeginCapture;
    CycleShape(c, s, i);
    BeginAccounted(c, s, i);
    var s0 := BeginCapture(c, s, i);
    if s0.outcome != HardFault && s0.outcome != Completed {
      AdvanceAccounted(c, s0.(tPrev := i.t), i.t, i.t - s0.tPrev, i);
    }
  }

  /** At a clean finish every scheduled dwell was started or skipped. */
  lemma CleanFinishSettlesEveryDwell(c: Config, inputs: seq<Input>, n: nat)
    requires ValidConfig(c) && n <= |inputs|
    ensures var s := Run(c, inputs, n);
            s.phase == Done && (s.outcome == Completed || s.outcome == DeadlineStop) ==>
              forall k | 0 <= k < |c.dwells| :: Settled(s.results[k])
  {
    RunAccounted(c, inputs, n);
  }

  lemma {:induction false} RunAccounted(c: Config, inputs: seq<Input>, n: nat)
    requires ValidConfig(c) && n <= |inputs|
    ensures Accounted(c, Run(c, inputs, n))
  {
    hide Cycle;
    if n > 0 {
      RunAccounted(c, inputs, n - 1);
      CycleAccounted(c, Run(c, inputs, n - 1), inputs[n - 1]);
    }
  }

  // ----- Bounded termination -----

  // The graceful-stop threshold in the run's own time.
  function StopTime(c: Config): real {
    c.tStop - c.setupOffset
  }

  // How late each phase may begin and last, at the instant t of a cycle, with the deadlines
  // stretched by `slack` (the gap since the cycle before) while that cycle is not yet decided.
  ghost predicate PhaseOnTime(c: Config, s: State, t: real, delta: real, slack: real) {
    match s.phase
    case RampOut => s.phaseStart + 1.0 <= StopTime(c) && t < s.phaseStart + RAMP + slack
    case KillRamp => s.phaseStart + 1.0 <= StopTime(c) + (if s.kill.toFinal then delta else 0.0)
                     && t < s.phaseStart + KILL_RAMP + slack
    case ReSettle => s.phaseStart + 0.95 <= StopTime(c) + delta && t < s.phaseStart + RE_SETTLE + slack
    case FinalHold => s.phaseStart <= StopTime(c) + 1.05 + 2.0 * delta && t < s.phaseStart + FINAL_HOLD + slack
    case Done => true
    case _ => t + 1.0 <= StopTime(c) + slack
  }

  ghost predicate OnTime(c: Config, s: State, delta: real) {
    Terminal(s) || s.tPrev < 0.0 || PhaseOnTime(c, s, s.tPrev, delta, 0.0)
  }

  // Inside a cycle, past the backstop.
  ghost predicate PastBackstop(c: Config, s: State, t: real, delta: real) {
    PhaseOnTime(c, s, t, delta, if ProbeCarrying(s.phase) then 0.0 else delta)
  }

  lemma {:induction false} WorstFromPositive(dwells: seq<DwellSpec>, first: nat)
    requires first <= |dwells| && PositiveFrequencies(dwells)
    ensures WorstFrom(dwells, first) >= FINAL_HOLD
    decreases |dwells| - first
  {
    if first < |dwells| {
      QuotientAtLeast(WindowPeriods(dwells[first].freq) as real, dwells[first].freq, 0.0);
      WorstFromPositive(dwells, first + 1);
    }
  }

  lemma AdmittedInTime(c: Config, t: real, k: nat)
    requires k < |c.dwells| && PositiveFrequencies(c.dwells) && Admits(c, t, WorstOnward(c, k))
    ensures t + 1.0 <= StopTime(c)
  {
    QuotientAtLeast(WindowPeriods(c.dwells[k].freq) as real, c.dwells[k].freq, 0.0);
    WorstFromPositive(c.dwells, k + 1);
  }

  lemma BackstopOnTime(c: Config, s: State, t: real, t0: real, delta: real)
    requires WellShaped(c, s) && Accounted(c, s) && !Terminal(s) && t0 <= t <= t0 + delta
    requires PhaseOnTime(c, s, t0, delta, 0.0)
    ensures PastBackstop(c, Backstop(c, s, t), t, delta)
  {
  }

  // A dwell begun at t, or the final hold instead, is in time.
  lemma BegunOnTime(c: Config, s: State, k: nat, t: real, headroom: real, delta: real)
    requires ValidConfig(c) && |s.results| == |c.dwells| && k <= |c.dwells| && s.tPrev == t && 0.0 <= delta
    requires t <= StopTime(c) + 1.05 + 2.0 * delta
    ensures OnTime(c, StartDwell(c, s, k, t, headroom), delta)
  {
    hide StartDwell;
    StartDwellShape(c, s, k, t, headroom);
    var s' := StartDwell(c, s, k, t, headroom);
    if s'.phase == RampIn { AdmittedInTime(c, t, s'.dwell); }
  }

  lemma ProbingOnTime(c: Config, s: State, t: real, dt: real, i: Input, delta: real)
    requires WellShaped(c, s) && s.tPrev == t && 0.0 <= delta && PastBackstop(c, s, t, delta)
    requires s.phase == RampIn || s.phase == Hold || s.phase == Measure || s.phase == KillRamp
    ensures OnTime(c, InPhase(c, s, t, dt, i), delta)
  {
    hide ProbeTorque, KillEnvelope, DemodAdd, WindowPeriods;
  }

  lemma InRampOutOnTime(c: Config, s: State, t: real, dt: real, i: Input, delta: real)
    requires WellShaped(c, s) && s.tPrev == t && 0.0 <= delta && PastBackstop(c, s, t, delta) && s.phase == RampOut
    ensures OnTime(c, InRampOut(c, s, t, dt, i), delta)
  {
    hide ProbeTorque, StartDwell;
    BegunOnTime(c, AfterRampOut(c, s, dt, i), s.dwell + 1, t, i.headroom, delta);
  }

  lemma InReSettleOnTime(c: Config, s: State, t: real, i: Input, delta: real)
    requires WellShaped(c, s) && s.tPrev == t && 0.0 <= delta && PastBackstop(c, s, t, delta) && s.phase == ReSettle
    ensures OnTime(c, InReSettle(c, s, t, i), delta)
  {
    hide StartDwell;
    BegunOnTime(c, NoRetry(NoProbe(s)), s.dwell + 1, t, i.headroom, delta);
    if Admits(c, t, WorstOnward(c, s.dwell)) { AdmittedInTime(c, t, s.dwell); }
  }

  lemma InPhaseOnTime(c: Config, s: State, t: real, dt: real, i: Input, delta: real)
    requires WellShaped(c, s) && s.tPrev == t && 0.0 <= delta && PastBackstop(c, s, t, delta)
    ensures OnTime(c, InPhase(c, s, t, dt, i), delta)
  {
    hide StartDwell, InRampIn, InHold, InMeasure, InRampOut, InKillRamp, InReSettle;
    match s.phase
    case LeadIn => BegunOnTime(c, s, 0, t, i.headroom, delta);
    case RampOut => InRampOutOnTime(c, s, t, dt, i, delta);
    case ReSettle => InReSettleOnTime(c, s, t, i, delta);
    case RampIn => ProbingOnTime(c, s, t, dt, i, delta);
    case Hold => ProbingOnTime(c, s, t, dt, i, delta);
    case Measure => ProbingOnTime(c, s, t, dt, i, delta);
    case KillRamp => ProbingOnTime(c, s, t, dt, i, delta);
    case _ =>
  }

  lemma AdvanceOnTime(c: Config, s: State, t0: real, t: real, i: Input, delta: real)
    requires WellShaped(c, s) && Accounted(c, s) && !Terminal(s) && t0 <= t <= t0 + delta && s.tPrev == t
    requires PhaseOnTime(c, s, t0, delta, 0.0)
    ensures OnTime(c, Advance(c, s, t, t - t0, i), delta)
  {
    hide InPhase, PhaseOnTime;
    BackstopShape(c, s, t);
    BackstopOnTime(c, s, t, t0, delta);
    InPhaseOnTime(c, Backstop(c, s, t), t, t - t0, i, delta);
  }

  lemma BeginKeepsTime(c: Config, s: State, i: Input, delta: real)
    ensures var s0 := BeginCapture(c, s, i);
            && s0.phase == s.phase && s0.phaseStart == s.phaseStart && s0.tPrev == s.tPrev && s0.kill == s.kill
            && (Terminal(s) ==> Terminal(s0))
  {
  }

  lemma BegunCycleOnTime(c: Config, s0: State, i: Input, delta: real)
    requires WellShaped(c, s0) && Accounted(c, s0) && !Terminal(s0) && 0.0 <= delta
    requires 0.0 <= s0.tPrev < i.t <= s0.tPrev + delta && PhaseOnTime(c, s0, s0.tPrev, delta, 0.0)
    ensures OnTime(c, Advance(c, s0.(tPrev := i.t), i.t, i.t - s0.tPrev, i), delta)
  {
    hide Advance;
    AdvanceOnTime(c, s0.(tPrev := i.t), s0.tPrev, i.t, i, delta);
  }

  // A cycle no more than delta after the one before keeps the run on time.
  lemma CycleOnTime(c: Config, s: State, i: Input, delta: real)
    requires WellShaped(c, s) && Accounted(c, s) && OnTime(c, s, delta) && 0.0 <= delta && 0.0 <= i.t
    requires if s.tPrev < 0.0 then BeforeDwells(s.phase) && i.t + 1.0 <= StopTime(c) else s.tPrev <= i.t <= s.tPrev + delta
    ensures OnTime(c, Cycle(c, s, i), delta)
  {
    hide Advance, BeginCapture, Accounted;
    var s0 := BeginCapture(c, s, i);
    BeginAccounted(c, s, i);
    BeginKeepsTime(c, s, i, delta);
    if s0.phase == Done { DoneStaysDone(c, s0.(tPrev := i.t), i.t, i.t - s0.tPrev, i); }
    if !Terminal(s0) && 0.0 <= s0.tPrev < i.t { BegunCycleOnTime(c, s0, i, delta); }
  }

  lemma DoneStaysDone(c: Config, s: State, t: real, dt: real, i: Input)
    requires WellShaped(c, s) && s.phase == Done
    ensures Advance(c, s, t, dt, i).phase == Done
  {
  }

  lemma TerminalForever(c: Config, s: State, i: Input)
    requires WellShaped(c, s) && Terminal(s)
    ensures Terminal(Cycle(c, s, i))
  {
  }

  // Cycles in time order, each at most delta after the one before.
  ghost predicate Timely(inputs: seq<Input>, delta: real) {
    && (forall k | 0 <= k < |inputs| :: ValidInput(inputs[k]))
    && (forall k | 0 < k < |inputs| :: inputs[k - 1].t <= inputs[k].t <= inputs[k - 1].t + delta)
  }

  lemma InPhaseKeepsClock(c: Config, s: State, t: real, dt: real, i: Input)
    requires WellShaped(c, s)
    ensures InPhase(c, s, t, dt, i).tPrev == s.tPrev
  {
    hide ProbeTorque, KillEnvelope, DemodAdd, StartDwell;
    match s.phase
    case LeadIn => StartDwellShape(c, s, 0, t, i.headroom);
    case RampOut => StartDwellShape(c, AfterRampOut(c, s, dt, i), s.dwell + 1, t, i.headroom);
    case ReSettle => StartDwellShape(c, NoRetry(NoProbe(s)), s.dwell + 1, t, i.headroom);
    case _ =>
  }

  lemma AdvanceKeepsClock(c: Config, s: State, t: real, dt: real, i: Input)
    requires WellShaped(c, s)
    ensures Advance(c, s, t, dt, i).tPrev == s.tPrev
  {
    hide InPhase;
    BackstopShape(c, s, t);
    InPhaseKeepsClock(c, Backstop(c, s, t), t, dt, i);
  }

  lemma CycleClock(c: Config, s: State, i: Input)
    requires WellShaped(c, s) && 0.0 <= i.t && s.tPrev <= i.t
    ensures Cycle(c, s, i).tPrev == i.t
  {
    hide Advance, BeginCapture;
    BeginShape(c, s, i);
    var s1 := BeginCapture(c, s, i).(tPrev := i.t);
    AdvanceKeepsClock(c, s1, i.t, i.t - s.tPrev, i);
  }

  lemma {:induction false} RunClock(c: Config, inputs: seq<Input>, n: nat, delta: real)
    requires ValidConfig(c) && n <= |inputs| && Timely(inputs, delta)
    ensures Run(c, inputs, n).tPrev == if n == 0 then -1.0 else inputs[n - 1].t
  {
    hide Cycle;
    if n > 0 {
      RunClock(c, inputs, n - 1, delta);
      CycleClock(c, Run(c, inputs, n - 1), inputs[n - 1]);
    }
  }

  lemma {:induction false} RunOnTime(c: Config, inputs: seq<Input>, n: nat, delta: real)
    requires ValidConfig(c) && n <= |inputs| && Timely(inputs, delta) && 0.0 <= delta
    requires |inputs| > 0 ==> inputs[0].t + 1.0 <= StopTime(c)
    ensures OnTime(c, Run(c, inputs, n), delta)
  {
    hide Cycle;
    if n > 0 {
      RunOnTime(c, inputs, n - 1, delta);
      RunAccounted(c, inputs, n - 1);
      RunClock(c, inputs, n - 1, delta);
      CycleOnTime(c, Run(c, inputs, n - 1), inputs[n - 1], delta);
    }
  }

  /** Bounded termination. Whatever faults, soft events, refusals and retries occur, a run whose
      cycles are at most delta apart, the first of them before the backstop point, is done or
      hard-faulted at every cycle from 1.55 s + 2 delta past the graceful-stop threshold on. */
  lemma TerminalPastTheBound(c: Config, inputs: seq<Input>, n: nat, delta: real)
    requires ValidConfig(c) && 0 < n <= |inputs| && Timely(inputs, delta) && 0.0 <= delta
    requires inputs[0].t + 1.0 <= StopTime(c)
    requires inputs[n - 1].t >= StopTime(c) + 1.55 + 2.0 * delta
    ensures Terminal(Run(c, inputs, n))
  {
    RunOnTime(c, inputs, n, delta);
    RunClock(c, inputs, n, delta);
  }

  /** So a run that gets that far has ended within 1.55 s + 3 delta of the threshold, which is
      before the watchdog expires when delta is below 0.15 s. */
  lemma TerminatesByTheBound(c: Config, inputs: seq<Input>, n: nat, delta: real) returns (m: nat)
    requires ValidConfig(c) && 0 < n <= |inputs| && Timely(inputs, delta) && 0.0 <= delta
    requires inputs[0].t + 1.0 <= StopTime(c)
    requires inputs[n - 1].t >= StopTime(c) + 1.55 + 2.0 * delta
    ensures 0 < m <= n && Terminal(Run(c, inputs, m)) && inputs[m - 1].t < StopTime(c) + 1.55 + 3.0 * delta
    ensures c.tStop == T_STOP && delta < 0.15 ==> c.setupOffset + inputs[m - 1].t < T_QUIESCE
  {
    m := n;
    while m > 1 && inputs[m - 2].t >= StopTime(c) + 1.55 + 2.0 * delta
      invariant 1 <= m <= n && inputs[m - 1].t >= StopTime(c) + 1.55 + 2.0 * delta
    {
      m := m - 1;
    }
    TerminalPastTheBound(c, inputs, m, delta);
  }

  // ----- The second soft event on a dwell -----

  /** A dwell's second soft event schedules the abort exactly when a probe is there to remove:
      with the probe at zero that very cycle, the run settles again instead. */
  lemma SecondSoftEventAborts(c: Config, s: State, t: real)
    requires WellShaped(c, s) && 0 <= s.dwell < |s.results| && s.results[s.dwell].softEvents >= 1
    ensures var s' := SoftRemoval(s, t);
            && (s'.phase == KillRamp && s'.kill.abortAfter <==> s.probe.tau != 0.0)
            && (s'.phase == ReSettle <==> s.probe.tau == 0.0)
  {
  }

  /** A scheduled abort ends the run in one kill ramp, unless a hard fault comes first. */
  lemma ScheduledAbortEndsRun(c: Config, s: State, i: Input)
    requires WellShaped(c, s) && s.phase == KillRamp && s.outcome == Running && s.kill.abortAfter && !s.kill.toFinal
    requires 0.0 <= s.tPrev < i.t && s.phaseStart + KILL_RAMP <= i.t
    ensures var s' := Cycle(c, s, i);
            if i.fault || i.observerFault then s'.outcome == HardFault
            else s'.phase == Done && s'.outcome == SoftAbort && s'.probe.tau == 0.0
  {
  }

  // One dwell at 10 Hz, probed hand-placed.
  function OneDwell(): (c: Config)
    ensures ValidConfig(c)
  {
    Config([DwellSpec(10.0, 0.1, 1)], 0.0, T_STOP, 0.0, 0.0)
  }

  // A cycle whose probe sine is zero, with or without a soft event.
  function ZeroCrossing(t: real, soft: bool): Input {
    Input(t, false, 0.0, true, false, false, soft, false, false, true, 1.0, 0.0, 0.0, false)
  }

  // Settle, ramp and hold twice; each hold's first cycle is a soft event at a zero of the sine.
  function TwoQuietEvents(): seq<Input> {
    [ZeroCrossing(0.0, false), ZeroCrossing(2.0, false), ZeroCrossing(2.5, false), ZeroCrossing(2.6, true),
     ZeroCrossing(4.6, false), ZeroCrossing(5.1, false), ZeroCrossing(5.2, true), ZeroCrossing(7.2, false),
     ZeroCrossing(7.7, false)]
  }

  lemma OneDwellBudget()
    ensures var c := OneDwell();
            && IdentSchedule.LeadIn(c.dwells) == 2.0
            && WorstOnward(c, 0) == 8.5
  {
    var d := OneDwell().dwells;
    assert LowestFreq(d, 1) == Min(LowestFreq(d, 0), 10.0) == 10.0;
    assert WindowPeriods(10.0) == 30;
    assert WindowSeconds(10.0, 1) == 3.0;
    assert WorstFrom(d, 1) == FINAL_HOLD;
  }

  function QuietResult(softEvents: nat, retried: bool): DwellResult {
    DwellResult(0.1, true, false, false, false, retried, softEvents)
  }

  ghost predicate At(s: State, phase: Phase, since: real, now: real, r: DwellResult) {
    && s.phase == phase && s.outcome == Running && s.phaseStart == since && s.tPrev == now && s.dwell == 0
    && s.results == [r] && s.probe.tau == 0.0 && s.clipRun == 0
  }

  lemma QuietStart(s0: State, s1: State, s2: State)
    requires s0 == Initial(OneDwell()) && WellShaped(OneDwell(), s0)
    requires s1 == Cycle(OneDwell(), s0, ZeroCrossing(0.0, false)) && WellShaped(OneDwell(), s1)
    requires s2 == Cycle(OneDwell(), s1, ZeroCrossing(2.0, false))
    ensures At(s2, RampIn, 2.0, 2.0, QuietResult(0, false))
  {
    hide IdentSchedule.LeadIn, WorstOnward, WindowSeconds;
    OneDwellBudget();
  }

  // The ramp in ends, and the hold's first cycle is a soft event with nothing to remove.
  lemma QuietEvent(s0: State, s1: State, s2: State, t: real, r: DwellResult)
    requires At(s0, RampIn, t, t, r) && WellShaped(OneDwell(), s0) && 0.0 <= t <= 10.0
    requires s1 == Cycle(OneDwell(), s0, ZeroCrossing(t + 0.5, false)) && WellShaped(OneDwell(), s1)
    requires s2 == Cycle(OneDwell(), s1, ZeroCrossing(t + 0.6, true))
    ensures At(s1, Hold, t, t + 0.5, r)
    ensures At(s2, ReSettle, t + 0.6, t + 0.6, r.(softEvents := r.softEvents + 1))
  {
    hide StartDwell;
  }

  // Settled again, the dwell is begun once more.
  lemma QuietRetry(s0: State, s1: State)
    requires At(s0, ReSettle, 2.6, 2.6, QuietResult(1, false)) && WellShaped(OneDwell(), s0)
    requires s1 == Cycle(OneDwell(), s0, ZeroCrossing(4.6, false))
    ensures At(s1, RampIn, 4.6, 4.6, QuietResult(1, true))
  {
    hide StartDwell, WorstOnward;
    OneDwellBudget();
  }

  lemma QuietEnd(s0: State, s1: State, s2: State)
    requires At(s0, ReSettle, 5.2, 5.2, QuietResult(2, true)) && WellShaped(OneDwell(), s0)
    requires s1 == Cycle(OneDwell(), s0, ZeroCrossing(7.2, false)) && WellShaped(OneDwell(), s1)
    requires s2 == Cycle(OneDwell(), s1, ZeroCrossing(7.7, false))
    ensures s2.phase == Done && s2.outcome == Completed && s2.results == [QuietResult(2, true)]
  {
    hide WorstOnward;
  }

  /** From the start of a run: a dwell's second soft event with the probe at zero that cycle. The
      run settles again, and ends completed with two soft events on the dwell. */
  lemma SecondSoftEventCanPass()
    ensures var c, i := OneDwell(), TwoQuietEvents();
            && (forall k | 0 <= k < |i| :: ValidInput(i[k]))
            && (var s := Run(c, i, 7); s.phase == ReSettle && s.outcome == Running && s.probe.tau == 0.0
                                       && s.results[0].softEvents == 2)
            && (var s := Run(c, i, 9); s.phase == Done && s.outcome == Completed)
  {
    hide Cycle;
    var c, i := OneDwell(), TwoQuietEvents();
    QuietStart(Run(c, i, 0), Run(c, i, 1), Run(c, i, 2));
    QuietEvent(Run(c, i, 2), Run(c, i, 3), Run(c, i, 4), 2.0, QuietResult(0, false));
    QuietRetry(Run(c, i, 4), Run(c, i, 5));
    QuietEvent(Run(c, i, 5), Run(c, i, 6), Run(c, i, 7), 4.6, QuietResult(1, true));
    QuietEnd(Run(c, i, 7), Run(c, i, 8), Run(c, i, 9));
  }
}
