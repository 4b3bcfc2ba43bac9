/** apps/ident/ident_common.hpp: what `IdentRun` starts a dwell with, how often it tries one, and
    what ends the capture and the hold diagnostic, along every run. */
module IdentRules {
  import opened Basics
  import opened Products
  import opened IdentSchedule
  import opened IdentMachine
  import opened IdentWindow

  // ----- Starting a dwell -----

  // The schedule from dwell k on, with `more` seconds to spare, still ends by the threshold.
  ghost predicate StillFits(c: Config, k: nat, t: real, more: real)
    requires k < |c.dwells| && PositiveFrequencies(c.dwells)
  {
    c.setupOffset + t + DwellWorst(c.dwells[k].freq) + WorstFrom(c.dwells, k + 1) + more <= c.tStop
  }

  // What a longer window adds.
  ghost function Extra(c: Config, k: nat): real
    requires k < |c.dwells| && PositiveFrequencies(c.dwells)
  {
    WindowSeconds(c.dwells[k].freq, c.dwells[k].windowMult) - WindowSeconds(c.dwells[k].freq, 1)
  }

  // Dwell d was passed over for want of torque: no amplitude of at least the floor is left to it.
  ghost predicate PassedOver(was: DwellResult, now: DwellResult, headroom: real) {
    (was.amp < 0.05 || headroom < 0.05) && now == was.(skipped := true)
  }

  // Dwell d started: at its amplitude or the headroom if less, from phase zero, and with the
  // longer window exactly when one is asked for and still fits; asked for in vain it lowers the
  // confidence.
  ghost predicate StartedAs(c: Config, s: State, s': State, d: nat, t: real, headroom: real)
    requires |s.results| == |s'.results| == |c.dwells| && PositiveFrequencies(c.dwells)
  {
    && d < |c.dwells| && s'.dwell == d && s'.phaseStart == t && s'.probe.phi == 0.0 && s'.probe.retryAmp == 0.0
    && StillFits(c, d, t, 0.0)
    && var was, now, longer := s.results[d], s'.results[d], c.dwells[d].windowMult > 1;
       && now.amp == (if was.amp <= headroom then was.amp else headroom) && now.amp >= 0.05
       && s'.window.mult == (if longer && StillFits(c, d, t, Extra(c, d)) then c.dwells[d].windowMult else 1)
       && now.lowConfidence == (was.lowConfidence || (longer && !StillFits(c, d, t, Extra(c, d))))
       && now == was.(amp := now.amp, lowConfidence := now.lowConfidence, started := true)
  }

  // From dwell k on: those before the one started are passed over and the rest left alone.
  ghost predicate BeginsFrom(c: Config, s: State, k: nat, t: real, headroom: real, s': State)
    requires |s.results| == |s'.results| == |c.dwells| && PositiveFrequencies(c.dwells)
  {
    s'.phase == RampIn ==>
      && k <= s'.dwell && StartedAs(c, s, s', s'.dwell, t, headroom)
      && (forall j | k <= j < s'.dwell :: PassedOver(s.results[j], s'.results[j], headroom))
      && (forall j | 0 <= j < |c.dwells| && (j < k || s'.dwell < j) :: s'.results[j] == s.results[j])
  }

  lemma {:induction false} StartDwellBegins(c: Config, s: State, k: nat, t: real, headroom: real)
    requires PositiveFrequencies(c.dwells) && |s.results| == |c.dwells| && k <= |c.dwells|
    ensures |StartDwell(c, s, k, t, headroom).results| == |c.dwells|
    ensures BeginsFrom(c, s, k, t, headroom, StartDwell(c, s, k, t, headroom))
    decreases |c.dwells| - k
  {
    hide WindowSeconds, DwellWorst, WorstFrom;
    if k < |c.dwells| && Admits(c, t, WorstOnward(c, k)) && Min(s.results[k].amp, headroom) < AMP_FLOOR {
      var s1 := NoRetry(s).(dwell := k, results := s.results[k := s.results[k].(skipped := true)]);
      StartDwellBegins(c, s1, k + 1, t, headroom);
    }
  }

  // A dwell tried again: once, after 2 s without a probe, from phase zero and at half its amplitude.
  ghost predicate RetriedAs(c: Config, s: State, s': State, t: real)
    requires |s.results| == |s'.results| == |c.dwells| && PositiveFrequencies(c.dwells) && 0 <= s.dwell < |c.dwells|
  {
    var was := s.results[s.dwell];
    && t - s.phaseStart >= 2.0 && !was.retried && StillFits(c, s.dwell, t, 0.0)
    && s'.dwell == s.dwell && s'.phaseStart == t && s'.probe.phi == 0.0 && s'.probe.retryAmp == 0.5 * was.amp
    && s'.results == s.results[s.dwell := was.(retried := true, started := true)]
  }

  // The waits before a dwell may begin.
  ghost predicate Waited(c: Config, s: State, t: real)
    requires WellShaped(c, s)
  {
    match s.phase
    case LeadIn => t - s.phaseStart >= IdentSchedule.LeadIn(c.dwells)
    case RampOut => t - s.phaseStart >= 0.5
    case ReSettle => t - s.phaseStart >= 2.0 && (s.results[s.dwell].retried || !StillFits(c, s.dwell, t, 0.0))
    case _ => false
  }

  // How a cycle may bring the probe in: a retry of the dwell, or the first dwell after it that can be.
  ghost predicate BroughtIn(c: Config, s: State, s': State, t: real, headroom: real)
    requires WellShaped(c, s) && |s'.results| == |c.dwells|
  {
    s'.phase == RampIn && s.phase != RampIn ==>
      || (s.phase == ReSettle && RetriedAs(c, s, s', t))
      || (Waited(c, s, t) && BeginsFrom(c, s, s.dwell + 1, t, headroom, s'))
  }

  lemma BeginsSame(c: Config, s: State, r: State, k: nat, t: real, headroom: real, s': State)
    requires |s.results| == |s'.results| == |c.dwells| && PositiveFrequencies(c.dwells) && r.results == s.results
    requires BeginsFrom(c, r, k, t, headroom, s')
    ensures BeginsFrom(c, s, k, t, headroom, s')
  {
    hide StillFits;
  }

  lemma LeadInBringsIn(c: Config, s: State, t: real, dt: real, i: Input)
    requires WellShaped(c, s) && s.phase == LeadIn
    ensures |InPhase(c, s, t, dt, i).results| == |c.dwells| && BroughtIn(c, s, InPhase(c, s, t, dt, i), t, i.headroom)
  {
    hide StartDwell, BeginsFrom, IdentSchedule.LeadIn;
    StartDwellBegins(c, s, 0, t, i.headroom);
  }

  lemma RampOutBringsIn(c: Config, s: State, t: real, dt: real, i: Input)
    requires WellShaped(c, s) && s.phase == RampOut
    ensures |InRampOut(c, s, t, dt, i).results| == |c.dwells| && BroughtIn(c, s, InRampOut(c, s, t, dt, i), t, i.headroom)
  {
    hide StartDwell, BeginsFrom, InRampOut, AfterRampOut;
    InRampOutSplits(c, s, t, dt, i);
    if t - s.phaseStart >= RAMP {
      var r := AfterRampOut(c, s, dt, i);
      StartDwellBegins(c, r, s.dwell + 1, t, i.headroom);
      BeginsSame(c, s, r, s.dwell + 1, t, i.headroom, InRampOut(c, s, t, dt, i));
    }
  }

  lemma ReSettleBringsIn(c: Config, s: State, t: real, i: Input)
    requires WellShaped(c, s) && s.phase == ReSettle
    ensures |InReSettle(c, s, t, i).results| == |c.dwells| && BroughtIn(c, s, InReSettle(c, s, t, i), t, i.headroom)
  {
    hide StartDwell, BeginsFrom, DwellWorst, WorstFrom;
    var r := NoRetry(NoProbe(s));
    StartDwellBegins(c, r, s.dwell + 1, t, i.headroom);
    BeginsSame(c, s, r, s.dwell + 1, t, i.headroom, StartDwell(c, r, s.dwell + 1, t, i.headroom));
  }

  lemma PhaseBringsIn(c: Config, s: State, t: real, dt: real, i: Input)
    requires WellShaped(c, s)
    ensures |InPhase(c, s, t, dt, i).results| == |c.dwells| && BroughtIn(c, s, InPhase(c, s, t, dt, i), t, i.headroom)
  {
    hide BeginsFrom, RetriedAs, Waited, InRampOut, InReSettle, InRampIn, InHold, InMeasure, InKillRamp, StartDwell, MarkRest;
    InPhaseShape(c, s, t, dt, i);
    match s.phase
    case LeadIn => LeadInBringsIn(c, s, t, dt, i);
    case RampOut => RampOutBringsIn(c, s, t, dt, i);
    case ReSettle => ReSettleBringsIn(c, s, t, i);
    case RampIn =>
    case _ => NotBroughtIn(c, s, t, dt, i);
  }

  lemma NotBroughtIn(c: Config, s: State, t: real, dt: real, i: Input)
    requires WellShaped(c, s) && s.phase != LeadIn && s.phase != RampOut && s.phase != ReSettle && s.phase != RampIn
    ensures InPhase(c, s, t, dt, i).phase != RampIn
  {
    hide ProbeTorque, KillEnvelope, DemodAdd, WindowPeriods, StartDwell;
  }

  // ----- Attempts -----

  predicate Probing(p: Phase) {
    p == RampIn || p == Hold || p == Measure || p == RampOut
  }

  // Started, at the floor or more, with so many soft events beyond the one a retry answers.
  ghost predicate Events(r: DwellResult, events: nat) {
    r.started && r.amp >= 0.05 && r.softEvents == events + if r.retried then 1 else 0
  }

  // The dwell in progress: a probe at its amplitude, or half of it once it is retried; removed for
  // a soft event, it aborts the run exactly if that was the second.
  ghost predicate Attempted(s: State)
    requires 0 <= s.dwell < |s.results|
  {
    var r := s.results[s.dwell];
    && (Probing(s.phase) ==> Events(r, 0) && s.probe.retryAmp == if r.retried then 0.5 * r.amp else 0.0)
    && (s.phase == KillRamp && !s.kill.toFinal ==> Events(r, 1) && s.kill.abortAfter == r.retried)
    && (s.phase == ReSettle ==> Events(r, 1))
  }

  ghost predicate Untried(r: DwellResult) {
    !r.started && !r.retried && r.softEvents == 0
  }

  ghost predicate Tried(r: DwellResult) {
    r.softEvents <= 2 && (r.retried ==> r.started && r.softEvents >= 1)
  }

  /** Every dwell is tried at most twice, and again only after a soft event. */
  ghost predicate Attempts(s: State) {
    && (InDwell(s.phase) && 0 <= s.dwell < |s.results| ==> Attempted(s))
    && forall k | 0 <= k < |s.results| :: Tried(s.results[k]) && (k > s.dwell ==> Untried(s.results[k]))
  }

  // Starting dwells tries no other.
  lemma {:induction false} StartDwellTries(c: Config, s: State, k: nat, t: real, headroom: real)
    requires PositiveFrequencies(c.dwells) && |s.results| == |c.dwells| && k <= |c.dwells|
    ensures var s' := StartDwell(c, s, k, t, headroom);
            && |s'.results| == |c.dwells| && (s'.phase == RampIn || s'.phase == FinalHold) && k <= s'.dwell
            && forall j | 0 <= j < |c.dwells| && !(s'.phase == RampIn && j == s'.dwell) ::
                 && s'.results[j].softEvents == s.results[j].softEvents && s'.results[j].retried == s.results[j].retried
                 && s'.results[j].started == s.results[j].started
    decreases |c.dwells| - k
  {
    hide WindowSeconds, WorstOnward;
    if k < |c.dwells| && Admits(c, t, WorstOnward(c, k)) && Min(s.results[k].amp, headroom) < AMP_FLOOR {
      StartDwellTries(c, NoRetry(s).(dwell := k, results := s.results[k := s.results[k].(skipped := true)]), k + 1, t, headroom);
    }
  }

  // From a dwell past, every later one untried.
  lemma StartedAttempts(c: Config, s: State, k: nat, t: real, headroom: real)
    requires PositiveFrequencies(c.dwells) && |s.results| == |c.dwells| && k <= |c.dwells|
    requires forall j | 0 <= j < |s.results| :: Tried(s.results[j]) && (j >= k ==> Untried(s.results[j]))
    ensures Attempts(StartDwell(c, s, k, t, headroom))
  {
    hide StartDwell, StillFits, Extra;
    StartDwellTries(c, s, k, t, headroom);
    StartDwellBegins(c, s, k, t, headroom);
  }

  lemma EmitKeeps(s: State, envelope: real, sine: real)
    requires 0 <= s.dwell < |s.results| && Attempts(s)
    ensures Attempts(EmitProbe(s, envelope, sine))
  {
    hide ProbeTorque;
  }

  lemma RemovalAttempts(s: State, t: real)
    requires 0 <= s.dwell < |s.results| && Attempts(s) && (s.phase == RampIn || s.phase == Hold || s.phase == Measure)
    ensures Attempts(SoftRemoval(s, t))
  {
  }

  lemma BackstopAttempts(c: Config, s: State, t: real)
    requires WellShaped(c, s) && Attempts(s)
    ensures Attempts(Backstop(c, s, t))
  {
  }

  lemma RampInAttempts(c: Config, s: State, t: real, dt: real, i: Input)
    requires WellShaped(c, s) && Attempts(s) && s.phase == RampIn
    ensures Attempts(InRampIn(c, s, t, dt, i))
  {
    hide EmitProbe, SoftRemoval, SoftEvent, ValidConfig;
    var s0 := EmitProbe(Turn(c, s, dt), 0.5 * (1.0 - i.cosine), i.sine);
    Emits(Turn(c, s, dt), 0.5 * (1.0 - i.cosine), i.sine);
    RemovalAttempts(s0, t);
  }

  lemma HoldAttempts(c: Config, s: State, t: real, dt: real, i: Input)
    requires WellShaped(c, s) && Attempts(s) && s.phase == Hold
    ensures Attempts(InHold(c, s, t, dt, i))
  {
    hide EmitProbe, SoftRemoval, SoftEvent, ValidConfig;
    var s0 := EmitProbe(Turn(c, s, dt), 1.0, i.sine);
    Emits(Turn(c, s, dt), 1.0, i.sine);
    RemovalAttempts(s0, t);
  }

  lemma MeasureAttempts(c: Config, s: State, t: real, dt: real, i: Input)
    requires WellShaped(c, s) && Attempts(s) && s.phase == Measure
    ensures Attempts(InMeasure(c, s, t, dt, i))
  {
    hide EmitProbe, SoftRemoval, SoftEvent, ValidConfig, DemodAdd, WindowPeriods;
    var s0 := EmitProbe(Turn(c, s, dt), 1.0, i.sine);
    Emits(Turn(c, s, dt), 1.0, i.sine);
    RemovalAttempts(s0.(window := s.window.(demod := DemodAdd(s.window.demod, s0.probe.phi, i.solved))), t);
  }

  // Emitting a probe changes nothing an attempt depends on.
  lemma Emits(s: State, envelope: real, sine: real)
    requires 0 <= s.dwell < |s.results|
    ensures EmitProbe(s, envelope, sine) == s.(probe := EmitProbe(s, envelope, sine).probe)
    ensures EmitProbe(s, envelope, sine).probe.retryAmp == s.probe.retryAmp
  {
    hide ProbeTorque;
  }

  lemma RetryKept(c: Config, s: State, t: real, dt: real, i: Input)
    requires WellShaped(c, s) && 0 <= s.dwell < |c.dwells|
    ensures t - s.phaseStart < RAMP ==> InRampOut(c, s, t, dt, i).probe.retryAmp == s.probe.retryAmp
  {
    hide ProbeTorque, StartDwell;
  }

  lemma RampOutAttempts(c: Config, s: State, t: real, dt: real, i: Input)
    requires WellShaped(c, s) && Attempts(s) && s.phase == RampOut
    ensures Attempts(InRampOut(c, s, t, dt, i))
  {
    hide AfterRampOut, InRampOut, StartDwell;
    InRampOutSplits(c, s, t, dt, i);
    RetryKept(c, s, t, dt, i);
    if t - s.phaseStart >= RAMP { StartedAttempts(c, AfterRampOut(c, s, dt, i), s.dwell + 1, t, i.headroom); }
  }

  lemma KillRampAttempts(c: Config, s: State, t: real, dt: real, i: Input)
    requires WellShaped(c, s) && Attempts(s) && s.phase == KillRamp
    ensures Attempts(InKillRamp(c, s, t, dt, i))
  {
    hide EmitProbe, KillEnvelope, ValidConfig;
    Emits(Turn(c, s, dt), KillEnvelope(s.kill, i.cosine), i.sine);
  }

  lemma ReSettleAttempts(c: Config, s: State, t: real, i: Input)
    requires WellShaped(c, s) && Attempts(s) && s.phase == ReSettle
    ensures Attempts(InReSettle(c, s, t, i))
  {
    hide StartDwell, Admits, WorstOnward;
    StartedAttempts(c, NoRetry(NoProbe(s)), s.dwell + 1, t, i.headroom);
  }

  lemma PhaseAttempts(c: Config, s: State, t: real, dt: real, i: Input)
    requires WellShaped(c, s) && Attempts(s)
    ensures Attempts(InPhase(c, s, t, dt, i))
  {
    hide InRampIn, InHold, InMeasure, InKillRamp, InRampOut, InReSettle, StartDwell;
    match s.phase
    case LeadIn => StartedAttempts(c, s, 0, t, i.headroom);
    case RampIn => RampInAttempts(c, s, t, dt, i);
    case Hold => HoldAttempts(c, s, t, dt, i);
    case Measure => MeasureAttempts(c, s, t, dt, i);
    case RampOut => RampOutAttempts(c, s, t, dt, i);
    case KillRamp => KillRampAttempts(c, s, t, dt, i);
    case ReSettle => ReSettleAttempts(c, s, t, i);
    case _ =>
  }

  // Nothing an attempt depends on differs.
  predicate SameAttempt(s: State, s': State) {
    && s'.phase == s.phase && s'.dwell == s.dwell && s'.results == s.results && s'.kill == s.kill && s'.window == s.window
    && s'.phaseStart == s.phaseStart && s'.probe.retryAmp == s.probe.retryAmp && s'.probe.phi == s.probe.phi
  }

  lemma SameAttempts(s: State, s': State)
    requires Attempts(s) && SameAttempt(s, s')
    ensures Attempts(s')
  {
  }

  // The state the dwell machine advances from, if it advances.
  function Before(c: Config, s: State, i: Input): State {
    var s1 := BeginCapture(c, s, i).(tPrev := i.t);
    if s1.outcome == Running && i.fault then Fail(s1, HardFault) else s1
  }

  predicate Advancing(c: Config, s: State, i: Input) {
    Fresh(s, i) && Before(c, s, i).outcome != HardFault && Before(c, s, i).outcome != Completed
  }

  lemma BeforeSame(c: Config, s: State, i: Input)
    requires WellShaped(c, s)
    ensures WellShaped(c, Before(c, s, i)) && SameAttempt(s, Before(c, s, i))
  {
    BeginShape(c, s, i);
  }

  // A cycle is the dwell machine's step, but for what no attempt depends on.
  lemma CycleSame(c: Config, s: State, i: Input)
    requires WellShaped(c, s)
    ensures WellShaped(c, Before(c, s, i))
    ensures SameAttempt(if Advancing(c, s, i) then Advance(c, Before(c, s, i), i.t, i.t - s.tPrev, i) else s, Cycle(c, s, i))
  {
    hide Advance, ValidConfig, WellShaped;
    BeforeSame(c, s, i);
  }

  lemma AdvanceAttempts(c: Config, s: State, t: real, dt: real, i: Input)
    requires WellShaped(c, s) && Attempts(s)
    ensures Attempts(Advance(c, s, t, dt, i))
  {
    hide InPhase, Backstop, Attempts;
    BackstopShape(c, s, t);
    BackstopAttempts(c, s, t);
    PhaseAttempts(c, Backstop(c, s, t), t, dt, i);
  }

  lemma CycleAttempts(c: Config, s: State, i: Input)
    requires WellShaped(c, s) && Attempts(s)
    ensures Attempts(Cycle(c, s, i))
  {
    hide Advance, Cycle, Attempts, Before, Advancing, SameAttempt;
    CycleSame(c, s, i);
    if Advancing(c, s, i) {
      BeforeSame(c, s, i);
      SameAttempts(s, Before(c, s, i));
      AdvanceAttempts(c, Before(c, s, i), i.t, i.t - s.tPrev, i);
      SameAttempts(Advance(c, Before(c, s, i), i.t, i.t - s.tPrev, i), Cycle(c, s, i));
    } else {
      SameAttempts(s, Cycle(c, s, i));
    }
  }

  lemma {:induction false} RunAttempts(c: Config, inputs: seq<Input>, n: nat)
    requires ValidConfig(c) && n <= |inputs|
    ensures Attempts(Run(c, inputs, n))
  {
    hide Cycle, Attempts;
    if n == 0 { InitialAttempts(c); } else {
      RunAttempts(c, inputs, n - 1);
      CycleAttempts(c, Run(c, inputs, n - 1), inputs[n - 1]);
    }
  }

  lemma InitialAttempts(c: Config)
    ensures Attempts(Initial(c))
  {
  }

  // ----- Every cycle that brings a probe in -----

  lemma BroughtInSame(c: Config, s: State, r: State, p: State, s': State, t: real, headroom: real)
    requires WellShaped(c, s) && WellShaped(c, r) && SameAttempt(s, r) && SameAttempt(p, s')
    requires |p.results| == |c.dwells| && BroughtIn(c, r, p, t, headroom)
    ensures |s'.results| == |c.dwells| && BroughtIn(c, s, s', t, headroom)
  {
    hide StillFits, WellShaped, Extra;
  }

  lemma BackstopBringsIn(c: Config, s: State, t: real, dt: real, i: Input)
    requires WellShaped(c, s)
    ensures WellShaped(c, Backstop(c, s, t))
    ensures Backstop(c, s, t) == s || InPhase(c, Backstop(c, s, t), t, dt, i).phase != RampIn
  {
    hide InPhase, MarkRest;
    BackstopShape(c, s, t);
    var b := Backstop(c, s, t);
    if b != s {
      assert b.phase == KillRamp || b.phase == FinalHold;
      NotBroughtIn(c, b, t, dt, i);
    }
  }

  /** A probe is only ever brought in after its wait: to retry its dwell, once and at half the
      amplitude, or for the first dwell on that the torque allows, which then gets its amplitude and
      its window. */
  lemma CycleBringsIn(c: Config, s: State, i: Input)
    requires WellShaped(c, s)
    ensures |Cycle(c, s, i).results| == |c.dwells| && BroughtIn(c, s, Cycle(c, s, i), i.t, i.headroom)
  {
    hide InPhase, Backstop, Cycle, Before, Advancing, SameAttempt, BroughtIn;
    CycleSame(c, s, i);
    CycleShape(c, s, i);
    BeforeSame(c, s, i);
    if Advancing(c, s, i) {
      var r, t, dt := Before(c, s, i), i.t, i.t - s.tPrev;
      BackstopBringsIn(c, r, t, dt, i);
      var b := Backstop(c, r, t);
      PhaseBringsIn(c, b, t, dt, i);
      if b == r {
        BroughtInSame(c, s, r, InPhase(c, r, t, dt, i), Cycle(c, s, i), t, i.headroom);
      } else {
        Elsewhere(c, s, InPhase(c, b, t, dt, i), Cycle(c, s, i), t, i.headroom);
      }
    } else {
      StaysOut(c, s, Cycle(c, s, i), i.t, i.headroom);
    }
  }

  lemma Elsewhere(c: Config, s: State, p: State, s': State, t: real, headroom: real)
    requires WellShaped(c, s) && SameAttempt(p, s') && p.phase != RampIn && |s'.results| == |c.dwells|
    ensures BroughtIn(c, s, s', t, headroom)
  {
  }

  lemma StaysOut(c: Config, s: State, s': State, t: real, headroom: real)
    requires WellShaped(c, s) && SameAttempt(s, s') && |s'.results| == |c.dwells|
    ensures BroughtIn(c, s, s', t, headroom)
  {
  }

  // ----- The capture and the hold diagnostic -----

  // Nothing but the phase acts on a cycle: it advances a run in progress, far from the threshold.
  ghost predicate Undisturbed(c: Config, s: State, i: Input) {
    && Fresh(s, i) && Begun(s) && s.outcome == Running && !i.fault && !i.observerFault
    && c.setupOffset + i.t + 1.0 <= c.tStop
  }

  /** The first cycle ramps the reference to the anchor, at 0.05 rad/s at its peak but in 1 to 5 s, and
      refuses to start from beyond the capture envelope. */
  lemma CaptureStarts(c: Config, i: Input)
    requires ValidConfig(c) && c.captureEnvelope > 0.0 && !i.observerFault
    ensures var s := Cycle(c, Initial(c), i);
            && s.phase == Capture && s.capture.begun
            && (i.deviation * 37.5 <= 1.0 ==> s.capture.end == i.t + 1.0)
            && (1.0 <= i.deviation * 37.5 <= 5.0 ==> s.capture.end == i.t + i.deviation * 37.5)
            && (5.0 <= i.deviation * 37.5 ==> s.capture.end == i.t + 5.0)
            && (s.outcome == HardFault <==> i.deviation > c.captureEnvelope)
  {
  }

  /** The capture is over exactly when the arm was ready for 0.3 s in a row, at least half a second
      after the ramp, and is given up after ten. */
  lemma CaptureExact(c: Config, s: State, i: Input)
    requires WellShaped(c, s) && Undisturbed(c, s, i) && s.phase == Capture
    ensures var s', held := Cycle(c, s, i), i.t - s.capture.end;
            var quiet := if held >= 0.0 && i.ready then s.capture.quiet + (i.t - s.tPrev) else 0.0;
            && s'.capture == s.capture.(quiet := quiet)
            && s'.phase == (if held >= 0.5 && quiet >= 0.3 then if c.holdOnly > 0.0 then HoldDiag else LeadIn else Capture)
            && (s'.phase != Capture ==> s'.phaseStart == i.t)
            && s'.outcome == if s'.phase == Capture && held >= 10.0 then HardFault else Running
  {
    hide ValidConfig;
  }

  /** The hold diagnostic fails exactly on a deviation, or on movement after its first second, and
      completes exactly when it has lasted as long as asked without either. */
  lemma HoldDiagExact(c: Config, s: State, i: Input)
    requires WellShaped(c, s) && Undisturbed(c, s, i) && s.phase == HoldDiag
    ensures var s', held := Cycle(c, s, i), i.t - s.phaseStart;
            var fails := i.holdDeviates || (held >= 1.0 && i.holdMoves);
            && s'.outcome == (if fails then HardFault else if held >= c.holdOnly then Completed else Running)
            && s'.phase == (if s'.outcome == Completed then Done else HoldDiag) && s'.phaseStart == s.phaseStart
            && s'.probe.tau == 0.0
  {
    hide ValidConfig;
  }

  // The arm was ready in every cycle from k on, past the ramp's end.
  ghost predicate ReadySince(c: Config, inputs: seq<Input>, k: nat, n: nat)
    requires ValidConfig(c) && k <= n <= |inputs|
  {
    forall j | k <= j < n && Advancing(c, Run(c, inputs, j), inputs[j]) ::
      inputs[j].ready && inputs[j].t >= Run(c, inputs, j).capture.end
  }

  // The quiet time counted is the time since some cycle from which on the arm was always ready.
  ghost predicate QuietFrom(c: Config, inputs: seq<Input>, k: nat, n: nat)
    requires ValidConfig(c) && k <= n <= |inputs|
  {
    ReadySince(c, inputs, k, n) && Run(c, inputs, n).capture.quiet == Run(c, inputs, n).tPrev - Run(c, inputs, k).tPrev
  }

  ghost predicate Capturing(s: State) {
    s.phase == Capture && s.outcome == Running
  }

  // No phase goes back to the capture.
  lemma NeverBack(c: Config, s: State, t: real, dt: real, i: Input)
    requires WellShaped(c, s) && s.phase != Capture
    ensures InPhase(c, s, t, dt, i).phase != Capture
  {
    hide ProbeTorque, KillEnvelope, DemodAdd, WindowPeriods, StartDwell, InRampOut, AfterRampOut, IdentSchedule.LeadIn;
    if s.phase == LeadIn { StartDwellTries(c, s, 0, t, i.headroom); }
    if s.phase == RampOut {
      InRampOutSplits(c, s, t, dt, i);
      StartDwellTries(c, AfterRampOut(c, s, dt, i), s.dwell + 1, t, i.headroom);
    }
    if s.phase == ReSettle { StartDwellTries(c, NoRetry(NoProbe(s)), s.dwell + 1, t, i.headroom); }
  }

  // In the capture and straight out of it, the machine's step is the capture's.
  predicate OfCapture(s: State, p: State) {
    p.phase == Capture || (s.phase == Capture && (p.phase == HoldDiag || p.phase == LeadIn))
  }

  lemma AdvanceInCapture(c: Config, s: State, t: real, dt: real, i: Input)
    requires WellShaped(c, s) && OfCapture(s, Advance(c, s, t, dt, i))
    ensures s.phase == Capture && Advance(c, s, t, dt, i) == InCapture(c, s, t, dt, i)
  {
    hide InPhase, MarkRest, InCapture;
    BackstopShape(c, s, t);
    var b := Backstop(c, s, t);
    if b != s {
      assert b.phase == KillRamp || b.phase == FinalHold;
      NotBroughtIn(c, b, t, dt, i);
      OverThen(c, b, t, dt, i);
    } else {
      if s.phase != Capture { NeverBack(c, s, t, dt, i); }
      assert s.phase == Capture ==> InPhase(c, s, t, dt, i) == InCapture(c, s, t, dt, i) by { CaptureStep(c, s, t, dt, i); }
    }
  }

  lemma CaptureStep(c: Config, s: State, t: real, dt: real, i: Input)
    requires WellShaped(c, s)
    ensures s.phase == Capture ==> InPhase(c, s, t, dt, i) == InCapture(c, s, t, dt, i)
  {
  }

  lemma OverThen(c: Config, b: State, t: real, dt: real, i: Input)
    requires WellShaped(c, b) && (b.phase == KillRamp || b.phase == FinalHold)
    ensures var p := InPhase(c, b, t, dt, i).phase; p != Capture && p != HoldDiag && p != LeadIn
  {
    hide ProbeTorque, KillEnvelope;
  }

  lemma CycleInCapture(c: Config, s: State, i: Input)
    requires WellShaped(c, s) && OfCapture(s, Cycle(c, s, i))
    ensures s.phase == Capture && WellShaped(c, Before(c, s, i))
    ensures Advancing(c, s, i) ==>
              Advance(c, Before(c, s, i), i.t, i.t - s.tPrev, i) == InCapture(c, Before(c, s, i), i.t, i.t - s.tPrev, i)
  {
    hide Advance, Cycle, Before, Advancing, InCapture;
    CycleSame(c, s, i);
    BeforeSame(c, s, i);
    if Advancing(c, s, i) { AdvanceInCapture(c, Before(c, s, i), i.t, i.t - s.tPrev, i); }
  }

  // What a cycle of the capture does to its count.
  lemma CaptureCounts(c: Config, s: State, t: real, dt: real, i: Input)
    ensures var p := InCapture(c, s, t, dt, i);
            && p.tPrev == s.tPrev && (p.outcome == s.outcome || p.outcome == HardFault)
            && p.capture == s.capture.(quiet := if t >= s.capture.end && i.ready then s.capture.quiet + dt else 0.0)
            && (p.phase != s.phase ==> t >= s.capture.end + 0.5 && p.capture.quiet >= 0.3)
  {
  }

  // A cycle that goes on capturing counts on, starts again, or does nothing.
  lemma CaptureGoesOn(c: Config, s: State, i: Input)
    requires WellShaped(c, s) && Capturing(Cycle(c, s, i)) && (s.phase == Capture ==> s.capture.begun || s.tPrev < 0.0)
    requires s.tPrev < 0.0 ==> s.capture.quiet == 0.0
    ensures Capturing(s)
    ensures var s' := Cycle(c, s, i);
            && s'.capture.begun && (s'.tPrev < 0.0 ==> s'.capture.quiet == 0.0)
            && if Advancing(c, s, i) then
                 && s'.tPrev == i.t
                 && s'.capture.quiet == if i.t >= s.capture.end && i.ready then s.capture.quiet + (i.t - s.tPrev) else 0.0
               else s'.capture.quiet == 0.0 || (s'.capture.quiet == s.capture.quiet && s'.tPrev == s.tPrev)
  {
    hide Advance, InCapture;
    CycleInCapture(c, s, i);
    CaptureCounts(c, Before(c, s, i), i.t, i.t - s.tPrev, i);
  }

  lemma {:induction false} QuietMeans(c: Config, inputs: seq<Input>, n: nat) returns (k: nat)
    requires ValidConfig(c) && n <= |inputs| && Capturing(Run(c, inputs, n))
    ensures var s := Run(c, inputs, n); (s.capture.begun || s.tPrev < 0.0) && (s.tPrev < 0.0 ==> s.capture.quiet == 0.0)
    ensures k <= n && QuietFrom(c, inputs, k, n)
  {
    hide Cycle, Advancing, QuietFrom;
    if n == 0 {
      FirstState(c);
      k := 0;
      NotQuiet(c, inputs, 0);
    } else {
      var s, i := Run(c, inputs, n - 1), inputs[n - 1];
      assert Run(c, inputs, n) == Cycle(c, s, i);
      CapturedBefore(c, s, i);
      k := QuietMeans(c, inputs, n - 1);
      CaptureGoesOn(c, s, i);
      hide Run;
      if Run(c, inputs, n).capture.quiet != 0.0 {
        StillQuiet(c, inputs, k, n - 1);
      } else {
        k := n;
        NotQuiet(c, inputs, n);
      }
    }
  }

  lemma NotQuiet(c: Config, inputs: seq<Input>, n: nat)
    requires ValidConfig(c) && n <= |inputs| && Run(c, inputs, n).capture.quiet == 0.0
    ensures QuietFrom(c, inputs, n, n)
  {
    hide Run;
  }

  lemma StillQuiet(c: Config, inputs: seq<Input>, k: nat, n: nat)
    requires ValidConfig(c) && k <= n < |inputs| && QuietFrom(c, inputs, k, n)
    requires var s, s', i := Run(c, inputs, n), Run(c, inputs, n + 1), inputs[n];
             if Advancing(c, s, i) then
               && s'.tPrev == i.t && i.ready && i.t >= s.capture.end
               && s'.capture.quiet == s.capture.quiet + (i.t - s.tPrev)
             else s'.capture.quiet == s.capture.quiet && s'.tPrev == s.tPrev
    ensures QuietFrom(c, inputs, k, n + 1)
  {
    hide Run, Advancing;
  }

  lemma FirstState(c: Config)
    ensures Initial(c).tPrev < 0.0 && Initial(c).capture.quiet == 0.0
  {
  }

  lemma CapturedBefore(c: Config, s: State, i: Input)
    requires WellShaped(c, s) && Capturing(Cycle(c, s, i))
    ensures Capturing(s)
  {
    hide Advance;
    CycleInCapture(c, s, i);
  }

  lemma QuietLongEnough(c: Config, inputs: seq<Input>, k: nat, n: nat)
    requires ValidConfig(c) && k <= n < |inputs| && QuietFrom(c, inputs, k, n)
    requires var s, i := Run(c, inputs, n), inputs[n]; i.ready && i.t >= s.capture.end && s.capture.quiet + (i.t - s.tPrev) >= 0.3
    ensures ReadySince(c, inputs, k, n + 1) && inputs[n].t - Run(c, inputs, k).tPrev >= 0.3
  {
    hide Run, Advancing;
  }

  /** Along every run: the capture is left for the hold diagnostic or the lead-in only once the arm
      has been ready in every cycle of the last 0.3 s, all past the ramp's end, and half a second
      has passed since that. */
  lemma CaptureWaited(c: Config, inputs: seq<Input>, n: nat) returns (k: nat)
    requires ValidConfig(c) && n < |inputs| && Run(c, inputs, n).phase == Capture
    requires Run(c, inputs, n + 1).phase == HoldDiag || Run(c, inputs, n + 1).phase == LeadIn
    ensures k <= n && ReadySince(c, inputs, k, n + 1) && inputs[n].t - Run(c, inputs, k).tPrev >= 0.3
    ensures inputs[n].t >= Run(c, inputs, n).capture.end + 0.5
  {
    hide Cycle, Advancing, QuietFrom, ReadySince;
    var s, i := Run(c, inputs, n), inputs[n];
    assert Run(c, inputs, n + 1) == Cycle(c, s, i);
    RunAccounted(c, inputs, n);
    CaptureLeft(c, s, i);
    k := QuietMeans(c, inputs, n);
    CaptureLeftFrom(c, s, i);
    QuietLongEnough(c, inputs, k, n);
  }

  lemma CaptureLeft(c: Config, s: State, i: Input)
    requires WellShaped(c, s) && Accounted(c, s) && s.phase == Capture
    requires Cycle(c, s, i).phase == HoldDiag || Cycle(c, s, i).phase == LeadIn
    ensures Capturing(s)
  {
    hide Advance;
    CycleInCapture(c, s, i);
  }

  lemma CaptureLeftFrom(c: Config, s: State, i: Input)
    requires WellShaped(c, s) && Capturing(s) && (Cycle(c, s, i).phase == HoldDiag || Cycle(c, s, i).phase == LeadIn)
    requires (s.capture.begun || s.tPrev < 0.0)
    ensures Advancing(c, s, i) && i.t >= s.capture.end + 0.5 && i.ready && s.capture.quiet + (i.t - s.tPrev) >= 0.3
  {
    hide Advance, InCapture;
    CycleInCapture(c, s, i);
    CaptureCounts(c, Before(c, s, i), i.t, i.t - s.tPrev, i);
  }

  // Cycle k kept to the rules for bringing a probe in, and to the attempts a dwell has.
  ghost predicate KeepsRules(c: Config, inputs: seq<Input>, k: nat)
    requires ValidConfig(c) && k < |inputs|
  {
    && Attempts(Run(c, inputs, k + 1))
    && |Run(c, inputs, k + 1).results| == |c.dwells|
    && BroughtIn(c, Run(c, inputs, k), Run(c, inputs, k + 1), inputs[k].t, inputs[k].headroom)
  }

  /** Along every run every cycle keeps to them. */
  lemma RunKeepsRules(c: Config, inputs: seq<Input>, n: nat)
    requires ValidConfig(c) && n <= |inputs|
    ensures forall k | 0 <= k < n :: KeepsRules(c, inputs, k)
  {
    hide Cycle, Attempts, BroughtIn;
    forall k | 0 <= k < n ensures KeepsRules(c, inputs, k) {
      RunAttempts(c, inputs, k + 1);
      CycleBringsIn(c, Run(c, inputs, k), inputs[k]);
    }
  }
}
