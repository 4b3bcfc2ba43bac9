/** apps/ident/ident_common.hpp: the dwell schedule, its amplitudes and its worst-case budget.
    Times are seconds, torques Nm. */
module IdentSchedule {
  import opened Basics

  const T_STOP := 177.5
  const T_QUIESCE := 179.5
  const SETUP_ALLOWANCE := 15.0
  const RAMP := 0.5
  const HOLD_MIN := 1.0
  const HOLD_MAX := 4.0
  const KILL_RAMP := 0.05
  const RE_SETTLE := 2.0
  const FINAL_HOLD := 0.5
  const AMP_FLOOR := 0.05
  const AMP_CAP_HARD := 0.3
  const TARGET_RESPONSE := 0.005
  const WINDOW_FLOOR := 0.000036

  datatype DwellSpec = DwellSpec(freq: real, amp: real, windowMult: int)

  datatype FreqSpec = FreqSpec(freq: real, ampOverride: real)

  function Clamp(v: real, lo: real, hi: real): real {
    if v < lo then lo else if hi < v then hi else v
  }

  function Ceil(x: real): (n: int)
    ensures x <= n as real < x + 1.0
  {
    -((-x).Floor)
  }

  // A frequency's angular one.
  function Omega(twoPi: real, freq: real): real {
    twoPi * freq
  }

  // The torque of a unit response at angular frequency omega.
  function Inertial(inertia: real, omega: real): real {
    inertia * omega * omega
  }

  // The amplitude rule.
  function ProbeAmplitude(inertia: real, omega: real, cap: real): real {
    var c := if cap > 0.0 then Min(cap, AMP_CAP_HARD) else AMP_CAP_HARD;
    Clamp(TARGET_RESPONSE * Inertial(inertia, omega), AMP_FLOOR, c)
  }

  // Whether an amplitude's response is below three window floors; without an inertia it never is.
  predicate Weak(amp: real, unit: real) {
    unit != 0.0 && amp / unit < 3.0 * WINDOW_FLOOR
  }

  // One dwell of the schedule: the rule, its window request, then any override of its amplitude.
  function BuildDwell(s: FreqSpec, inertia: real, cap: real, twoPi: real): DwellSpec {
    var omega := Omega(twoPi, s.freq);
    var amp := ProbeAmplitude(inertia, omega, cap);
    var mult := if amp >= Min(cap, AMP_CAP_HARD) - 0.000000001 && Weak(amp, Inertial(inertia, omega)) then 4 else 1;
    DwellSpec(s.freq, if s.ampOverride > 0.0 then Clamp(s.ampOverride, AMP_FLOOR, Min(cap, AMP_CAP_HARD)) else amp, mult)
  }

  function BuildScheduleFromSpecs(specs: seq<FreqSpec>, inertia: real, cap: real, twoPi: real): (r: seq<DwellSpec>)
    ensures |r| == |specs|
  {
    seq(|specs|, k requires 0 <= k < |specs| => BuildDwell(specs[k], inertia, cap, twoPi))
  }

  ghost predicate AmplitudesWithin(dwells: seq<DwellSpec>, cap: real) {
    forall k | 0 <= k < |dwells| :: AMP_FLOOR <= dwells[k].amp <= cap
  }

  lemma BuiltAmplitudesWithin(specs: seq<FreqSpec>, inertia: real, cap: real, twoPi: real)
    requires AMP_FLOOR <= cap <= AMP_CAP_HARD
    ensures AmplitudesWithin(BuildScheduleFromSpecs(specs, inertia, cap, twoPi), cap)
  {
  }

  // The amplitude asked for: an override, or the one that moves the joint by 5 mrad.
  ghost function AskedAmplitude(s: FreqSpec, inertia: real, twoPi: real): real {
    if s.ampOverride > 0.0 then s.ampOverride else 0.005 * Inertial(inertia, Omega(twoPi, s.freq))
  }

  ghost function Gap(v: real, asked: real): real {
    Abs(v - asked)
  }

  // No amplitude within the bounds comes closer to the one asked for.
  ghost predicate Nearest(amp: real, asked: real, lo: real, hi: real) {
    lo <= amp <= hi && forall v | lo <= v <= hi :: Gap(amp, asked) <= Gap(v, asked)
  }

  // Even the cap moves the joint by less than three window floors (or, with a negative inertia, the
  // cap is the floor).
  ghost predicate AlwaysWeak(unit: real, cap: real) {
    cap < 0.000108 * unit || (unit < 0.0 && cap <= 0.050000001)
  }

  /** A dwell's amplitude is the one asked for or the nearest that the floor and the cap allow; and
      its window is four-fold exactly when even the cap moves the joint by less than 0.108 mrad. */
  lemma BuiltNearestAsked(s: FreqSpec, inertia: real, cap: real, twoPi: real)
    requires 0.05 <= cap <= 0.3
    ensures var d := BuildDwell(s, inertia, cap, twoPi);
            && d.freq == s.freq && Nearest(d.amp, AskedAmplitude(s, inertia, twoPi), 0.05, cap)
            && d.windowMult == if AlwaysWeak(Inertial(inertia, Omega(twoPi, s.freq)), cap) then 4 else 1
  {
    hide Nearest, Inertial, Omega, ProbeAmplitude, Weak, AlwaysWeak, Clamp;
    var unit := Inertial(inertia, Omega(twoPi, s.freq));
    var amp, asked := ProbeAmplitude(inertia, Omega(twoPi, s.freq), cap), AskedAmplitude(s, inertia, twoPi);
    RuleNearest(inertia, Omega(twoPi, s.freq), cap);
    ClampNearest(asked, 0.05, cap);
    var d := BuildDwell(s, inertia, cap, twoPi);
    assert Min(cap, AMP_CAP_HARD) == cap;
    assert d.windowMult == if amp >= cap - 0.000000001 && Weak(amp, unit) then 4 else 1;
    assert d.amp == Clamp(asked, 0.05, cap);
  }

  // The rule's amplitude, at the cap when its response is below three floors there.
  lemma RuleNearest(inertia: real, omega: real, cap: real)
    requires 0.05 <= cap <= 0.3
    ensures var unit := Inertial(inertia, omega); var amp := ProbeAmplitude(inertia, omega, cap);
            && amp == Clamp(0.005 * unit, 0.05, cap)
            && (amp >= cap - 0.000000001 && Weak(amp, unit) <==> AlwaysWeak(unit, cap))
  {
    hide Inertial, Weak;
    var unit, amp := Inertial(inertia, omega), ProbeAmplitude(inertia, omega, cap);
    WeakIs(amp, unit);
  }

  lemma WeakIs(amp: real, unit: real)
    requires amp > 0.0
    ensures Weak(amp, unit) <==> unit < 0.0 || amp < 0.000108 * unit
  {
    if unit > 0.0 {
      assert amp / unit * unit == amp;
      if amp < 0.000108 * unit { QuotientBelow(amp, unit, 0.000108); } else { QuotientAtLeast(amp, unit, 0.000108); }
    } else if unit < 0.0 {
      QuotientNegative(amp, unit);
    }
  }

  lemma QuotientBelow(a: real, b: real, q: real)
    requires b > 0.0 && a < q * b
    ensures a / b < q
  {
  }

  lemma QuotientNegative(a: real, b: real)
    requires a > 0.0 && b < 0.0
    ensures a / b < 0.0
  {
  }

  lemma ClampNearest(asked: real, lo: real, hi: real)
    requires lo <= hi
    ensures Nearest(Clamp(asked, lo, hi), asked, lo, hi)
  {
  }

  // ----- Budget arithmetic -----

  predicate PositiveFrequencies(dwells: seq<DwellSpec>) {
    forall k | 0 <= k < |dwells| :: dwells[k].freq > 0.0
  }

  // The lowest scheduled frequency, or `best` if none is lower.
  function LowestFreq(dwells: seq<DwellSpec>, k: nat): real
    requires k <= |dwells|
  {
    if k == 0 then 1000000000.0 else Min(LowestFreq(dwells, k - 1), dwells[k - 1].freq)
  }

  lemma {:induction false} LowestFreqIsLowest(dwells: seq<DwellSpec>, k: nat)
    requires k <= |dwells| && PositiveFrequencies(dwells)
    ensures 0.0 < LowestFreq(dwells, k)
    ensures forall i | 0 <= i < k :: LowestFreq(dwells, k) <= dwells[i].freq
    ensures k == 0 || LowestFreq(dwells, k) == 1000000000.0 || exists i | 0 <= i < k :: LowestFreq(dwells, k) == dwells[i].freq
  {
    if k > 0 { LowestFreqIsLowest(dwells, k - 1); }
  }

  function LeadIn(dwells: seq<DwellSpec>): real
    requires PositiveFrequencies(dwells)
  {
    LowestFreqIsLowest(dwells, |dwells|);
    Max(2.0, if dwells == [] then 2.0 else 4.0 / LowestFreq(dwells, |dwells|))
  }

  function WindowPeriods(freq: real): int {
    Ceil(Max(10.0, 3.0 * freq) - 0.000000001)
  }

  function WindowSeconds(freq: real, mult: int): real
    requires freq > 0.0
  {
    (mult * WindowPeriods(freq)) as real / freq
  }

  function DwellWorst(freq: real): real
    requires freq > 0.0
  {
    RAMP + HOLD_MAX + WindowSeconds(freq, 1) + RAMP
  }

  // The worst-case seconds of the first k dwells.
  function WorstBefore(dwells: seq<DwellSpec>, k: nat): real
    requires k <= |dwells| && PositiveFrequencies(dwells)
  {
    if k == 0 then 0.0 else WorstBefore(dwells, k - 1) + DwellWorst(dwells[k - 1].freq)
  }

  // The worst-case seconds of the dwells from `first` on, and the final hold.
  function WorstFrom(dwells: seq<DwellSpec>, first: nat): real
    requires first <= |dwells| && PositiveFrequencies(dwells)
    decreases |dwells| - first
  {
    if first == |dwells| then FINAL_HOLD else DwellWorst(dwells[first].freq) + WorstFrom(dwells, first + 1)
  }

  function BaseWorst(dwells: seq<DwellSpec>): real
    requires PositiveFrequencies(dwells)
  {
    1.10 * (LeadIn(dwells) + FINAL_HOLD + WorstBefore(dwells, |dwells|))
  }

  predicate ScheduleFitsBudget(dwells: seq<DwellSpec>, tStop: real)
    requires PositiveFrequencies(dwells)
  {
    BaseWorst(dwells) + SETUP_ALLOWANCE <= tStop
  }

  lemma {:induction false} WorstSplits(dwells: seq<DwellSpec>, k: nat)
    requires k <= |dwells| && PositiveFrequencies(dwells)
    ensures WorstBefore(dwells, k) + WorstFrom(dwells, k) == WorstBefore(dwells, |dwells|) + FINAL_HOLD
    decreases |dwells| - k
  {
    if k < |dwells| { WorstSplits(dwells, k + 1); }
  }

  /** The budget before activation is the one from the first dwell on: the lead-in and every dwell at
      its worst, with a tenth more and 15 s to set up. */
  lemma BudgetFromStart(dwells: seq<DwellSpec>, tStop: real)
    requires PositiveFrequencies(dwells)
    ensures ScheduleFitsBudget(dwells, tStop) <==> (LeadIn(dwells) + WorstFrom(dwells, 0)) * 11.0 <= (tStop - 15.0) * 10.0
  {
    WorstSplits(dwells, 0);
  }

  lemma QuotientAtLeast(a: real, freq: real, q: real)
    requires freq > 0.0 && a >= q * freq
    ensures a / freq >= q
  {
  }

  // With at least five cycles to a period, a dwell's worst case is at least fifty cycles long.
  lemma DwellIsLong(freq: real, step: real)
    requires freq > 0.0 && step >= 0.0 && freq * step <= 0.2
    ensures DwellWorst(freq) >= 7.9 && DwellWorst(freq) >= 5.0 + 50.0 * step
  {
    var n := WindowPeriods(freq);
    assert n >= 10 && n as real >= 3.0 * freq - 0.000000001;
    QuotientAtLeast(n as real, freq, 2.9);
    QuotientAtLeast(n as real, freq, 50.0 * step);
  }
}
