/** apps/follow/follow_run.hpp: the events of a following run and where its commands come from. */
module FollowTrace {
  import opened Basics

  const DOF := 8

  // One value to a joint.
  type Posture = p: seq<real> | |p| == DOF witness [0.0, 0.0, 0.0, 0.0, 0.0, 0.0, 0.0, 0.0]

  datatype Phase = Home | HomeCorrection | Tracking | Finalizing | AbortHold

  // A posture measured, in a phase's cycle or outside one; the tracking hook; a command written.
  datatype Event = Read(phase: Option<Phase>, q: Posture) | Hook | Command(kind: Phase, time: real, goal: Posture)

  // A posture run starts where the arm is, within a tolerance, and gates every tracking cycle.
  datatype Gate = Gate(startTolerance: real, abortError: real)

  datatype HomeConfig = HomeConfig(velocityLimit: real, motionTime: real, settleTime: real, tolerance: real, retries: nat, strict: bool,
                                   peakFactor: real, progress: real -> real)

  datatype Safety = Safety(warning: real, sustained: real, sustainedTime: real, immediate: real)

  datatype Ending = Ending(simulation: bool, waitTime: real, simulationHold: real, operatorTimeout: real)

  // The reference, as its samples in time, and the settings; dt is the robot's period.
  datatype Config = Config(posture: Option<Gate>, home: HomeConfig, safety: Safety, ending: Ending,
                           duration: real, reference: real -> Posture, dt: real)

  ghost predicate ValidConfig(c: Config) {
    && c.dt > 0.0 && c.duration >= 0.0 && c.home.velocityLimit > 0.0
    && forall x :: 0.0 <= c.home.progress(x) <= 1.0
  }

  function Start(c: Config): Posture {
    c.reference(0.0)
  }

  function Apart(x: real, y: real): real {
    Abs(x - y)
  }

  // Each joint within r of its place.
  predicate Within(p: Posture, q: Posture, r: real) {
    forall i | 0 <= i < DOF :: Apart(p[i], q[i]) <= r
  }

  predicate WithinStrictly(p: Posture, q: Posture, r: real) {
    forall i | 0 <= i < DOF :: Apart(p[i], q[i]) < r
  }

  predicate BetweenReals(x: real, a: real, b: real) {
    Min(a, b) <= x <= Max(a, b)
  }

  // Each joint between its places in two postures.
  predicate Between(p: Posture, a: Posture, b: Posture) {
    forall i | 0 <= i < DOF :: BetweenReals(p[i], a[i], b[i])
  }

  ghost function LastRead(t: seq<Event>): Option<Posture> {
    if t == [] then None else if t[|t| - 1].Read? then Some(t[|t| - 1].q) else LastRead(t[..|t| - 1])
  }

  // The phase whose cycle made the last reading; none outside one.
  ghost function LastPhase(t: seq<Event>): Option<Phase> {
    if t == [] then None else if t[|t| - 1].Read? then t[|t| - 1].phase else LastPhase(t[..|t| - 1])
  }

  // A command answers the feedback of its own phase; an abort's hold may answer a tracking one.
  predicate OwnCycle(kind: Phase, read: Option<Phase>) {
    read == Some(kind) || (kind == AbortHold && read == Some(Tracking))
  }

  ghost function FirstRead(t: seq<Event>): Option<Posture> {
    if t == [] then None
    else if FirstRead(t[..|t| - 1]).Some? then FirstRead(t[..|t| - 1])
    else if t[|t| - 1].Read? then Some(t[|t| - 1].q) else None
  }

  ghost function LastGoal(t: seq<Event>, kind: Phase): Option<Posture> {
    if t == [] then None
    else if t[|t| - 1].Command? && t[|t| - 1].kind == kind then Some(t[|t| - 1].goal)
    else LastGoal(t[..|t| - 1], kind)
  }

  ghost predicate Measured(t: seq<Event>, q: Posture) {
    t != [] && ((t[|t| - 1].Read? && t[|t| - 1].q == q) || Measured(t[..|t| - 1], q))
  }

  // One command of a phase: its time in the phase, and its goal.
  datatype Sample = Sample(time: real, goal: Posture)

  // The commands of a phase, in order.
  ghost function Sent(t: seq<Event>, kind: Phase): seq<Sample> {
    if t == [] then []
    else
      var e := t[|t| - 1];
      Sent(t[..|t| - 1], kind) + if e.Command? && e.kind == kind then [Sample(e.time, e.goal)] else []
  }

  // The postures stored as each tracking step begins: the last one before tracking, then each
  // tracking feedback. What a hold reads afterwards is none of them.
  ghost function Stored(t: seq<Event>): seq<Posture> {
    if t == [] then []
    else
      var e := t[|t| - 1];
      if e.Read? then StoredAfter(Stored(t[..|t| - 1]), e.phase, e.q) else Stored(t[..|t| - 1])
  }

  ghost function StoredAfter(stored: seq<Posture>, phase: Option<Phase>, q: Posture): seq<Posture> {
    if phase == Some(Tracking) then stored + [q]
    else if phase == Some(Finalizing) || phase == Some(AbortHold) then stored
    else [q]
  }

  // Nothing tracked yet, and the posture stored is the last one read.
  ghost predicate Untracked(t: seq<Event>) {
    Sent(t, Tracking) == [] && LastRead(t).Some? && Stored(t) == [LastRead(t).value]
  }

  predicate IsTrackingRead(e: Event) {
    e.Read? && e.phase == Some(Tracking)
  }

  ghost predicate HasTracked(t: seq<Event>) {
    t != [] && (IsTrackingRead(t[|t| - 1]) || HasTracked(t[..|t| - 1]))
  }

  // The first tracking feedback has just been read.
  ghost predicate HookDue(t: seq<Event>) {
    t != [] && IsTrackingRead(t[|t| - 1]) && !HasTracked(t[..|t| - 1])
  }

  // A feedback was read since the last command.
  ghost predicate Answers(t: seq<Event>) {
    t != [] && !t[|t| - 1].Command?
  }

  // What may come next: where a command's goal comes from, and when the hook is called.
  ghost predicate Lawful(c: Config, t: seq<Event>, e: Event) {
    && (e.Hook? <==> HookDue(t))
    && (e.Command? ==> Answers(t) && OwnCycle(e.kind, LastPhase(t)) && LawfulGoal(c, t, e.kind, e.time, e.goal))
  }

  ghost predicate LawfulGoal(c: Config, t: seq<Event>, kind: Phase, time: real, goal: Posture) {
    match kind
    case Home => c.posture.None? && FirstRead(t).Some? && Between(goal, FirstRead(t).value, Start(c))
    case HomeCorrection =>
      && c.posture.None? && Within(goal, Start(c), 0.15)
      && (LastGoal(t, HomeCorrection).Some? ==> Within(goal, LastGoal(t, HomeCorrection).value, 0.05))
    case Tracking =>
      && 0.0 <= time <= c.duration && goal == c.reference(time)
      && (c.posture.Some? ==> LastRead(t).Some? && WithinStrictly(LastRead(t).value, goal, c.posture.value.abortError))
    case Finalizing => goal == c.reference(c.duration)
    case AbortHold => Measured(t, goal) && (LastGoal(t, AbortHold).Some? ==> goal == LastGoal(t, AbortHold).value)
  }

  // Every event was lawful when it came.
  ghost predicate Sound(c: Config, t: seq<Event>) {
    t == [] || (Sound(c, t[..|t| - 1]) && Lawful(c, t[..|t| - 1], t[|t| - 1]))
  }

  lemma SoundMore(c: Config, t: seq<Event>, e: Event)
    requires Sound(c, t) && Lawful(c, t, e)
    ensures Sound(c, t + [e])
  {
    assert (t + [e])[..|t|] == t;
  }

  // What one more event changes.
  lemma Grown(t: seq<Event>, e: Event)
    ensures LastRead(t + [e]) == if e.Read? then Some(e.q) else LastRead(t)
    ensures LastPhase(t + [e]) == if e.Read? then e.phase else LastPhase(t)
    ensures FirstRead(t + [e]) == if FirstRead(t).None? && e.Read? then Some(e.q) else FirstRead(t)
    ensures forall k :: LastGoal(t + [e], k) == if e.Command? && e.kind == k then Some(e.goal) else LastGoal(t, k)
    ensures forall q :: Measured(t + [e], q) <==> (e.Read? && e.q == q) || Measured(t, q)
    ensures HasTracked(t + [e]) <==> IsTrackingRead(e) || HasTracked(t)
    ensures forall k :: Sent(t + [e], k) == Sent(t, k) + if e.Command? && e.kind == k then [Sample(e.time, e.goal)] else []
    ensures Stored(t + [e]) == if e.Read? then StoredAfter(Stored(t), e.phase, e.q) else Stored(t)
    ensures Commands(t + [e]) == Commands(t) + if e.Command? then 1 else 0
    ensures HookDue(t + [e]) <==> IsTrackingRead(e) && !HasTracked(t)
  {
    assert (t + [e])[..|t|] == t;
  }

  // The commands written, whether or not they were taken.
  ghost function Commands(t: seq<Event>): nat {
    if t == [] then 0 else Commands(t[..|t| - 1]) + if t[|t| - 1].Command? then 1 else 0
  }

  ghost function Hooks(t: seq<Event>): nat {
    if t == [] then 0 else Hooks(t[..|t| - 1]) + if t[|t| - 1].Hook? then 1 else 0
  }

  /** The tracking hook is called exactly once if a tracking feedback was read, and never before
      or otherwise. */
  lemma {:induction false} HookOnce(c: Config, t: seq<Event>)
    requires Sound(c, t)
    ensures Hooks(t) == if HasTracked(t) && !HookDue(t) then 1 else 0
  {
    if t != [] { HookOnce(c, t[..|t| - 1]); }
  }

  ghost predicate IsCommand(e: Event, kind: Phase) {
    e.Command? && e.kind == kind
  }

  lemma {:induction false} SoundPrefix(c: Config, t: seq<Event>, i: nat)
    requires Sound(c, t) && i < |t|
    ensures Sound(c, t[..i]) && Lawful(c, t[..i], t[i])
    decreases |t|
  {
    if i < |t| - 1 {
      SoundPrefix(c, t[..|t| - 1], i);
      assert t[..|t| - 1][..i] == t[..i];
    }
  }

  lemma {:induction false} LastGoalIs(t: seq<Event>, i: nat, kind: Phase)
    requires i < |t| && IsCommand(t[i], kind) && forall j | i < j < |t| :: !IsCommand(t[j], kind)
    ensures LastGoal(t, kind) == Some(t[i].goal)
    decreases |t|
  {
    if i < |t| - 1 { LastGoalIs(t[..|t| - 1], i, kind); }
  }

  // The last command of a kind before j.
  lemma LastBefore(t: seq<Event>, i: nat, j: nat, kind: Phase) returns (k: nat)
    requires i < j <= |t| && IsCommand(t[i], kind)
    ensures i <= k < j && IsCommand(t[k], kind) && forall m | k < m < j :: !IsCommand(t[m], kind)
  {
    k := j - 1;
    while !IsCommand(t[k], kind)
      invariant i <= k < j && forall m | k < m < j :: !IsCommand(t[m], kind)
      decreases k
    {
      k := k - 1;
    }
  }

  /** The posture held after an abort never changes, whatever is measured meanwhile. */
  lemma {:induction false} HoldFixed(c: Config, t: seq<Event>, i: nat, j: nat)
    requires Sound(c, t) && i < j < |t| && IsCommand(t[i], AbortHold) && IsCommand(t[j], AbortHold)
    ensures t[i].goal == t[j].goal
    decreases j
  {
    assert Lawful(c, t[..j], t[j]) by { SoundPrefix(c, t, j); }
    hide Sound, HookDue, LastGoal;
    var k := LastBefore(t, i, j, AbortHold);
    LastGoalIs(t[..j], k, AbortHold);
    if i < k { HoldFixed(c, t, i, k); }
  }

  /** Successive correction goals move each joint by at most 0.05. */
  lemma CorrectionSteps(c: Config, t: seq<Event>, i: nat, j: nat)
    requires Sound(c, t) && i < j < |t| && IsCommand(t[i], HomeCorrection) && IsCommand(t[j], HomeCorrection)
    requires forall m | i < m < j :: !IsCommand(t[m], HomeCorrection)
    ensures Within(t[j].goal, t[i].goal, 0.05) && Within(t[i].goal, Start(c), 0.15) && Within(t[j].goal, Start(c), 0.15)
  {
    SoundPrefix(c, t, i);
    SoundPrefix(c, t, j);
    LastGoalIs(t[..j], i, HomeCorrection);
  }

  /** In a posture run every tracking command is the reference at its time, sent in answer to a
      feedback read in its own tracking cycle, since the command before, and within the abort
      error of it; nothing is commanded but the reference, its end, or a posture measured before. */
  lemma PostureRunCommands(c: Config, t: seq<Event>, i: nat)
    requires Sound(c, t) && i < |t| && t[i].Command? && c.posture.Some?
    ensures t[i].kind == Tracking ==>
              && t[i].goal == c.reference(t[i].time) && LastRead(t[..i]).Some?
              && Answers(t[..i]) && LastPhase(t[..i]) == Some(Tracking)
              && WithinStrictly(LastRead(t[..i]).value, t[i].goal, c.posture.value.abortError)
    ensures t[i].kind == Finalizing ==> t[i].goal == c.reference(c.duration)
    ensures t[i].kind == AbortHold ==> Measured(t[..i], t[i].goal)
    ensures t[i].kind == Tracking || t[i].kind == Finalizing || t[i].kind == AbortHold
  {
    SoundPrefix(c, t, i);
  }
}

/** The samples a motion is commanded at, and when tracking must stop. */
module FollowSamples {
  import opened Basics
  import opened Products
  import opened FollowTrace

  function Ceil(x: real): (n: int)
    ensures x <= n as real < x + 1.0
  {
    -((-x).Floor)
  }

  function CyclesIn(duration: real, dt: real): (n: int)
    requires dt > 0.0
  {
    Ceil(duration / dt)
  }

  // The cycles of a duration, and one at least.
  function Steps(duration: real, dt: real): (n: nat)
    requires dt > 0.0
    ensures n >= 1
  {
    if CyclesIn(duration, dt) > 1 then CyclesIn(duration, dt) else 1
  }

  // Sample k of n over a duration.
  function TimeAt(duration: real, n: nat, k: nat): real
    requires n >= 1
  {
    Min(duration, Mul(k as real, Div(duration, n as real)))
  }

  /** The cycles of a duration are the fewest that last as long. */
  lemma CyclesAreFewest(duration: real, dt: real)
    requires dt > 0.0
    ensures var n := CyclesIn(duration, dt);
            Mul(n as real, dt) >= duration && Mul((n - 1) as real, dt) < duration
  {
    hide Mul;
    var n := CyclesIn(duration, dt);
    assert Div(duration, dt) == duration / dt by { QuotientIs(duration, dt); }
    DivMul(duration, dt);
    MulMonotone(Div(duration, dt), n as real, dt);
    if Mul((n - 1) as real, dt) >= duration { MulReflects(Div(duration, dt), (n - 1) as real, dt); }
  }

  lemma QuotientIs(a: real, c: real)
    requires c != 0.0
    ensures Div(a, c) == a / c
  {
  }

  lemma StepWithin(duration: real, dt: real)
    requires dt > 0.0 && duration >= 0.0
    ensures 0.0 <= Div(duration, Steps(duration, dt) as real) <= dt
  {
    hide Mul, Div;
    var n := Steps(duration, dt);
    var h := Div(duration, n as real);
    DivMul(duration, n as real);
    CyclesAreFewest(duration, dt);
    MulUnits(n as real);
    MulReflects(0.0, h, n as real);
    if CyclesIn(duration, dt) <= 1 { MulMonotone(CyclesIn(duration, dt) as real, 1.0, dt); }
    MulUnits(dt);
    MulSwaps(n as real, dt);
    MulReflects(h, dt, n as real);
  }

  // One more step of h.
  lemma OneMoreStep(k: nat, n: nat, h: real)
    requires k <= n && h >= 0.0
    ensures 0.0 <= Mul(k as real, h) <= Mul(n as real, h)
    ensures Mul((k + 1) as real, h) == Mul(k as real, h) + h && Mul(0 as real, h) == 0.0
  {
    hide Mul;
    MulUnits(h);
    MulSign(k as real, h);
    MulMonotone(k as real, n as real, h);
    MulAdds(k as real, 1.0, h);
  }

  /** The samples of a motion begin at 0 and end at its duration, each no more than one cycle after
      the one before. */
  lemma SamplesSpread(duration: real, dt: real, k: nat)
    requires dt > 0.0 && duration >= 0.0 && k <= Steps(duration, dt)
    ensures var n := Steps(duration, dt);
            && 0.0 <= TimeAt(duration, n, k) <= duration
            && TimeAt(duration, n, 0) == 0.0 && TimeAt(duration, n, n) == duration
            && (k < n ==> TimeAt(duration, n, k) <= TimeAt(duration, n, k + 1) <= TimeAt(duration, n, k) + dt)
  {
    hide Mul, Div, Steps;
    var n := Steps(duration, dt);
    var h := Div(duration, n as real);
    StepWithin(duration, dt);
    DivMul(duration, n as real);
    MulSwaps(h, n as real);
    OneMoreStep(k, n, h);
  }

  // The reference's samples: how many, and each of them.
  function ReferenceSteps(c: Config): (n: nat)
    requires c.dt > 0.0
    ensures n >= 1
  {
    Steps(c.duration, c.dt)
  }

  function ReferenceSample(c: Config, k: nat): Sample
    requires c.dt > 0.0
  {
    var t := TimeAt(c.duration, ReferenceSteps(c), k);
    Sample(t, c.reference(t))
  }

  // Samples 0 to m - 1.
  function Samples(c: Config, m: nat): (r: seq<Sample>)
    requires c.dt > 0.0
    ensures |r| == m && forall k | 0 <= k < m :: r[k] == ReferenceSample(c, k)
  {
    seq(m, k requires 0 <= k < m => ReferenceSample(c, k))
  }

  // Some joint is at least this far from sample k as step k begins.
  predicate Off(c: Config, stored: seq<Posture>, k: nat, limit: real)
    requires c.dt > 0.0 && k < |stored|
  {
    exists i | 0 <= i < DOF :: Apart(stored[k][i], ReferenceSample(c, k).goal[i]) >= limit
  }

  // For at least the sustained time up to step k some joint was off in every cycle.
  predicate OffTooLong(c: Config, stored: seq<Posture>, k: nat)
    requires c.dt > 0.0 && k < |stored|
  {
    c.safety.sustainedTime <= 0.0
    || exists j | 0 <= j <= k :: OffThroughout(c, stored, j, k) && Mul((k - j + 1) as real, c.dt) >= c.safety.sustainedTime
  }

  predicate OffThroughout(c: Config, stored: seq<Posture>, j: nat, k: nat)
    requires c.dt > 0.0 && k < |stored|
  {
    forall m | j <= m <= k :: Off(c, stored, m, c.safety.sustained)
  }

  // Tracking must stop as step k begins.
  predicate MustStop(c: Config, stored: seq<Posture>, k: nat)
    requires c.dt > 0.0 && k < |stored|
  {
    Off(c, stored, k, c.safety.immediate) || OffTooLong(c, stored, k)
  }

  // ----- What a trace's tracking commands say -----

  // The commands are the reference's samples in order, and each feedback read for one was read
  // only where tracking need not stop.
  ghost predicate TrackedSoFar(c: Config, t: seq<Event>)
    requires c.dt > 0.0
  {
    var m := |Sent(t, Tracking)|;
    && m <= ReferenceSteps(c) + 1 && Sent(t, Tracking) == Samples(c, m)
    && m + 1 <= |Stored(t)| <= m + 2
    && forall k | 0 <= k < |Stored(t)| - 1 :: !MustStop(c, Stored(t), k)
  }

  // Every sample to the reference's end is commanded.
  ghost predicate TrackedAll(c: Config, t: seq<Event>)
    requires c.dt > 0.0
  {
    Sent(t, Tracking) == Samples(c, ReferenceSteps(c) + 1)
  }

  // The next sample is not commanded, and nothing is read for it: there tracking must stop.
  ghost predicate StoppedAt(c: Config, t: seq<Event>)
    requires c.dt > 0.0
  {
    var m := |Sent(t, Tracking)|;
    m <= ReferenceSteps(c) && |Stored(t)| == m + 1 && MustStop(c, Stored(t), m)
  }

  // One tracking cycle: nothing if its feedback is not read, else that and at most the command.
  ghost predicate TrackingCycled(t: seq<Event>, u: seq<Event>, time: real, goal: Posture, ok: bool) {
    || (u == t && !ok)
    || (&& LastRead(u).Some? && Stored(u) == Stored(t) + [LastRead(u).value] && (FirstRead(t).Some? ==> FirstRead(u) == FirstRead(t))
        && (forall k | k != Tracking :: LastGoal(u, k) == LastGoal(t, k) && Sent(u, k) == Sent(t, k))
        && (Sent(u, Tracking) == Sent(t, Tracking) + [Sample(time, goal)] || (!ok && Sent(u, Tracking) == Sent(t, Tracking)))
        && (ok ==> LastGoal(u, Tracking) == Some(goal)))
  }

  // The feedback was read, and nothing commanded from it.
  ghost predicate ReadOnly(t: seq<Event>, u: seq<Event>) {
    Sent(u, Tracking) == Sent(t, Tracking) && |Stored(u)| == |Stored(t)| + 1
  }

  // Commands of the tracking phase only.
  ghost predicate OthersButTracking(t: seq<Event>, u: seq<Event>) {
    forall k | k != Tracking :: LastGoal(u, k) == LastGoal(t, k) && Sent(u, k) == Sent(t, k)
  }

  lemma OthersButTrackingTrans(t: seq<Event>, u: seq<Event>, v: seq<Event>)
    requires OthersButTracking(t, u) && OthersButTracking(u, v)
    ensures OthersButTracking(t, v)
  {
  }

  lemma MustStopStays(c: Config, stored: seq<Posture>, more: seq<Posture>, k: nat)
    requires c.dt > 0.0 && k < |stored| && stored <= more
    ensures MustStop(c, more, k) <==> MustStop(c, stored, k)
  {
    hide Mul, ReferenceSample;
    forall m, limit | 0 <= m <= k ensures Off(c, more, m, limit) <==> Off(c, stored, m, limit) { assert more[m] == stored[m]; }
    forall j | 0 <= j <= k ensures OffThroughout(c, more, j, k) <==> OffThroughout(c, stored, j, k) { }
  }

  // Whether tracking must stop, from the largest error and the time some joint has been off.
  lemma DecideStop(c: Config, stored: seq<Posture>, k: nat, worst: real, over: real, over': real, run: nat) returns (run': nat)
    requires c.dt > 0.0 && k < |stored| && IsWorst(stored[k], ReferenceSample(c, k).goal, worst)
    requires over == Mul(run as real, c.dt) && OverRun(c, stored, k, run)
    requires over' == if worst >= c.safety.sustained then over + c.dt else 0.0
    ensures over' == Mul(run' as real, c.dt) && OverRun(c, stored, k + 1, run')
    ensures MustStop(c, stored, k) <==> worst >= c.safety.immediate || over' >= c.safety.sustainedTime
  {
    hide Off, OffTooLong, OverRun, MustStop, Mul, ReferenceSample;
    WorstIsOff(c, stored, k, worst, c.safety.sustained);
    WorstIsOff(c, stored, k, worst, c.safety.immediate);
    OverRunMore(c, stored, k, run);
    run' := if Off(c, stored, k, c.safety.sustained) then run + 1 else 0;
    OverRunExact(c, stored, k, run');
    MustStopIs(c, stored, k);
  }

  lemma StoppedIs(c: Config, t: seq<Event>, k: nat)
    requires c.dt > 0.0 && Sent(t, Tracking) == Samples(c, k) && |Stored(t)| == k + 1
    ensures StoppedAt(c, t) <==> k <= ReferenceSteps(c) && MustStop(c, Stored(t), k)
  {
  }

  lemma MustStopIs(c: Config, stored: seq<Posture>, k: nat)
    requires c.dt > 0.0 && k < |stored|
    ensures MustStop(c, stored, k) <==> Off(c, stored, k, c.safety.immediate) || OffTooLong(c, stored, k)
  {
  }

  lemma StartsTracking(c: Config, t: seq<Event>)
    requires c.dt > 0.0 && Untracked(t)
    ensures TrackedSoFar(c, t) && Sent(t, Tracking) == Samples(c, 0) && |Stored(t)| == 1 && LastRead(t) == Some(Stored(t)[0])
    ensures OverRun(c, Stored(t), 0, 0) && Mul(0 as real, c.dt) == 0.0 && OthersButTracking(t, t)
  {
  }

  // One more tracking cycle at a sample where tracking need not stop.
  lemma CycleTrackedSoFar(c: Config, t: seq<Event>, u: seq<Event>, k: nat, ok: bool)
    requires c.dt > 0.0 && k <= ReferenceSteps(c) && TrackedSoFar(c, t) && Sent(t, Tracking) == Samples(c, k)
    requires |Stored(t)| == k + 1 && !MustStop(c, Stored(t), k)
    requires TrackingCycled(t, u, ReferenceSample(c, k).time, ReferenceSample(c, k).goal, ok)
    ensures TrackedSoFar(c, u) && OthersButTracking(t, u) && Stored(t) <= Stored(u)
    ensures FirstRead(t).Some? ==> FirstRead(u) == FirstRead(t)
    ensures ReadOnly(t, u) ==> !StoppedAt(c, u)
    ensures ok ==> && Sent(u, Tracking) == Samples(c, k + 1) && |Stored(u)| == k + 2
                   && LastRead(u) == Some(Stored(u)[k + 1]) && LastGoal(u, Tracking) == Some(ReferenceSample(c, k).goal)
  {
    hide MustStop, ReferenceSample, ReferenceSteps, Sent, Stored, LastGoal, LastRead, FirstRead;
    if u != t {
      assert Samples(c, k) + [ReferenceSample(c, k)] == Samples(c, k + 1);
      forall m | 0 <= m < |Stored(u)| - 1 ensures !MustStop(c, Stored(u), m) { MustStopStays(c, Stored(t), Stored(u), m); }
    }
  }

  // ----- How long some joint has been off -----

  // Before step k some joint was off in exactly the last `run` cycles.
  ghost predicate OverRun(c: Config, stored: seq<Posture>, k: nat, run: nat)
    requires c.dt > 0.0 && k <= |stored|
  {
    && run <= k && (forall m | k - run <= m < k :: Off(c, stored, m, c.safety.sustained))
    && (run < k ==> !Off(c, stored, k - run - 1, c.safety.sustained))
  }

  lemma OverRunMore(c: Config, stored: seq<Posture>, k: nat, run: nat)
    requires c.dt > 0.0 && k < |stored| && OverRun(c, stored, k, run)
    ensures OverRun(c, stored, k + 1, if Off(c, stored, k, c.safety.sustained) then run + 1 else 0)
    ensures Mul((run + 1) as real, c.dt) == Mul(run as real, c.dt) + c.dt && Mul(0 as real, c.dt) == 0.0
  {
    hide Off, Mul;
    OneMoreStep(run, run, c.dt);
  }

  lemma OverRunStays(c: Config, stored: seq<Posture>, more: seq<Posture>, k: nat, run: nat)
    requires c.dt > 0.0 && k <= |stored| && stored <= more && OverRun(c, stored, k, run)
    ensures OverRun(c, more, k, run)
  {
    hide ReferenceSample;
    forall m | 0 <= m < k ensures Off(c, more, m, c.safety.sustained) <==> Off(c, stored, m, c.safety.sustained) {
      assert more[m] == stored[m];
    }
  }

  lemma OverRunExact(c: Config, stored: seq<Posture>, k: nat, run: nat)
    requires c.dt > 0.0 && k < |stored| && OverRun(c, stored, k + 1, run)
    ensures OffTooLong(c, stored, k) <==> Mul(run as real, c.dt) >= c.safety.sustainedTime
  {
    hide Off, Mul;
    OneMoreStep(run, run, c.dt);
    if c.safety.sustainedTime > 0.0 {
      if Mul(run as real, c.dt) >= c.safety.sustainedTime {
        assert run > 0;
        assert OffThroughout(c, stored, k + 1 - run, k);
        assert k - (k + 1 - run) + 1 == run;
      }
      if OffTooLong(c, stored, k) {
        var j :| 0 <= j <= k && OffThroughout(c, stored, j, k) && Mul((k - j + 1) as real, c.dt) >= c.safety.sustainedTime;
        assert k - j + 1 <= run;
        MulMonotone((k - j + 1) as real, run as real, c.dt);
      }
    }
  }

  // ----- The motion home -----

  /** Home is where the reference's first sample is. */
  lemma HomeIsFirstSample(c: Config)
    requires c.dt > 0.0 && c.duration >= 0.0
    ensures ReferenceSample(c, 0).goal == Start(c) && ReferenceSample(c, 0).time == 0.0
  {
    hide Mul;
    SamplesSpread(c.duration, c.dt, 0);
  }

  ghost predicate IsWorst(p: Posture, q: Posture, worst: real) {
    0.0 <= worst && Within(p, q, worst) && (worst == 0.0 || exists i | 0 <= i < DOF :: Apart(p[i], q[i]) == worst)
  }

  lemma WorstIsOff(c: Config, stored: seq<Posture>, k: nat, worst: real, limit: real)
    requires c.dt > 0.0 && k < |stored| && IsWorst(stored[k], ReferenceSample(c, k).goal, worst)
    ensures worst >= limit <==> Off(c, stored, k, limit)
  {
    hide ReferenceSample;
    var p, q := stored[k], ReferenceSample(c, k).goal;
    if worst >= limit {
      if worst == 0.0 {
        assert Apart(p[0], q[0]) >= limit;
      } else {
        var i :| 0 <= i < DOF && Apart(p[i], q[i]) == worst;
        assert Apart(p[i], q[i]) >= limit;
      }
    }
    if Off(c, stored, k, limit) {
      var i :| 0 <= i < DOF && Apart(p[i], q[i]) >= limit;
      assert Apart(p[i], q[i]) <= worst;
    }
  }

  // The time home: a cycle at least, the time asked for, and the speed limit.
  function HomeDuration(c: Config, worst: real): (d: real)
    requires c.home.velocityLimit > 0.0
    ensures d >= c.dt
  {
    Max(c.dt, Max(Div(Mul(c.home.peakFactor, worst), c.home.velocityLimit), c.home.motionTime))
  }

  /** No joint is asked to peak above the speed limit on the way home. */
  lemma HomeSlowEnough(c: Config, start: Posture, worst: real, i: nat)
    requires c.home.velocityLimit > 0.0 && c.home.peakFactor >= 0.0 && IsWorst(Start(c), start, worst) && i < DOF
    ensures Mul(c.home.peakFactor, Apart(Start(c)[i], start[i])) <= Mul(HomeDuration(c, worst), c.home.velocityLimit)
  {
    hide Mul, Div;
    var peak, v, d := c.home.peakFactor, c.home.velocityLimit, Apart(Start(c)[i], start[i]);
    MulSwaps(peak, d);
    MulSwaps(peak, worst);
    MulMonotone(d, worst, peak);
    DivMul(Mul(peak, worst), v);
    MulMonotone(Div(Mul(peak, worst), v), HomeDuration(c, worst), v);
  }

  function Interpolated(a: Posture, b: Posture, progress: real): (q: Posture)
  {
    seq(DOF, i requires 0 <= i < DOF => a[i] + (b[i] - a[i]) * progress)
  }

  function HomeSample(c: Config, start: Posture, worst: real, k: nat): Sample
    requires c.dt > 0.0 && c.home.velocityLimit > 0.0
  {
    var d := HomeDuration(c, worst);
    var t := TimeAt(d, Steps(d, c.dt), k);
    Sample(t, Interpolated(start, Start(c), c.home.progress(t / d)))
  }

  // The whole way home, from the first cycle's sample to the last.
  function HomeSamples(c: Config, start: Posture, worst: real): (r: seq<Sample>)
    requires c.dt > 0.0 && c.home.velocityLimit > 0.0
    ensures |r| == Steps(HomeDuration(c, worst), c.dt) + 1
    ensures forall k | 0 <= k < |r| :: r[k] == HomeSample(c, start, worst, k)
  {
    seq(Steps(HomeDuration(c, worst), c.dt) + 1, k requires 0 <= k => HomeSample(c, start, worst, k))
  }

  lemma StepsIs(duration: real, dt: real)
    requires dt > 0.0
    ensures Steps(duration, dt) == if CyclesIn(duration, dt) > 1 then CyclesIn(duration, dt) else 1
  {
  }

  lemma OnTheWay(c: Config, start: Posture, worst: real, sent: seq<Sample>, whole: bool)
    requires c.dt > 0.0 && c.home.velocityLimit > 0.0 && IsWorst(Start(c), start, worst)
    requires PartOf(sent, HomeSamples(c, start, worst), whole)
    ensures WayHome(c, start, sent, whole)
  {
  }

  lemma WholeIsPart(c: Config, start: Posture, sent: seq<Sample>)
    requires c.dt > 0.0 && c.home.velocityLimit > 0.0 && WayHome(c, start, sent, true)
    ensures WayHome(c, start, sent, false)
  {
    var worst :| IsWorst(Start(c), start, worst) && PartOf(sent, HomeSamples(c, start, worst), true);
    assert PartOf(sent, HomeSamples(c, start, worst), false);
  }

  lemma HomeSampleIs(c: Config, start: Posture, worst: real, k: nat, t: real, q: Posture)
    requires c.dt > 0.0 && c.home.velocityLimit > 0.0
    requires var d := HomeDuration(c, worst);
             t == TimeAt(d, Steps(d, c.dt), k) && q == Interpolated(start, Start(c), c.home.progress(t / d))
    ensures HomeSample(c, start, worst, k) == Sample(t, q)
  {
  }

  // The samples of the way home in order, all of them if it is whole.
  ghost predicate WayHome(c: Config, start: Posture, sent: seq<Sample>, whole: bool)
    requires c.dt > 0.0 && c.home.velocityLimit > 0.0
  {
    exists worst :: IsWorst(Start(c), start, worst) && PartOf(sent, HomeSamples(c, start, worst), whole)
  }

  ghost predicate PartOf(sent: seq<Sample>, samples: seq<Sample>, whole: bool) {
    if whole then sent == samples else sent <= samples
  }

  // A correction goal held for the settling time.
  function Held(c: Config, goal: Posture): (r: seq<Sample>)
    requires c.dt > 0.0
    ensures var n := CyclesIn(c.home.settleTime, c.dt); |r| == if n > 0 then n else 0
    ensures forall k | 0 <= k < |r| :: r[k] == Sample(Mul(k as real, c.dt), goal)
  {
    var n := CyclesIn(c.home.settleTime, c.dt);
    seq(if n > 0 then n else 0, k requires 0 <= k => Sample(Mul(k as real, c.dt), goal))
  }

  // Home held once, and each corrected goal twice.
  function Settled(c: Config, goals: seq<Posture>): seq<Sample>
    requires c.dt > 0.0
  {
    if goals == [] then []
    else if |goals| == 1 then Held(c, goals[0])
    else Settled(c, goals[..|goals| - 1]) + Held(c, goals[|goals| - 1]) + Held(c, goals[|goals| - 1])
  }

  ghost predicate SettledFor(c: Config, corrections: nat, sent: seq<Sample>)
    requires c.dt > 0.0
  {
    exists goals :: |goals| == corrections + 1 && goals[0] == Start(c) && sent == Settled(c, goals)
  }

  // Corrected as often as the retries allow, unless the arm is within tolerance before.
  ghost predicate Corrected(c: Config, worst: real, sent: seq<Sample>)
    requires c.dt > 0.0
  {
    exists corrections: nat :: SettledFor(c, corrections, sent) && corrections <= c.home.retries
                               && (worst > c.home.tolerance ==> corrections == c.home.retries)
  }

  // All held but the last time for the goal.
  ghost predicate HalfSettled(c: Config, corrections: nat, sent: seq<Sample>, goal: Posture)
    requires c.dt > 0.0
  {
    if corrections == 0 then sent == [] && goal == Start(c)
    else exists goals :: |goals| == corrections && goals[0] == Start(c) && sent == Settled(c, goals) + Held(c, goal)
  }

  lemma NothingSettled(c: Config)
    requires c.dt > 0.0
    ensures HalfSettled(c, 0, [], Start(c))
  {
  }

  lemma IsCorrected(c: Config, worst: real, corrections: nat, sent: seq<Sample>)
    requires c.dt > 0.0 && SettledFor(c, corrections, sent) && corrections <= c.home.retries
    requires worst > c.home.tolerance ==> corrections == c.home.retries
    ensures Corrected(c, worst, sent)
  {
  }

  lemma OnceMore(c: Config, corrections: nat, sent: seq<Sample>, goal: Posture)
    requires c.dt > 0.0 && HalfSettled(c, corrections, sent, goal)
    ensures SettledFor(c, corrections, sent + Held(c, goal))
  {
    hide Held;
    if corrections == 0 {
      assert [] + Held(c, goal) == Settled(c, [goal]);
    } else {
      var goals :| |goals| == corrections && goals[0] == Start(c) && sent == Settled(c, goals) + Held(c, goal);
      var more := goals + [goal];
      assert more[..|more| - 1] == goals;
      assert sent + Held(c, goal) == Settled(c, more);
    }
  }

  lemma OnceMoreCorrected(c: Config, corrections: nat, sent: seq<Sample>, goal: Posture)
    requires c.dt > 0.0 && SettledFor(c, corrections, sent)
    ensures HalfSettled(c, corrections + 1, sent + Held(c, goal), goal)
  {
    hide Held, Settled;
  }
}

module FollowRun {
  import opened Basics
  import opened Products
  import opened FollowTrace
  import opened FollowSamples

  // One call's fate: whether it succeeds, and what it reads.
  datatype Fate = Fate(ok: bool, q: Posture)

  // The arm, the cycle sink and the operator: any call may fail. `failures` counts the calls
  // that did, `enters` the times the operator was found to have pressed Enter.
  class Robot {
    const fate: nat -> Fate
    var turn: nat
    ghost var trace: seq<Event>
    ghost var failures: nat
    ghost var enters: nat
    ghost var records: nat   // commands recorded
    ghost var steps: nat     // commands stepped

    constructor (fate: nat -> Fate)
      ensures trace == [] && failures == 0 && enters == 0 && Kept()
    {
      this.fate, turn, trace, failures, enters := fate, 0, [], 0, 0;
      records, steps := 0, 0;
    }

    // Every command written was recorded and then stepped, but for one a failure each.
    ghost predicate Kept()
      reads this
    {
      steps <= records <= Commands(trace) <= steps + failures
    }

    method Try() returns (ok: bool)
      modifies this`turn, this`failures
      ensures failures == old(failures) + if ok then 0 else 1
    {
      ok := fate(turn).ok;
      turn := turn + 1;
      if !ok { failures := failures + 1; }
    }

    method ReadState(phase: Option<Phase>) returns (ok: bool, q: Posture)
      modifies this
      ensures trace == if ok then old(trace) + [Read(phase, q)] else old(trace)
      ensures failures == old(failures) + (if ok then 0 else 1) && enters == old(enters)
      ensures steps == old(steps) && records == old(records)
    {
      q := fate(turn).q;
      ok := Try();
      if ok { trace := trace + [Read(phase, q)]; }
    }

    method WriteCommand(phase: Phase, time: real, goal: Posture) returns (ok: bool)
      modifies this
      ensures trace == old(trace) + [Command(phase, time, goal)]
      ensures failures == old(failures) + (if ok then 0 else 1) && enters == old(enters)
      ensures steps == old(steps) && records == old(records)
    {
      trace := trace + [Command(phase, time, goal)];
      ok := Try();
    }

    method Record() returns (ok: bool)
      modifies this`turn, this`failures, this`records
      ensures failures == old(failures) + (if ok then 0 else 1) && records == old(records) + if ok then 1 else 0
    {
      ok := Try();
      if ok { records := records + 1; }
    }

    method Step() returns (ok: bool)
      modifies this`turn, this`failures, this`steps
      ensures failures == old(failures) + (if ok then 0 else 1) && steps == old(steps) + if ok then 1 else 0
    {
      ok := Try();
      if ok { steps := steps + 1; }
    }

    // Whether the operator has pressed Enter by now.
    method EnterPressed() returns (pressed: bool)
      modifies this`turn, this`enters
      ensures enters == old(enters) + if pressed then 1 else 0
    {
      pressed := fate(turn).ok;
      turn := turn + 1;
      if pressed { enters := enters + 1; }
    }

    method TrackingStartHook()
      modifies this`trace
      ensures trace == old(trace) + [Hook]
    {
      trace := trace + [Hook];
    }
  }

  datatype Status = Success | IoFailure | HomeNotConverged | TrackingError | OperatorTimeout | HomeRefused | PostureDeparture

  datatype Result = Result(status: Status, worstHome: real, worstTracking: real, worstJoint: int, warned: bool)

  function Clamp(x: real, lo: real, hi: real): real {
    if x < lo then lo else if hi < x then hi else x
  }

  // The largest error of any joint, and the first joint with it; none if all are zero.
  method Worst(p: Posture, q: Posture) returns (worst: real, joint: int)
    ensures IsWorst(p, q, worst) && Within(p, q, worst) && 0.0 <= worst && -1 <= joint < DOF
    ensures if joint < 0 then worst == 0.0 else worst == Apart(p[joint], q[joint]) > 0.0
  {
    worst, joint := 0.0, -1;
    for i := 0 to DOF
      invariant 0.0 <= worst && -1 <= joint < i
      invariant forall k | 0 <= k < i :: Apart(p[k], q[k]) <= worst
      invariant if joint < 0 then worst == 0.0 else worst == Apart(p[joint], q[joint]) > 0.0
    {
      var error := Apart(p[i], q[i]);
      if error > worst { worst, joint := error, i; }
    }
  }

  lemma WorstBelow(p: Posture, q: Posture, worst: real, limit: real)
    requires Within(p, q, worst) && worst < limit
    ensures WithinStrictly(p, q, limit)
  {
  }

  /** The run; `lastQ` and `feedbackQ` are its stored state's and a posture cycle's positions. */
  class Follower {
    const robot: Robot
    const config: Config
    const lastQ: array<real>
    const feedbackQ: array<real>
    var trackingStarted: bool

    ghost predicate Valid()
      reads this, robot, lastQ, feedbackQ
    {
      && ValidConfig(config)
      && lastQ.Length == DOF && feedbackQ.Length == DOF && lastQ != feedbackQ
      && Sound(config, robot.trace) && !HookDue(robot.trace) && trackingStarted == HasTracked(robot.trace)
      && (LastRead(robot.trace).Some? ==> lastQ[..] == LastRead(robot.trace).value)
      && robot.Kept()
    }

    constructor (robot: Robot, config: Config)
      requires ValidConfig(config) && robot.trace == [] && robot.Kept()
      ensures Valid() && this.robot == robot && this.config == config && fresh(lastQ) && fresh(feedbackQ)
    {
      this.robot, this.config, trackingStarted := robot, config, false;
      lastQ := new real[DOF](_ => 0.0);
      feedbackQ := new real[DOF](_ => 0.0);
    }

    method StoreState(q: Posture)
      requires lastQ.Length == DOF
      modifies lastQ
      ensures lastQ[..] == q
    {
      forall i | 0 <= i < DOF { lastQ[i] := q[i]; }
    }

    // Reads a cycle's feedback, stores it, and calls the hook at the first tracking one.
    method Acquire(phase: Phase) returns (ok: bool, q: Posture)
      requires Valid()
      modifies robot, lastQ, this`trackingStarted
      ensures Valid() && (!ok ==> robot.trace == old(robot.trace))
      ensures ok ==> Answers(robot.trace) && LastRead(robot.trace) == Some(q) && LastPhase(robot.trace) == Some(phase)
                     && Reading(old(robot.trace), robot.trace, Some(phase), q)
      ensures robot.failures == old(robot.failures) + (if ok then 0 else 1) && robot.enters == old(robot.enters)
    {
      ok, q := robot.ReadState(Some(phase));
      if !ok { return; }
      ghost var read := Read(Some(phase), q);
      SoundMore(config, old(robot.trace), read);
      Grown(old(robot.trace), read);
      StoreState(q);
      if phase == Tracking && !trackingStarted {
        trackingStarted := true;
        SoundMore(config, robot.trace, Hook);
        Grown(robot.trace, Hook);
        robot.TrackingStartHook();
      }
    }

    // Writes, records and steps the command of the cycle whose feedback was read.
    method Send(phase: Phase, time: real, goal: Posture) returns (ok: bool)
      requires Valid() && Answers(robot.trace) && LawfulGoal(config, robot.trace, phase, time, goal)
      requires OwnCycle(phase, LastPhase(robot.trace))
      modifies robot
      ensures Valid() && robot.trace == old(robot.trace) + [Command(phase, time, goal)]
      ensures robot.failures == old(robot.failures) + (if ok then 0 else 1) && robot.enters == old(robot.enters)
    {
      hide LawfulGoal;
      SoundMore(config, robot.trace, Command(phase, time, goal));
      Grown(robot.trace, Command(phase, time, goal));
      ok := robot.WriteCommand(phase, time, goal);
      if !ok { return; }
      ok := robot.Record();
      if !ok { return; }
      ok := robot.Step();
    }

    // One whole cycle; the goal must be lawful whatever its feedback turns out to be.
    method Submit(phase: Phase, time: real, goal: Posture) returns (ok: bool)
      requires Valid() && LawfulGoal(config, robot.trace, phase, time, goal) && (phase == Tracking ==> config.posture.None?)
      modifies robot, lastQ, this`trackingStarted
      ensures Valid()
      ensures robot.trace == old(robot.trace) || (exists q :: Cycled(old(robot.trace), robot.trace, phase, time, goal, q))
      ensures ok ==> LastGoal(robot.trace, phase) == Some(goal) && Commands(robot.trace) == Commands(old(robot.trace)) + 1
                     && robot.trace != old(robot.trace)
      ensures robot.failures == old(robot.failures) + (if ok then 0 else 1) && robot.enters == old(robot.enters)
    {
      hide Sound;
      ghost var before := robot.trace;
      var q;
      ok, q := Acquire(phase);
      if !ok { return; }
      LawfulAfterReading(config, before, robot.trace, Some(phase), q, phase, time, goal);
      ReadingKeeps(before, robot.trace, Some(phase), q);
      ghost var read := robot.trace;
      ok := Send(phase, time, goal);
      Grown(read, Command(phase, time, goal));
      assert Cycled(before, robot.trace, phase, time, goal, q);
    }

    // The initial posture is known.
    ghost predicate Begun()
      reads this, robot, lastQ, feedbackQ
    {
      Valid() && FirstRead(robot.trace).Some? && LastRead(robot.trace).Some?
    }

    // A point-to-point motion home from the initial posture.
    method RunPtp(start: Posture) returns (ok: bool)
      requires Begun() && config.posture.None? && FirstRead(robot.trace) == Some(start) && Untracked(robot.trace)
      requires Sent(robot.trace, Home) == []
      modifies robot, lastQ, this`trackingStarted
      ensures HomeBound(start) && OthersHome(old(robot.trace), robot.trace)
      ensures WayHome(config, start, Sent(robot.trace, Home), ok)
      ensures robot.failures == old(robot.failures) + (if ok then 0 else 1) && robot.enters == old(robot.enters)
    {
      hide Sound, Untracked, HomeSample, Sent, WayHome, IsWorst, Steps, OthersKept;
      var home := Start(config);
      var delta, joint := Worst(home, start);
      var bySpeed := Div(Mul(config.home.peakFactor, delta), config.home.velocityLimit);
      var duration := Max(config.dt, Max(bySpeed, config.home.motionTime));
      var cycles := CyclesIn(duration, config.dt);
      var intervals := if cycles > 1 then cycles else 1;
      assert intervals == Steps(duration, config.dt) by { StepsIs(duration, config.dt); }
      var dt := Div(duration, intervals as real);
      ghost var samples := HomeSamples(config, start, delta);
      NothingHome(robot.trace);
      var step := 0;
      ok := true;
      while step <= intervals
        invariant 0 <= step <= intervals + 1 && HomeBound(start)
        invariant OthersHome(old(robot.trace), robot.trace)
        invariant Sent(robot.trace, Home) == samples[..step]
        invariant robot.failures == old(robot.failures) && robot.enters == old(robot.enters)
      {
        var t := Min(duration, Mul(step as real, dt));
        var q: Posture := Interpolated(start, home, config.home.progress(t / duration));
        HomeSampleIs(config, start, delta, step, t, q);
        InterpolatedBetween(start, home, config.home.progress(t / duration));
        ghost var before := robot.trace;
        ok := HomeCycle(start, t, q);
        OthersHomeTrans(old(robot.trace), before, robot.trace);
        assert samples[..step + 1] == samples[..step] + [Sample(t, q)];
        if !ok {
          assert PartOf(Sent(robot.trace, Home), samples, false);
          OnTheWay(config, start, delta, Sent(robot.trace, Home), false);
          return;
        }
        step := step + 1;
      }
      assert samples[..step] == samples;
      OnTheWay(config, start, delta, Sent(robot.trace, Home), true);
    }

    // On the way home: nothing tracked, and the initial posture known.
    ghost predicate HomeBound(start: Posture)
      reads this, robot, lastQ, feedbackQ
    {
      Begun() && FirstRead(robot.trace) == Some(start) && Untracked(robot.trace)
    }

    // One cycle on the way home.
    method HomeCycle(start: Posture, t: real, q: Posture) returns (ok: bool)
      requires HomeBound(start) && config.posture.None? && Between(q, start, Start(config))
      modifies robot, lastQ, this`trackingStarted
      ensures HomeBound(start) && OthersHome(old(robot.trace), robot.trace)
      ensures Sent(robot.trace, Home) == old(Sent(robot.trace, Home)) + [Sample(t, q)]
              || (!ok && Sent(robot.trace, Home) == old(Sent(robot.trace, Home)))
      ensures robot.failures == old(robot.failures) + (if ok then 0 else 1) && robot.enters == old(robot.enters)
    {
      hide Sound, Between, Untracked;
      ghost var before := robot.trace;
      ok := Submit(Home, t, q);
      CycleKeeps(before, robot.trace, Home, t, q);
      CycleTracks(before, robot.trace, Home, t, q);
    }

    // Holds a correction goal for the settling time.
    method SettleHome(goal: Posture, cycles: int) returns (ok: bool)
      requires Begun() && config.posture.None? && Within(goal, Start(config), 0.15) && Untracked(robot.trace)
      requires GoalReached(goal, 0.05, cycles) && cycles == CyclesIn(config.home.settleTime, config.dt)
      modifies robot, lastQ, this`trackingStarted
      ensures Begun() && (ok ==> GoalReached(goal, 0.0, cycles)) && Untracked(robot.trace)
      ensures OthersKept(old(robot.trace), robot.trace) && Sent(robot.trace, Home) == old(Sent(robot.trace, Home))
      ensures FirstRead(robot.trace) == old(FirstRead(robot.trace))
      ensures ok ==> Sent(robot.trace, HomeCorrection) == old(Sent(robot.trace, HomeCorrection)) + Held(config, goal)
      ensures robot.failures == old(robot.failures) + (if ok then 0 else 1) && robot.enters == old(robot.enters)
    {
      hide Sound, Within, Untracked, Sent;
      NoMove(goal);
      var i := 0;
      ok := true;
      while i < cycles
        invariant 0 <= i <= (if cycles > 0 then cycles else 0) && Begun() && Untracked(robot.trace)
        invariant i > 0 ==> LastGoal(robot.trace, HomeCorrection) == Some(goal)
        invariant i == 0 ==> GoalReached(goal, 0.05, cycles)
        invariant OthersKept(old(robot.trace), robot.trace) && Sent(robot.trace, Home) == old(Sent(robot.trace, Home))
        invariant FirstRead(robot.trace) == old(FirstRead(robot.trace))
        invariant Sent(robot.trace, HomeCorrection) == old(Sent(robot.trace, HomeCorrection)) + Held(config, goal)[..i]
        invariant robot.failures == old(robot.failures) && robot.enters == old(robot.enters)
      {
        ghost var before := robot.trace;
        var t := Mul(i as real, config.dt);
        ok := Submit(HomeCorrection, t, goal);
        CycleKeeps(before, robot.trace, HomeCorrection, t, goal);
        CycleTracks(before, robot.trace, HomeCorrection, t, goal);
        assert Held(config, goal)[..i + 1] == Held(config, goal)[..i] + [Sample(t, goal)];
        if !ok { return; }
        i := i + 1;
      }
      assert Held(config, goal)[..i] == Held(config, goal);
    }

    // The last correction goal commanded is within r of this one; with no settling cycles, none is.
    ghost predicate GoalReached(goal: Posture, r: real, cycles: int)
      reads robot`trace
    {
      var last := LastGoal(robot.trace, HomeCorrection);
      (last.Some? ==> cycles > 0 && Within(goal, last.value, r)) && (r == 0.0 && cycles > 0 ==> last == Some(goal))
    }

    // The positions now; outside any cycle.
    method Measure() returns (ok: bool, q: Posture)
      requires Valid()
      modifies robot, lastQ
      ensures Valid() && (ok ==> LastRead(robot.trace) == Some(q))
      ensures robot.trace == if ok then old(robot.trace) + [Read(None, q)] else old(robot.trace)
      ensures robot.failures == old(robot.failures) + (if ok then 0 else 1) && robot.enters == old(robot.enters)
    {
      ok, q := robot.ReadState(None);
      if !ok { return; }
      SoundMore(config, old(robot.trace), Read(None, q));
      Grown(old(robot.trace), Read(None, q));
      StoreState(q);
    }

    // Holds the goal, then measures how far from home the arm is.
    method SettleAndMeasure(goal: Posture, cycles: int) returns (ok: bool, worst: real, joint: int, q: Posture)
      requires Begun() && config.posture.None? && Within(goal, Start(config), 0.15) && Untracked(robot.trace)
      requires GoalReached(goal, 0.05, cycles) && cycles == CyclesIn(config.home.settleTime, config.dt)
      modifies robot, lastQ, this`trackingStarted
      ensures Begun() && (ok ==> GoalReached(goal, 0.0, cycles)) && Untracked(robot.trace)
      ensures OthersKept(old(robot.trace), robot.trace) && Sent(robot.trace, Home) == old(Sent(robot.trace, Home))
      ensures FirstRead(robot.trace) == old(FirstRead(robot.trace))
      ensures ok ==> Sent(robot.trace, HomeCorrection) == old(Sent(robot.trace, HomeCorrection)) + Held(config, goal)
      ensures ok ==> IsWorst(Start(config), q, worst) && LastRead(robot.trace) == Some(q)
      ensures robot.failures == old(robot.failures) + (if ok then 0 else 1) && robot.enters == old(robot.enters)
    {
      hide Sound, Within, Untracked, IsWorst, Held, Sent, LastGoal, Commands, HasTracked, HookDue, Measured, FirstRead, LastPhase, Stored;
      ok := SettleHome(goal, cycles);
      q := Start(config);
      worst, joint := 0.0, -1;
      if !ok { return; }
      ghost var settled := robot.trace;
      ok, q := Measure();
      if !ok { return; }
      Grown(settled, Read(None, q));
      MeasuredUntracked(settled, q);
      worst, joint := Worst(Start(config), q);
    }

    // Moves the correction goal and holds it for the settling time.
    method SettleCorrected(home: Posture, q: Posture, goal: array<real>, offset: array<real>, cycles: int) returns (ok: bool)
      requires Begun() && config.posture.None? && home == Start(config) && cycles == CyclesIn(config.home.settleTime, config.dt)
      requires goal.Length == DOF && offset.Length == DOF && goal != offset && goal !in {lastQ, feedbackQ} && offset !in {lastQ, feedbackQ}
      requires forall i | 0 <= i < DOF :: goal[i] == home[i] + offset[i] && -0.15 <= offset[i] <= 0.15
      requires GoalReached(goal[..], 0.0, cycles) && Untracked(robot.trace)
      modifies robot, lastQ, this`trackingStarted, goal, offset
      ensures Begun() && OthersKept(old(robot.trace), robot.trace) && Untracked(robot.trace)
      ensures Sent(robot.trace, Home) == old(Sent(robot.trace, Home)) && FirstRead(robot.trace) == old(FirstRead(robot.trace))
      ensures forall i | 0 <= i < DOF ::
                goal[i] == home[i] + Clamp(old(offset[i]) + Clamp(home[i] - q[i], -0.05, 0.05), -0.15, 0.15)
      ensures ok ==> Sent(robot.trace, HomeCorrection) == old(Sent(robot.trace, HomeCorrection)) + Held(config, goal[..])
      ensures robot.failures == old(robot.failures) + (if ok then 0 else 1) && robot.enters == old(robot.enters)
      ensures forall i | 0 <= i < DOF :: goal[i] == home[i] + offset[i] && -0.15 <= offset[i] <= 0.15
      ensures Within(goal[..], home, 0.15) && (ok ==> GoalReached(goal[..], 0.05, cycles))
    {
      hide Sound, Within;
      ghost var was := goal[..];
      CorrectGoal(home, q, goal, offset);
      GoalMoves(was, goal[..], cycles);
      ok := SettleHome(goal[..], cycles);
      NoMove(goal[..]);
      if ok { GoalMoves(goal[..], goal[..], cycles); }
    }

    // Corrects the goal by what is still missing, a little at a time. Done, it has held home once,
    // and each corrected goal twice.
    method CorrectHome(result: Result) returns (ok: bool, r: Result)
      requires Begun() && config.posture.None? && Untracked(robot.trace)
      requires LastGoal(robot.trace, HomeCorrection).None? && result.status == IoFailure
      requires Sent(robot.trace, HomeCorrection) == []
      modifies robot, lastQ, this`trackingStarted
      ensures Begun() && (r.status == result.status || (!ok && r.status == HomeNotConverged)) && Untracked(robot.trace)
      ensures robot.enters == old(robot.enters)
      ensures robot.failures == old(robot.failures) + if !ok && r.status == result.status then 1 else 0
      ensures OthersKept(old(robot.trace), robot.trace) && Sent(robot.trace, Home) == old(Sent(robot.trace, Home))
      ensures FirstRead(robot.trace) == old(FirstRead(robot.trace))
      ensures ok ==> r.worstHome <= config.home.tolerance || !config.home.strict
      ensures ok || r.status == HomeNotConverged ==>
                && IsWorst(Start(config), LastRead(robot.trace).value, r.worstHome)
                && Corrected(config, r.worstHome, Sent(robot.trace, HomeCorrection))
      ensures r.status == HomeNotConverged ==> r.worstHome > config.home.tolerance && config.home.strict
    {
      HomeReached();
      hide Sound, Begun, Corrected, HalfSettled, Within, GoalReached, Valid, OthersKept, Untracked, IsWorst, Sent, SettledFor, Held,
           LastGoal, LastRead;
      r := result;
      NoOthers(robot.trace);
      var home := Start(config);
      var goal := new real[DOF](i requires 0 <= i < DOF => home[i]);
      var offset := new real[DOF](_ => 0.0);
      var cycles := CyclesIn(config.home.settleTime, config.dt);
      assert goal[..] == home;
      assert HalfSettled(config, 0, Sent(robot.trace, HomeCorrection), goal[..]) by { NothingSettled(config); }
      var attempt := 0;
      while attempt <= config.home.retries
        invariant 0 <= attempt <= config.home.retries && Begun() && r.status == result.status && Untracked(robot.trace)
        invariant fresh(goal) && fresh(offset) && goal.Length == DOF && offset.Length == DOF && goal != offset
        invariant forall i | 0 <= i < DOF :: goal[i] == home[i] + offset[i] && -0.15 <= offset[i] <= 0.15
        invariant Within(goal[..], home, 0.15) && GoalReached(goal[..], 0.05, cycles)
        invariant OthersKept(old(robot.trace), robot.trace) && Sent(robot.trace, Home) == old(Sent(robot.trace, Home))
        invariant FirstRead(robot.trace) == old(FirstRead(robot.trace))
        invariant HalfSettled(config, attempt, Sent(robot.trace, HomeCorrection), goal[..])
        invariant robot.failures == old(robot.failures) && robot.enters == old(robot.enters)
        decreases config.home.retries - attempt
      {
        var worst, joint, q;
        ghost var before := robot.trace;
        ok, worst, joint, q := SettleAndMeasure(goal[..], cycles);
        OthersKeptTrans(old(robot.trace), before, robot.trace);
        if !ok { return; }
        OnceMore(config, attempt, Sent(before, HomeCorrection), goal[..]);
        r := r.(worstHome := worst, worstJoint := if joint >= 0 then joint else r.worstJoint);
        if worst <= config.home.tolerance || attempt == config.home.retries {
          IsCorrected(config, worst, attempt, Sent(robot.trace, HomeCorrection));
        }
        if worst <= config.home.tolerance { return true, r; }
        if attempt == config.home.retries { break; }
        before := robot.trace;
        ok := SettleCorrected(home, q, goal, offset, cycles);
        OthersKeptTrans(old(robot.trace), before, robot.trace);
        if !ok { return; }
        OnceMoreCorrected(config, attempt, Sent(before, HomeCorrection), goal[..]);
        attempt := attempt + 1;
      }
      if !config.home.strict { return true, r; }
      return false, r.(status := HomeNotConverged);
    }

    // Moves home, and corrects the goal there.
    method MoveHome(start: Posture, result: Result) returns (ok: bool, r: Result)
      requires HomeBound(start) && config.posture.None?
      requires LastGoal(robot.trace, HomeCorrection).None? && result.status == IoFailure
      requires Sent(robot.trace, Home) == [] && Sent(robot.trace, HomeCorrection) == []
      modifies robot, lastQ, this`trackingStarted
      ensures Begun() && (r.status == result.status || (!ok && r.status == HomeNotConverged)) && Untracked(robot.trace)
      ensures robot.enters == old(robot.enters)
      ensures robot.failures == old(robot.failures) + if !ok && r.status == result.status then 1 else 0
      ensures OthersKept(old(robot.trace), robot.trace) && FirstRead(robot.trace) == Some(start)
      ensures WayHome(config, start, Sent(robot.trace, Home), ok || r.status == HomeNotConverged)
      ensures ok ==> r.worstHome <= config.home.tolerance || !config.home.strict
      ensures ok || r.status == HomeNotConverged ==>
                && IsWorst(Start(config), LastRead(robot.trace).value, r.worstHome)
                && Corrected(config, r.worstHome, Sent(robot.trace, HomeCorrection))
      ensures r.status == HomeNotConverged ==> r.worstHome > config.home.tolerance && config.home.strict
    {
      hide Sound, WayHome, Corrected, OthersKept, OthersHome, Untracked, IsWorst, Sent, LastGoal, LastRead;
      r := result;
      ghost var before := robot.trace;
      ok := RunPtp(start);
      ghost var there := robot.trace;
      OthersHomeKept(before, there);
      if !ok { return; }
      ok, r := CorrectHome(r);
      OthersKeptTrans(before, there, robot.trace);
      WholeIsPart(config, start, Sent(robot.trace, Home));
    }

    // The stored posture's error from the sample to come: whether it is too large or has been
    // large too long.
    method CheckErrors(q: Posture, over: real, result: Result) returns (stop: bool, over': real, worst: real, r: Result)
      requires lastQ.Length == DOF
      ensures IsWorst(lastQ[..], q, worst) && over' == if worst >= config.safety.sustained then over + config.dt else 0.0
      ensures stop <==> worst >= config.safety.immediate || over' >= config.safety.sustainedTime
      ensures r.status == result.status && r.worstTracking == Max(worst, result.worstTracking)
      ensures r.warned <==> result.warned || worst >= config.safety.warning
    {
      hide IsWorst, Within;
      r := result;
      var joint;
      worst, joint := Worst(lastQ[..], q);
      if worst > r.worstTracking { r := r.(worstTracking := worst, worstJoint := joint); }
      if worst >= config.safety.warning && !r.warned { r := r.(warned := true); }
      over' := if worst >= config.safety.sustained then over + config.dt else 0.0;
      stop := worst >= config.safety.immediate || over' >= config.safety.sustainedTime;
    }

    // The reference from start to end: stops at an error too large or too long, and, in a posture
    // run, at a feedback too far from the reference about to be commanded from it.
    method TrackReference(result: Result) returns (ok: bool, r: Result)
      requires Begun() && result.status == IoFailure && Untracked(robot.trace)
      modifies robot, lastQ, feedbackQ, this`trackingStarted
      ensures Begun() && OthersButTracking(old(robot.trace), robot.trace)
      ensures r.status == IoFailure || (!ok && (r.status == TrackingError || r.status == PostureDeparture))
      ensures FirstRead(robot.trace) == old(FirstRead(robot.trace))
      // What is commanded are the reference's samples in order, none of them where tracking must stop.
      ensures TrackedSoFar(config, robot.trace)
      ensures ok ==> TrackedAll(config, robot.trace)
      // It stops exactly where it must, unless a call fails or a feedback departs before.
      ensures r.status == TrackingError <==> robot.failures == old(robot.failures) && StoppedAt(config, robot.trace)
      ensures ok ==> LastGoal(robot.trace, Tracking) == Some(config.reference(config.duration))
      ensures robot.enters == old(robot.enters)
      ensures robot.failures == old(robot.failures) + if !ok && r.status == IoFailure then 1 else 0
      ensures r.status == PostureDeparture ==>
                && config.posture.Some? && Answers(robot.trace) && LastRead(robot.trace) == Some(feedbackQ[..])
                && LastPhase(robot.trace) == Some(Tracking)
                && exists t | 0.0 <= t <= config.duration :: !WithinStrictly(feedbackQ[..], config.reference(t), config.posture.value.abortError)
    {
      hide Sound, Within, WithinStrictly, MustStop, TrackedSoFar, OthersButTracking, OverRun, Sent, Stored, LastGoal, LastRead,
           FirstRead, IsWorst, Mul, Div, TrackingCycled, StoppedAt, ReadOnly;
      r := result;
      var cycles := CyclesIn(config.duration, config.dt);
      var intervals := if cycles > 1 then cycles else 1;
      var dt := Div(config.duration, intervals as real);
      var over, step := 0.0, 0;
      ghost var run := 0;
      StartsTracking(config, robot.trace);
      while step <= intervals
        invariant 0 <= step <= intervals + 1 && Begun() && r.status == IoFailure
        invariant OthersButTracking(old(robot.trace), robot.trace) && FirstRead(robot.trace) == old(FirstRead(robot.trace))
        invariant Sent(robot.trace, Tracking) == Samples(config, step) && TrackedSoFar(config, robot.trace)
        invariant |Stored(robot.trace)| == step + 1 && LastRead(robot.trace) == Some(Stored(robot.trace)[step])
        invariant over == Mul(run as real, config.dt) && OverRun(config, Stored(robot.trace), step, run)
        invariant step > 0 ==> LastGoal(robot.trace, Tracking) == Some(ReferenceSample(config, step - 1).goal)
        invariant robot.failures == old(robot.failures) && robot.enters == old(robot.enters)
      {
        var t := Min(config.duration, Mul(step as real, dt));
        SamplesSpread(config.duration, config.dt, step);
        var q := config.reference(t);
        assert ReferenceSample(config, step) == Sample(t, q);
        var stop, worst;
        ghost var overBefore := over;
        stop, over, worst, r := CheckErrors(q, over, r);
        run := DecideStop(config, Stored(robot.trace), step, worst, overBefore, over, run);
        StoppedIs(config, robot.trace, step);
        if stop { return false, r.(status := TrackingError); }
        ghost var before := robot.trace;
        var departed;
        ok, departed, r := TrackingCycle(t, q, r);
        CycleTrackedSoFar(config, before, robot.trace, step, ok);
        OthersButTrackingTrans(old(robot.trace), before, robot.trace);
        if !ok { return; }
        OverRunStays(config, Stored(before), Stored(robot.trace), step + 1, run);
        step := step + 1;
      }
      SamplesSpread(config.duration, config.dt, intervals);
      StoppedIs(config, robot.trace, step);
      ok := true;
    }

    // One tracking cycle: a posture run's commands the reference only from a feedback near it.
    method TrackingCycle(t: real, q: Posture, result: Result) returns (ok: bool, departed: bool, r: Result)
      requires Begun() && 0.0 <= t <= config.duration && q == config.reference(t)
      modifies robot, lastQ, feedbackQ, this`trackingStarted
      ensures Begun() && TrackingCycled(old(robot.trace), robot.trace, t, q, ok)
      ensures r.status == if departed then PostureDeparture else result.status
      ensures robot.failures == old(robot.failures) + (if ok || departed then 0 else 1) && robot.enters == old(robot.enters)
      ensures departed ==> ReadOnly(old(robot.trace), robot.trace)
      ensures departed ==> !ok && config.posture.Some? && Answers(robot.trace) && LastRead(robot.trace) == Some(feedbackQ[..])
                           && LastPhase(robot.trace) == Some(Tracking)
                           && !WithinStrictly(feedbackQ[..], q, config.posture.value.abortError)
    {
      hide Sound, WithinStrictly, TrackingCycled, ReadOnly;
      r, departed := result, false;
      if config.posture.Some? {
        ok, departed, r := PostureCycle(t, q, r);
      } else {
        ghost var before := robot.trace;
        ok := Submit(Tracking, t, q);
        CycleKeeps(before, robot.trace, Tracking, t, q);
        SubmittedTracks(before, robot.trace, t, q, ok);
      }
    }

    // A posture run's tracking cycle: the reference is commanded only from a feedback near it.
    method PostureCycle(t: real, q: Posture, result: Result) returns (ok: bool, departed: bool, r: Result)
      requires Begun() && config.posture.Some? && 0.0 <= t <= config.duration && q == config.reference(t)
      modifies robot, lastQ, feedbackQ, this`trackingStarted
      ensures Begun() && TrackingCycled(old(robot.trace), robot.trace, t, q, ok)
      ensures r.status == if departed then PostureDeparture else result.status
      ensures robot.failures == old(robot.failures) + (if ok || departed then 0 else 1) && robot.enters == old(robot.enters)
      ensures departed ==> ReadOnly(old(robot.trace), robot.trace)
      ensures departed ==> !ok && Answers(robot.trace) && LastRead(robot.trace) == Some(feedbackQ[..])
                           && LastPhase(robot.trace) == Some(Tracking)
                           && !WithinStrictly(feedbackQ[..], q, config.posture.value.abortError)
      ensures ok ==> WithinStrictly(feedbackQ[..], q, config.posture.value.abortError)
    {
      hide Sound, Within, TrackingCycled, ReadOnly;
      r, departed := result, false;
      var feedback;
      ghost var before := robot.trace;
      ok, feedback := Acquire(Tracking);
      if !ok {
        NoTrackingCycle(before, t, q);
        return;
      }
      ReadingKeeps(before, robot.trace, Some(Tracking), feedback);
      ReadTracks(before, robot.trace, t, q, feedback);
      forall i | 0 <= i < DOF { feedbackQ[i] := feedback[i]; }
      assert feedbackQ[..] == feedback;
      var worst, joint := Worst(feedback, q);
      if worst < config.posture.value.abortError {
        WorstBelow(feedback, q, worst, config.posture.value.abortError);
        ghost var read := robot.trace;
        ok := Send(Tracking, t, q);
        Grown(read, Command(Tracking, t, q));
        SentTracks(before, read, t, q, feedback, ok);
        return;
      }
      NotWithin(feedback, q, worst, joint, config.posture.value.abortError);
      if worst > r.worstTracking { r := r.(worstTracking := worst, worstJoint := joint); }
      return false, true, r.(status := PostureDeparture);
    }

    // Nothing failed and nobody pressed Enter since.
    twostate predicate Unattended()
      reads robot
    {
      robot.failures == old(robot.failures) && robot.enters == old(robot.enters)
    }

    // A cycle of a hold, or its first command where the feedback is already read.
    method HoldOnce(phase: Phase, time: real, q: Posture, answering: bool) returns (ok: bool)
      requires Begun() && (phase == Finalizing || phase == AbortHold) && LawfulGoal(config, robot.trace, phase, 0.0, q)
      requires answering ==> Answers(robot.trace) && OwnCycle(phase, LastPhase(robot.trace))
      modifies robot, lastQ, this`trackingStarted
      ensures Begun() && LawfulGoal(config, robot.trace, phase, 0.0, q)
      ensures CommandsOnly(old(robot.trace), robot.trace, phase, q) && TrackKept(old(robot.trace), robot.trace)
      ensures ok ==> Commands(robot.trace) == Commands(old(robot.trace)) + 1
      ensures robot.failures == old(robot.failures) + (if ok then 0 else 1) && robot.enters == old(robot.enters)
    {
      hide Sound;
      ghost var before := robot.trace;
      NoCommands(before, phase, q);
      if answering {
        ok := Send(phase, 0.0, q);
        Grown(before, Command(phase, 0.0, q));
      } else {
        ok := Submit(phase, time, q);
        CycleKeeps(before, robot.trace, phase, time, q);
        CycleCommands(before, before, robot.trace, phase, time, q);
        CycleTracks(before, robot.trace, phase, time, q);
      }
    }

    // Holds one posture, taken when it begins: `hold` may be the stored state, which each cycle
    // overwrites. With `answering`, the first hold answers the feedback already read. A hold that
    // waits for the operator times out exactly when nothing fails and nobody presses Enter, and
    // has then been commanded for its whole time.
    method Finalize(phase: Phase, hold: array<real>, result: Result, answering: bool) returns (ok: bool, r: Result)
      requires Begun() && hold.Length == DOF && (phase == Finalizing || phase == AbortHold)
      requires LawfulGoal(config, robot.trace, phase, 0.0, hold[..])
      requires answering ==> Answers(robot.trace) && OwnCycle(phase, LastPhase(robot.trace))
      modifies robot, lastQ, this`trackingStarted
      ensures Begun() && CommandsOnly(old(robot.trace), robot.trace, phase, old(hold[..]))
      ensures TrackKept(old(robot.trace), robot.trace)
      ensures r == result.(status := if Interactive(config.ending) && Unattended() then OperatorTimeout else result.status)
      ensures robot.failures >= old(robot.failures) && robot.enters >= old(robot.enters)
      ensures ok <==> robot.failures == old(robot.failures) && (Interactive(config.ending) ==> robot.enters > old(robot.enters))
      ensures robot.enters > old(robot.enters) ==> Interactive(config.ending)
      ensures Unattended() ==> Commands(robot.trace) == Commands(old(robot.trace)) + HoldCycles(config, answering)
    {
      hide Sound, LawfulGoal, CommandsOnly, Commands, Sent, Stored;
      r := result;
      var q := hold[..];
      var start := 0;
      ok := true;
      NoCommands(robot.trace, phase, q);
      if answering {
        ok := HoldOnce(phase, 0.0, q, true);
        if !ok { return; }
        start := 1;
      }
      var interactive := Interactive(config.ending);
      var cycles := CyclesIn(HoldTime(config.ending), config.dt);
      var i := start;
      while i < cycles
        invariant Begun() && LawfulGoal(config, robot.trace, phase, 0.0, q)
        invariant CommandsOnly(old(robot.trace), robot.trace, phase, q) && TrackKept(old(robot.trace), robot.trace)
        invariant Unattended() && start <= i && (i <= cycles || i == start)
        invariant Commands(robot.trace) == Commands(old(robot.trace)) + i
      {
        if interactive {
          var pressed := robot.EnterPressed();
          if pressed { return true, r; }
        }
        ghost var before := robot.trace;
        ok := HoldOnce(phase, i as real * config.dt, q, false);
        CommandsJoin(old(robot.trace), before, robot.trace, phase, q);
        if !ok { return; }
        i := i + 1;
      }
      if interactive { return false, r.(status := OperatorTimeout); }
    }

    // Ends a run with the arm held where `hold` says. Whatever ended it, the status becomes the
    // operator's timeout exactly when the hold waits for the operator and is left unattended.
    method HoldAt(hold: array<real>, result: Result, answering: bool) returns (r: Result)
      requires Begun() && hold.Length == DOF && Measured(robot.trace, hold[..]) && LastGoal(robot.trace, AbortHold).None?
      requires answering ==> Answers(robot.trace) && LastPhase(robot.trace) == Some(Tracking)
      modifies robot, lastQ, this`trackingStarted
      ensures Valid() && CommandsOnly(old(robot.trace), robot.trace, AbortHold, old(hold[..]))
      ensures TrackKept(old(robot.trace), robot.trace)
      ensures r == result.(status := if Interactive(config.ending) && Unattended() then OperatorTimeout else result.status)
      ensures robot.failures >= old(robot.failures) && robot.enters >= old(robot.enters)
      ensures robot.enters > old(robot.enters) ==> Interactive(config.ending)
    {
      var ok;
      ok, r := Finalize(AbortHold, hold, result, answering);
    }

    // Before tracking: a posture run's start is checked, an ordinary one's arm is moved home. When
    // it does not go on, the hold is done.
    method Approach(initial: Posture, result: Result) returns (go: bool, r: Result)
      requires Begun() && robot.trace == [Read(None, initial)] && result.status == IoFailure
      requires FirstRead(robot.trace) == Some(initial) && Untracked(robot.trace)
      requires forall k :: LastGoal(robot.trace, k).None? && Sent(robot.trace, k) == []
      modifies robot, lastQ, this`trackingStarted
      ensures Valid() && (go ==> Begun() && r.status == IoFailure && LastGoal(robot.trace, AbortHold).None? && Unattended())
      ensures Sent(robot.trace, Tracking) == [] && (go ==> Untracked(robot.trace))
      ensures go ==> FirstRead(robot.trace) == Some(initial)
      ensures go && config.posture.None? ==> HomedBy(config, initial, robot.trace)
      ensures !go ==> r.status != TrackingError
      ensures robot.trace != [] && (config.posture.Some? ==> robot.trace[0].Read? && robot.trace[0].q == initial)
      ensures go && config.posture.Some? ==> robot.trace == old(robot.trace)
      ensures RefusedStart(config, initial) ==>
                && !go && RefusedHome(config, robot.trace)
                && r.status == if Interactive(config.ending) && Unattended() then OperatorTimeout else HomeRefused
      ensures !go ==> r.status != Success && (r.status == HomeRefused ==> RefusedStart(config, initial))
      ensures !go ==> AttendedEnd(r.status)
    {
      hide Sound, Within, Untracked, Sent, Stored, HomeSamples, SettledFor;
      r := result;
      var home := Start(config);
      if config.posture.None? {
        go, r := MoveHome(initial, r);
        if !go {
          LastReadMeasured(robot.trace);
          r := HoldAt(lastQ, if r.status == IoFailure then r else r.(status := HomeNotConverged), false);
        }
        return;
      }
      var distance, joint := Worst(initial, home);
      r := r.(worstHome := distance);
      if distance <= config.posture.value.startTolerance {
        Nearby(initial, home, distance, config.posture.value.startTolerance);
        return true, r;
      }
      FarAway(initial, home, distance, joint, config.posture.value.startTolerance);
      var hold := new real[DOF](i requires 0 <= i < DOF => initial[i]);
      assert hold[..] == initial;
      ghost var first := robot.trace;
      LastReadMeasured(first);
      r := HoldAt(hold, r.(status := HomeRefused), false);
      assert robot.trace[..1] == first;
      return false, r;
    }

    // What a final status says of the operator: a run on which nothing failed and nobody pressed
    // Enter times out if its hold waits for Enter, and only such a hold, left without, times out.
    twostate predicate AttendedEnd(status: Status)
      reads robot
    {
      && robot.failures >= old(robot.failures) && robot.enters >= old(robot.enters)
      && (Interactive(config.ending) && Unattended() ==> status == OperatorTimeout)
      && (status == OperatorTimeout ==> Interactive(config.ending) && robot.enters == old(robot.enters))
    }

    // After tracking stopped short: the arm is held where it was measured, if it is held at all.
    method Abandon(result: Result) returns (r: Result)
      requires Begun() && LastGoal(robot.trace, AbortHold).None?
      requires result.status == IoFailure || result.status == TrackingError || result.status == PostureDeparture
      requires result.status == PostureDeparture ==>
                 Answers(robot.trace) && LastRead(robot.trace) == Some(feedbackQ[..]) && LastPhase(robot.trace) == Some(Tracking)
      modifies robot, lastQ, this`trackingStarted
      ensures Valid() && robot.failures >= old(robot.failures) && robot.enters >= old(robot.enters)
      ensures old(robot.trace) <= robot.trace && TrackKept(old(robot.trace), robot.trace)
      ensures r.status == if result.status != IoFailure && Interactive(config.ending) && Unattended() then OperatorTimeout
                          else result.status
    {
      hide Sound;
      r := result;
      LastReadMeasured(robot.trace);
      if r.status == TrackingError {
        r := HoldAt(lastQ, r, false);
      } else if r.status == PostureDeparture {
        r := HoldAt(feedbackQ, r, true);
      }
    }

    // After tracking: the reference's end is held.
    method Conclude(result: Result) returns (r: Result)
      requires Begun() && result.status == IoFailure
      requires LastGoal(robot.trace, Tracking) == Some(config.reference(config.duration))
      modifies robot, lastQ, this`trackingStarted
      ensures Valid() && LastGoal(robot.trace, Tracking) == Some(config.reference(config.duration))
      ensures r.status == Success <==> robot.failures == old(robot.failures)
                                       && (Interactive(config.ending) ==> robot.enters > old(robot.enters))
      ensures r.status == Success || r.status == IoFailure || r.status == OperatorTimeout
      ensures old(robot.trace) <= robot.trace && TrackKept(old(robot.trace), robot.trace)
      ensures r.status == OperatorTimeout <==> Interactive(config.ending) && Unattended()
      ensures robot.failures >= old(robot.failures) && robot.enters >= old(robot.enters)
    {
      hide Sound;
      var end := config.reference(config.duration);
      var final := new real[DOF](i requires 0 <= i < DOF => end[i]);
      assert final[..] == end;
      ghost var tracked := robot.trace;
      var ok;
      ok, r := Finalize(Finalizing, final, result, false);
      CommandsKeep(tracked, robot.trace, Finalizing, end, Tracking);
      if ok { r := r.(status := Success); }
    }

    // From the start of tracking to the end of the run.
    method Follow(result: Result) returns (r: Result)
      requires Begun() && result.status == IoFailure && LastGoal(robot.trace, AbortHold).None? && Untracked(robot.trace)
      modifies robot, lastQ, feedbackQ, this`trackingStarted
      ensures TrackedSoFar(config, robot.trace) && (r.status == Success ==> TrackedAll(config, robot.trace))
      ensures r.status == TrackingError ==> StoppedAt(config, robot.trace)
      ensures forall k | k == Home || k == HomeCorrection :: Sent(robot.trace, k) == old(Sent(robot.trace, k))
      ensures Valid() && FirstRead(robot.trace) == old(FirstRead(robot.trace))
      ensures r.status == Success ==>
                && LastGoal(robot.trace, Tracking) == Some(config.reference(config.duration))
                && robot.failures == old(robot.failures)
                && (Interactive(config.ending) ==> robot.enters > old(robot.enters))
      ensures r.status != HomeRefused && AttendedEnd(r.status)
    {
      hide Sound, Within, HookDue, HasTracked, LastRead, LastPhase, LastGoal, Measured, Sent, Stored, Untracked, MustStop;
      var ok;
      ok, r := TrackReference(result);
      FirstIsRead(config, robot.trace);
      if ok { r := Conclude(r); } else { r := Abandon(r); }
      FirstIsRead(config, robot.trace);
    }

    /** The whole run: its events are sound, the hook is settled, and success means the reference
        was commanded to its end and then its end was held, with no call failed and, where the
        operator is waited for, Enter pressed. A posture run whose first reading is not within the
        start tolerance commands nothing but that reading, and is refused, or timed out. */
    method Run() returns (r: Result)
      requires Valid() && robot.trace == []
      modifies robot, lastQ, feedbackQ, this`trackingStarted
      ensures robot.Kept()
      ensures r.status == Success && old(robot.failures) == 0 ==> robot.steps == robot.records == Commands(robot.trace)
      ensures Sound(config, robot.trace) && !HookDue(robot.trace)
      ensures Sent(robot.trace, Tracking) == [] || TrackedSoFar(config, robot.trace)
      ensures r.status == Success ==> TrackedSoFar(config, robot.trace) && TrackedAll(config, robot.trace)
      ensures r.status == TrackingError ==> TrackedSoFar(config, robot.trace) && StoppedAt(config, robot.trace)
      ensures r.status == Success && config.posture.None? ==>
                robot.trace != [] && robot.trace[0].Read? && HomedBy(config, robot.trace[0].q, robot.trace)
      ensures r.status == Success ==>
                && LastGoal(robot.trace, Tracking) == Some(config.reference(config.duration))
                && robot.failures == old(robot.failures)
                && (Interactive(config.ending) ==> robot.enters > old(robot.enters))
      ensures robot.trace == [] ==> r.status == IoFailure
      ensures robot.trace != [] ==> robot.trace[0].Read?
      ensures robot.trace != [] && RefusedStart(config, robot.trace[0].q) ==>
                && RefusedHome(config, robot.trace)
                && r.status == if Interactive(config.ending) && Unattended() then OperatorTimeout else HomeRefused
      ensures r.status == HomeRefused ==> robot.trace != [] && RefusedStart(config, robot.trace[0].q)
      ensures AttendedEnd(r.status)
    {
      hide Sound, RefusedHome, Within, HookDue, HasTracked, LastRead, LastPhase, LastGoal, Measured, Sent, Stored, TrackedSoFar,
           TrackedAll, StoppedAt, WayHome, Corrected;
      r := Result(IoFailure, 0.0, 0.0, -1, false);
      NothingYet();
      var ok, initial := Measure();
      if !ok { return; }
      Grown([], Read(None, initial));
      ok, r := Approach(initial, r);
      if robot.trace != [] { FirstIsRead(config, robot.trace); }
      if !ok { return; }
      r := Follow(r);
      FirstIsRead(config, robot.trace);
    }

    // Before any correction home itself is within reach.
    lemma HomeReached()
      requires config.dt > 0.0 && LastGoal(robot.trace, HomeCorrection).None?
      ensures GoalReached(Start(config), 0.05, CyclesIn(config.home.settleTime, config.dt))
      ensures Within(Start(config), Start(config), 0.15)
    {
      assert forall x :: Apart(x, x) == 0.0;
    }

    // From a goal reached, one within 0.05 of it is within reach.
    lemma GoalMoves(was: Posture, goal: Posture, cycles: int)
      requires GoalReached(was, 0.0, cycles) && Within(goal, was, 0.05)
      ensures GoalReached(goal, 0.05, cycles)
    {
    }
  }

  // The way home was commanded whole, and the corrections settled.
  ghost predicate HomedBy(c: Config, start: Posture, t: seq<Event>)
    requires ValidConfig(c)
  {
    WayHome(c, start, Sent(t, Home), true) && exists worst :: Corrected(c, worst, Sent(t, HomeCorrection))
  }

  // The operator is waited for.
  predicate Interactive(e: Ending) {
    !e.simulation && e.waitTime == 0.0
  }

  function HoldTime(e: Ending): real {
    if Interactive(e) then e.operatorTimeout
    else if e.waitTime > 0.0 || !e.simulation then e.waitTime
    else e.simulationHold
  }

  // The commands of a whole hold; the first may answer a feedback read before it.
  function HoldCycles(c: Config, answering: bool): nat
    requires c.dt > 0.0
  {
    var start, cycles := if answering then 1 else 0, CyclesIn(HoldTime(c.ending), c.dt);
    if cycles > start then cycles else start
  }

  // A posture run that may not start from the posture first read.
  predicate RefusedStart(c: Config, first: Posture) {
    c.posture.Some? && !Within(first, Start(c), c.posture.value.startTolerance)
  }

  // Only the posture first read was commanded.
  ghost predicate RefusedHome(c: Config, t: seq<Event>) {
    && t != [] && t[0].Read? && RefusedStart(c, t[0].q)
    && CommandsOnly(t[..1], t, AbortHold, t[0].q)
  }

  // Everything commanded since t is this goal in this phase.
  ghost predicate CommandsOnly(t: seq<Event>, u: seq<Event>, phase: Phase, goal: Posture) {
    t <= u && forall i | |t| <= i < |u| && u[i].Command? :: u[i].kind == phase && u[i].goal == goal
  }

  lemma NoCommands(t: seq<Event>, phase: Phase, goal: Posture)
    ensures CommandsOnly(t, t, phase, goal)
  {
  }

  lemma CommandsJoin(t: seq<Event>, u: seq<Event>, v: seq<Event>, phase: Phase, goal: Posture)
    requires CommandsOnly(t, u, phase, goal) && CommandsOnly(u, v, phase, goal)
    ensures CommandsOnly(t, v, phase, goal)
  {
  }

  lemma CycleCommands(t: seq<Event>, u: seq<Event>, v: seq<Event>, phase: Phase, time: real, goal: Posture)
    requires CommandsOnly(t, u, phase, goal) && (v == u || exists q :: Cycled(u, v, phase, time, goal, q))
    ensures CommandsOnly(t, v, phase, goal)
  {
  }

  lemma NothingYet()
    ensures LastRead([]) == None && FirstRead([]) == None && !HasTracked([]) && Stored([]) == [] && forall k :: Sent([], k) == []
    ensures forall k :: LastGoal([], k) == None
  {
  }

  // What comes first in a sound run is a reading.
  lemma {:induction false} FirstIsRead(c: Config, t: seq<Event>)
    requires Sound(c, t) && t != []
    ensures t[0].Read? && FirstRead(t) == Some(t[0].q)
  {
    if |t| == 1 {
      assert t[..0] == [];
    } else {
      FirstIsRead(c, t[..|t| - 1]);
    }
  }

  lemma Nearby(p: Posture, q: Posture, worst: real, limit: real)
    requires Within(p, q, worst) && worst <= limit
    ensures Within(p, q, limit)
  {
  }

  lemma {:induction false} LastReadMeasured(t: seq<Event>)
    ensures LastRead(t).Some? ==> Measured(t, LastRead(t).value)
  {
    if t != [] { LastReadMeasured(t[..|t| - 1]); }
  }

  lemma {:induction false} CommandsKeep(t: seq<Event>, u: seq<Event>, phase: Phase, goal: Posture, other: Phase)
    requires CommandsOnly(t, u, phase, goal) && other != phase
    ensures LastGoal(u, other) == LastGoal(t, other)
    decreases |u|
  {
    if u == t {
    } else {
      CommandsKeep(t, u[..|u| - 1], phase, goal, other);
    }
  }

  lemma FarAway(p: Posture, q: Posture, worst: real, joint: int, limit: real)
    requires -1 <= joint < DOF && !(worst <= limit)
    requires if joint < 0 then worst == 0.0 else worst == Apart(p[joint], q[joint])
    ensures !Within(p, q, limit)
  {
    var i := if joint < 0 then 0 else joint;
    assert Apart(p[i], q[i]) > limit;
  }

  lemma NotWithin(p: Posture, q: Posture, worst: real, joint: int, limit: real)
    requires -1 <= joint < DOF && limit <= worst
    requires if joint < 0 then worst == 0.0 else worst == Apart(p[joint], q[joint])
    ensures !WithinStrictly(p, q, limit)
  {
    var i := if joint < 0 then 0 else joint;
    assert Apart(p[i], q[i]) >= limit;
  }

  // The samples start at 0 and end at the end.
  lemma SampleTime(duration: real, intervals: int, step: int)
    requires duration >= 0.0 && 0 <= step <= intervals && intervals >= 1
    ensures var t := Min(duration, step as real * (duration / intervals as real));
            0.0 <= t <= duration && (step == intervals ==> t == duration)
  {
    var dt := duration / intervals as real;
    assert dt >= 0.0 && intervals as real * dt == duration;
    assert step as real * dt >= 0.0;
  }

  // Commands of the way home only.
  ghost predicate OthersHome(t: seq<Event>, u: seq<Event>) {
    forall k | k != Home :: LastGoal(u, k) == LastGoal(t, k) && Sent(u, k) == Sent(t, k)
  }

  lemma OthersHomeTrans(t: seq<Event>, u: seq<Event>, v: seq<Event>)
    requires OthersHome(t, u) && OthersHome(u, v)
    ensures OthersHome(t, v)
  {
  }

  lemma NothingHome(t: seq<Event>)
    ensures OthersHome(t, t)
  {
  }

  lemma OthersHomeKept(t: seq<Event>, u: seq<Event>)
    requires OthersHome(t, u)
    ensures OthersKept(t, u) && LastGoal(u, HomeCorrection) == LastGoal(t, HomeCorrection)
    ensures Sent(u, HomeCorrection) == Sent(t, HomeCorrection)
  {
  }

  // Commands of the phases before tracking only.
  ghost predicate OthersKept(t: seq<Event>, u: seq<Event>) {
    forall k | k != Home && k != HomeCorrection :: LastGoal(u, k) == LastGoal(t, k) && Sent(u, k) == Sent(t, k)
  }

  lemma NoOthers(t: seq<Event>)
    ensures OthersKept(t, t)
  {
  }

  lemma OthersKeptTrans(t: seq<Event>, u: seq<Event>, v: seq<Event>)
    requires OthersKept(t, u) && OthersKept(u, v)
    ensures OthersKept(t, v)
  {
  }

  lemma InterpolatedBetween(a: Posture, b: Posture, progress: real)
    requires 0.0 <= progress <= 1.0
    ensures Between(Interpolated(a, b, progress), a, b)
  {
    forall i | 0 <= i < DOF ensures BetweenReals(Interpolated(a, b, progress)[i], a[i], b[i]) { PartWay(a[i], b[i], progress); }
  }

  lemma PartWay(a: real, b: real, x: real)
    requires 0.0 <= x <= 1.0
    ensures BetweenReals(a + (b - a) * x, a, b)
  {
    var d := b - a;
    if d >= 0.0 {
      Share(d, x);
    } else {
      Share(-d, x);
      assert (-d) * x == -(d * x);
    }
  }

  lemma Share(d: real, x: real)
    requires d >= 0.0 && 0.0 <= x <= 1.0
    ensures 0.0 <= d * x <= d
  {
    assert d * (1.0 - x) >= 0.0;
  }

  lemma NoMove(p: Posture)
    ensures Within(p, p, 0.0) && Within(p, p, 0.05)
  {
    assert forall x :: Apart(x, x) == 0.0;
  }

  // Each joint's offset from home moves towards what is missing, by 0.05 and within 0.15.
  method CorrectGoal(home: Posture, q: Posture, goal: array<real>, offset: array<real>)
    requires goal.Length == DOF && offset.Length == DOF && goal != offset
    requires forall i | 0 <= i < DOF :: goal[i] == home[i] + offset[i] && -0.15 <= offset[i] <= 0.15
    modifies goal, offset
    ensures forall i | 0 <= i < DOF :: goal[i] == home[i] + offset[i] && -0.15 <= offset[i] <= 0.15
    ensures Within(goal[..], old(goal[..]), 0.05) && Within(goal[..], home, 0.15)
    ensures forall i | 0 <= i < DOF ::
              goal[i] == home[i] + Clamp(old(offset[i]) + Clamp(home[i] - q[i], -0.05, 0.05), -0.15, 0.15)
  {
    for i := 0 to DOF
      invariant forall k | 0 <= k < DOF :: goal[k] == home[k] + offset[k] && -0.15 <= offset[k] <= 0.15
      invariant forall k | i <= k < DOF :: goal[k] == old(goal[k]) && offset[k] == old(offset[k])
      invariant forall k | 0 <= k < i :: offset[k] == Clamp(old(offset[k]) + Clamp(home[k] - q[k], -0.05, 0.05), -0.15, 0.15)
    {
      var step := Clamp(home[i] - q[i], -0.05, 0.05);
      offset[i] := Clamp(offset[i] + step, -0.15, 0.15);
      goal[i] := home[i] + offset[i];
    }
  }

  // A whole cycle, or none.
  lemma CycleKeeps(t: seq<Event>, u: seq<Event>, phase: Phase, time: real, goal: Posture)
    requires u == t || (exists q :: Cycled(t, u, phase, time, goal, q))
    ensures forall k | k != phase :: LastGoal(u, k) == LastGoal(t, k) && Sent(u, k) == Sent(t, k)
    ensures u != t ==> Sent(u, phase) == Sent(t, phase) + [Sample(time, goal)]
    ensures u != t ==> LastRead(u).Some? && Stored(u) == StoredAfter(Stored(t), Some(phase), LastRead(u).value)
    ensures (FirstRead(t).Some? ==> FirstRead(u) == FirstRead(t)) && (LastRead(t).Some? ==> LastRead(u).Some?)
    ensures forall p | Measured(t, p) :: Measured(u, p)
  {
    if u != t {
      var q :| Cycled(t, u, phase, time, goal, q);
      var r :| Reading(t, r, Some(phase), q) && u == r + [Command(phase, time, goal)];
      ReadingKeeps(t, r, Some(phase), q);
      Grown(r, Command(phase, time, goal));
    }
  }

  // A cycle of a motion home leaves nothing tracked; one of a hold leaves what was tracked.
  lemma CycleTracks(t: seq<Event>, u: seq<Event>, phase: Phase, time: real, goal: Posture)
    requires u == t || (exists q :: Cycled(t, u, phase, time, goal, q))
    ensures (phase == Home || phase == HomeCorrection) && Untracked(t) ==> Untracked(u)
    ensures phase == Finalizing || phase == AbortHold ==> TrackKept(t, u)
  {
    hide Cycled, Sent, Stored, LastRead;
    CycleKeeps(t, u, phase, time, goal);
  }

  ghost predicate TrackKept(t: seq<Event>, u: seq<Event>) {
    Stored(u) == Stored(t) && forall k | k != Finalizing && k != AbortHold :: Sent(u, k) == Sent(t, k)
  }

  lemma MeasuredUntracked(t: seq<Event>, q: Posture)
    requires Untracked(t)
    ensures Untracked(t + [Read(None, q)])
  {
    Grown(t, Read(None, q));
  }

  lemma NoTrackingCycle(t: seq<Event>, time: real, goal: Posture)
    ensures TrackingCycled(t, t, time, goal, false)
  {
  }

  lemma ReadTracks(t: seq<Event>, u: seq<Event>, time: real, goal: Posture, q: Posture)
    requires Reading(t, u, Some(Tracking), q)
    ensures TrackingCycled(t, u, time, goal, false) && ReadOnly(t, u)
  {
    ReadingKeeps(t, u, Some(Tracking), q);
  }

  lemma SentTracks(t: seq<Event>, r: seq<Event>, time: real, goal: Posture, q: Posture, ok: bool)
    requires Reading(t, r, Some(Tracking), q)
    ensures TrackingCycled(t, r + [Command(Tracking, time, goal)], time, goal, ok)
  {
    ReadingKeeps(t, r, Some(Tracking), q);
    Grown(r, Command(Tracking, time, goal));
  }

  lemma SubmittedTracks(t: seq<Event>, u: seq<Event>, time: real, goal: Posture, ok: bool)
    requires (u == t && !ok) || exists q :: Cycled(t, u, Tracking, time, goal, q)
    ensures TrackingCycled(t, u, time, goal, ok)
  {
    if exists q :: Cycled(t, u, Tracking, time, goal, q) {
      var q :| Cycled(t, u, Tracking, time, goal, q);
      var r :| Reading(t, r, Some(Tracking), q) && u == r + [Command(Tracking, time, goal)];
      SentTracks(t, r, time, goal, q, ok);
    }
  }

  // A reading, and the hook if it is due.
  ghost predicate Reading(t: seq<Event>, u: seq<Event>, phase: Option<Phase>, q: Posture) {
    u == t + [Read(phase, q)] || u == t + [Read(phase, q)] + [Hook]
  }

  ghost predicate Cycled(t: seq<Event>, u: seq<Event>, phase: Phase, time: real, goal: Posture, q: Posture) {
    exists r :: Reading(t, r, Some(phase), q) && u == r + [Command(phase, time, goal)]
  }

  lemma ReadingKeeps(t: seq<Event>, u: seq<Event>, phase: Option<Phase>, q: Posture)
    requires Reading(t, u, phase, q)
    ensures LastRead(u) == Some(q) && (FirstRead(t).Some? ==> FirstRead(u) == FirstRead(t))
    ensures forall k :: LastGoal(u, k) == LastGoal(t, k)
    ensures forall p :: Measured(u, p) <==> p == q || Measured(t, p)
    ensures Commands(u) == Commands(t) && (forall k :: Sent(u, k) == Sent(t, k)) && Stored(u) == StoredAfter(Stored(t), phase, q)
  {
    Grown(t, Read(phase, q));
    Grown(t + [Read(phase, q)], Hook);
  }

  lemma LawfulAfterReading(c: Config, t: seq<Event>, u: seq<Event>, of: Option<Phase>, q: Posture, phase: Phase, time: real, goal: Posture)
    requires Reading(t, u, of, q) && LawfulGoal(c, t, phase, time, goal) && (phase == Tracking ==> c.posture.None?)
    ensures LawfulGoal(c, u, phase, time, goal)
  {
    ReadingKeeps(t, u, of, q);
  }
}
