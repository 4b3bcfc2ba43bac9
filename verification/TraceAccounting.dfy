/** tools/trace_correlate.py: `kworker_account`, where a work item's delay went, and
    `check_timer_wakes`, which wake ended which sleep. Stamps are whole nanoseconds. */
module KworkerAccount {
  import opened Basics
  import opened Bisect

  // A scheduler switch of the worker: on to a CPU, or off it in the given state.
  datatype Switch = Switch(ts: int, cpu: int, entering: bool, info: string)

  datatype Waking = Waking(ts: int, waker: string, target: int)

  datatype State = Run | Runnable | Asleep

  predicate Preempted(info: string) {
    |info| > 0 && info[0] == 'R'
  }

  // The state a switch leaves the worker in: running, or off its CPU runnable or not.
  ghost function StateAfter(s: Switch): State {
    match (s.entering, "R" <= s.info)
    case (true, _) => Run
    case (false, true) => Runnable
    case (false, false) => Asleep
  }

  // What the account records; the first three parts only when the worker was woken for the work.
  datatype Account = Account(woken: Option<int>, toWaking: int, toFirstRun: int, migrated: Option<bool>,
                             ran: int, preempted: int, slept: int)

  ghost predicate WakingsOrdered(kw: seq<Waking>) {
    forall i, j | 0 <= i < j < |kw| :: kw[i].ts <= kw[j].ts
  }

  // bisect_right in the wakings' times.
  function WakingsTo(kw: seq<Waking>, t: int): (k: nat)
    requires WakingsOrdered(kw)
    ensures k <= |kw| && (forall i | 0 <= i < k :: kw[i].ts <= t) && forall i | k <= i < |kw| :: t < kw[i].ts
  {
    var times := Stamps(kw, (w: Waking) => w.ts);
    var k := RightOf(times, t);
    assert forall i | 0 <= i < |kw| :: times[i] == kw[i].ts;
    k
  }

  // The state at time t: that of the last of the events not after t, or the first one's before them.
  ghost function StateAt(events: seq<Switch>, before: State, t: int): State {
    if events == [] then before
    else
      var last := events[|events| - 1];
      if last.ts <= t then StateAfter(last) else StateAt(events[..|events| - 1], before, t)
  }

  // How many of the nanoseconds from a up to b were spent in state s.
  ghost function Spent(events: seq<Switch>, before: State, s: State, a: int, b: int): nat
    decreases b - a
  {
    if a >= b then 0 else Spent(events, before, s, a, b - 1) + if StateAt(events, before, b - 1) == s then 1 else 0
  }

  ghost predicate Ordered(events: seq<Switch>) {
    forall i, j | 0 <= i < j < |events| :: events[i].ts <= events[j].ts
  }

  lemma {:induction false} SpentAll(events: seq<Switch>, before: State, a: int, b: int)
    requires a <= b
    ensures Spent(events, before, Run, a, b) + Spent(events, before, Runnable, a, b) + Spent(events, before, Asleep, a, b) == b - a
    decreases b - a
  {
    if a < b { SpentAll(events, before, a, b - 1); }
  }

  lemma {:induction false} SpentJoins(events: seq<Switch>, before: State, s: State, a: int, b: int, c: int)
    requires a <= b <= c
    ensures Spent(events, before, s, a, c) == Spent(events, before, s, a, b) + Spent(events, before, s, b, c)
    decreases c - b
  {
    if b < c { SpentJoins(events, before, s, a, b, c - 1); }
  }

  // Between the i-th event and the next the state does not change.
  lemma {:induction false} StateBetween(events: seq<Switch>, before: State, i: nat, t: int)
    requires Ordered(events) && i <= |events| && (i > 0 ==> events[i - 1].ts <= t) && (i < |events| ==> t < events[i].ts)
    ensures StateAt(events, before, t) == if i == 0 then before else StateAfter(events[i - 1])
    decreases |events|
  {
    if i < |events| {
      assert t < events[|events| - 1].ts;
      StateBetween(events[..|events| - 1], before, i, t);
    }
  }

  lemma {:induction false} SpentBetween(events: seq<Switch>, before: State, i: nat, a: int, b: int, s: State)
    requires Ordered(events) && i <= |events| && a <= b && (i > 0 ==> events[i - 1].ts <= a) && (i < |events| ==> b <= events[i].ts)
    ensures Spent(events, before, s, a, b)
         == if s == (if i == 0 then before else StateAfter(events[i - 1])) then b - a else 0
    decreases b - a
  {
    if a < b {
      SpentBetween(events, before, i, a, b - 1, s);
      StateBetween(events, before, i, b - 1);
    }
  }

  // The source's table of time by state.
  datatype Tally = Tally(run: int, runnable: int, asleep: int) {
    function Plus(s: State, dt: int): Tally {
      match s
      case Run => this.(run := run + dt)
      case Runnable => this.(runnable := runnable + dt)
      case Asleep => this.(asleep := asleep + dt)
    }
  }

  ghost function TallyOf(events: seq<Switch>, before: State, from: int, to: int): Tally {
    Tally(Spent(events, before, Run, from, to), Spent(events, before, Runnable, from, to), Spent(events, before, Asleep, from, to))
  }

  lemma Credit(events: seq<Switch>, before: State, i: nat, from: int, t0: int, t1: int)
    requires Ordered(events) && i <= |events| && from <= t0 <= t1
    requires (i > 0 ==> events[i - 1].ts <= t0) && (i < |events| ==> t1 <= events[i].ts)
    ensures var state := if i == 0 then before else StateAfter(events[i - 1]);
            TallyOf(events, before, from, t1) == TallyOf(events, before, from, t0).Plus(state, t1 - t0)
  {
    SpentJoins(events, before, Run, from, t0, t1);
    SpentBetween(events, before, i, t0, t1, Run);
    SpentJoins(events, before, Runnable, from, t0, t1);
    SpentBetween(events, before, i, t0, t1, Runnable);
    SpentJoins(events, before, Asleep, from, t0, t1);
    SpentBetween(events, before, i, t0, t1, Asleep);
  }

  // The time in each state from `from` to `start`.
  method Sweep(events: seq<Switch>, before: State, from: int, start: int) returns (spent: Tally)
    requires Ordered(events) && from <= start && forall k | 0 <= k < |events| :: from <= events[k].ts
    ensures spent == TallyOf(events, before, from, start)
  {
    spent := Tally(0, 0, 0);
    var state, t0, i := before, from, 0;
    assert spent == TallyOf(events, before, from, from);
    hide TallyOf;
    while i < |events| && events[i].ts <= start
      invariant 0 <= i <= |events| && from <= t0 <= start
      invariant state == (if i == 0 then before else StateAfter(events[i - 1])) && t0 == (if i == 0 then from else events[i - 1].ts)
      invariant spent == TallyOf(events, before, from, t0)
    {
      Credit(events, before, i, from, t0, events[i].ts);
      spent := spent.Plus(state, events[i].ts - t0);
      state := if events[i].entering then Run else if Preempted(events[i].info) then Runnable else Asleep;
      t0 := events[i].ts;
      i := i + 1;
    }
    Credit(events, before, i, from, t0, start);
    spent := spent.Plus(state, if start - t0 > 0 then start - t0 else 0);
  }

  // The state a worker awake at `since` was in: off its CPU, it was runnable if it was preempted
  // or woken since it left.
  function StateOn(sched: seq<Switch>, kw: seq<Waking>, since: int, k: nat): State
    requires WakingsOrdered(kw) && k <= |sched|
  {
    if k == 0 || sched[k - 1].entering then Run
    else
      var w := WakingsTo(kw, since);
      if Preempted(sched[k - 1].info) || (w > 0 && kw[w - 1].ts >= sched[k - 1].ts) then Runnable else Asleep
  }

  // The last waking by a time, the last recorded of those at one time.
  ghost predicate LastBy(kw: seq<Waking>, t: int, j: nat) {
    && j < |kw| && kw[j].ts <= t
    && forall i | j < i < |kw| :: t < kw[i].ts
  }

  // The first switch at or after a time, or none: k is how many come before it.
  ghost predicate FirstSwitch(sched: seq<Switch>, t: int, k: nat) {
    && k <= |sched|
    && (forall i | 0 <= i < k :: sched[i].ts < t) && forall i | k <= i < |sched| :: t <= sched[i].ts
  }

  // Woken again between leaving its CPU and a time.
  ghost predicate WokenAgain(kw: seq<Waking>, left: int, since: int) {
    exists w | w in kw :: left <= w.ts <= since
  }

  function Sum(x: Account): int {
    x.toWaking + x.toFirstRun + x.ran + x.preempted + x.slept
  }

  // Where the account starts: the part before the first run, and the state and switches from there.
  datatype Basis = Basis(woken: Option<int>, toWaking: int, toFirstRun: int, migrated: Option<bool>, before: State, on: nat) {
    function From(since: int): int {
      since + toWaking + toFirstRun
    }
  }

  // Of the switches after a waking, the first, the k-th, counts if it puts the worker on a CPU by the start.
  ghost predicate FirstRun(sched: seq<Switch>, w: Waking, start: int, k: nat, b: Basis) {
    && FirstSwitch(sched, w.ts, k)
    && if k < |sched| && sched[k].entering && sched[k].ts <= start
       then b.on == k + 1 && w.ts + b.toFirstRun == sched[k].ts && b.migrated == Some(sched[k].cpu != w.target)
       else b.on == k && b.toFirstRun == 0 && b.migrated == None
  }

  // Woken between the queueing and the start: the account runs from the first run, or else the waking.
  ghost predicate WokenBasis(sched: seq<Switch>, w: Waking, since: int, start: int, b: Basis) {
    && since <= w.ts && b.woken == Some(w.ts) && since + b.toWaking == w.ts && b.before == Run
    && exists k: nat :: FirstRun(sched, w, start, k, b)
  }

  // Never woken between them: the account runs from the queueing, in the state the worker was in.
  ghost predicate AwakeBasis(sched: seq<Switch>, kw: seq<Waking>, since: int, start: int, b: Basis) {
    && (forall w | w in kw :: w.ts < since || start < w.ts)
    && b.woken == None && b.toWaking == 0 && b.toFirstRun == 0 && b.migrated == None
    && b.on <= |sched| && (forall i | 0 <= i < b.on :: sched[i].ts <= since) && (forall i | b.on <= i < |sched| :: since < sched[i].ts)
    && (b.on == 0 || sched[b.on - 1].entering ==> b.before == Run)
    && (b.on > 0 && !sched[b.on - 1].entering ==>
          b.before == if "R" <= sched[b.on - 1].info || WokenAgain(kw, sched[b.on - 1].ts, since) then Runnable else Asleep)
  }

  ghost predicate BasisOf(sched: seq<Switch>, kw: seq<Waking>, since: int, start: int, b: Basis) {
    || AwakeBasis(sched, kw, since, start, b)
    || exists j: nat :: LastBy(kw, start, j) && WokenBasis(sched, kw[j], since, start, b)
  }

  lemma BasisInOrder(sched: seq<Switch>, kw: seq<Waking>, since: int, start: int, b: Basis)
    requires Ordered(sched) && since <= start && BasisOf(sched, kw, since, start, b)
    ensures since <= b.From(since) <= start && b.toWaking >= 0 && b.toFirstRun >= 0 && b.on <= |sched|
    ensures forall i | b.on <= i < |sched| :: b.From(since) <= sched[i].ts
  {
    if !AwakeBasis(sched, kw, since, start, b) {
      var j: nat :| LastBy(kw, start, j) && WokenBasis(sched, kw[j], since, start, b);
      var k: nat :| FirstRun(sched, kw[j], start, k, b);
      assert forall i | k < i < |sched| :: sched[k].ts <= sched[i].ts;
    }
  }

  method Begin(sched: seq<Switch>, kw: seq<Waking>, since: int, start: int) returns (b: Basis)
    requires Ordered(sched) && WakingsOrdered(kw) && since <= start
    ensures BasisOf(sched, kw, since, start, b)
  {
    hide StateOn;
    var kj := WakingsTo(kw, start);
    if kj > 0 && kw[kj - 1].ts >= since {
      var woken := kw[kj - 1].ts;
      var on := FirstFrom(sched, woken);
      if on < |sched| && sched[on].entering && sched[on].ts <= start {
        var migrated := sched[on].cpu != kw[kj - 1].target;
        b := Basis(Some(woken), woken - since, sched[on].ts - woken, Some(migrated), Run, on + 1);
      } else {
        b := Basis(Some(woken), woken - since, 0, None, Run, on);
      }
      assert LastBy(kw, start, kj - 1) && FirstRun(sched, kw[kj - 1], start, on, b);
    } else {
      var on := FirstAfter(sched, since);
      b := Basis(None, 0, 0, None, StateOn(sched, kw, since, on), on);
      NoneBetween(kw, since, start, kj);
      StateOnMeans(sched, kw, since, on);
    }
  }

  lemma NoneBetween(kw: seq<Waking>, since: int, start: int, kj: nat)
    requires WakingsOrdered(kw) && kj == WakingsTo(kw, start) && (kj > 0 ==> kw[kj - 1].ts < since)
    ensures forall w | w in kw :: w.ts < since || start < w.ts
  {
    forall w | w in kw ensures w.ts < since || start < w.ts {
      var i :| 0 <= i < |kw| && kw[i] == w;
      assert i < kj ==> kw[i].ts <= kw[kj - 1].ts;
    }
  }

  lemma StateOnMeans(sched: seq<Switch>, kw: seq<Waking>, since: int, k: nat)
    requires WakingsOrdered(kw) && k <= |sched|
    ensures k == 0 || sched[k - 1].entering ==> StateOn(sched, kw, since, k) == Run
    ensures k > 0 && !sched[k - 1].entering ==>
              StateOn(sched, kw, since, k) == if "R" <= sched[k - 1].info || WokenAgain(kw, sched[k - 1].ts, since) then Runnable else Asleep
  {
    if k > 0 && !sched[k - 1].entering {
      var w, left := WakingsTo(kw, since), sched[k - 1].ts;
      if w > 0 && kw[w - 1].ts >= left { assert kw[w - 1] in kw; }
      if WokenAgain(kw, left, since) {
        var again :| again in kw && left <= again.ts <= since;
        var i :| 0 <= i < |kw| && kw[i] == again;
        assert i < w && kw[i].ts <= kw[w - 1].ts;
      }
    }
  }

  /** The parts are nonnegative and add up to the delay; and running, preempted and asleep are
      exactly the nanoseconds in those states, counted one by one. */
  method Kworker(sched: seq<Switch>, kw: seq<Waking>, since: int, start: int) returns (x: Account, ghost b: Basis)
    requires Ordered(sched) && WakingsOrdered(kw) && since <= start
    ensures Sum(x) == start - since && x.toWaking >= 0 && x.toFirstRun >= 0 && x.ran >= 0 && x.preempted >= 0 && x.slept >= 0
    ensures BasisOf(sched, kw, since, start, b)
    ensures x.woken == b.woken && x.toWaking == b.toWaking && x.toFirstRun == b.toFirstRun && x.migrated == b.migrated
    ensures Tally(x.ran, x.preempted, x.slept) == TallyOf(sched[b.on..], b.before, b.From(since), start)
  {
    hide StateOn, BasisOf, TallyOf;
    var basis := Begin(sched, kw, since, start);
    b := basis;
    BasisInOrder(sched, kw, since, start, b);
    var spent := Sweep(sched[basis.on..], basis.before, basis.From(since), start);
    SpentInAll(sched[b.on..], b.before, b.From(since), start);
    x := Account(basis.woken, basis.toWaking, basis.toFirstRun, basis.migrated, spent.run, spent.runnable, spent.asleep);
  }

  lemma SpentInAll(events: seq<Switch>, before: State, from: int, start: int)
    requires from <= start
    ensures var t := TallyOf(events, before, from, start);
            t.run >= 0 && t.runnable >= 0 && t.asleep >= 0 && t.run + t.runnable + t.asleep == start - from
  {
    SpentAll(events, before, from, start);
  }

  // bisect_left and bisect_right in the switches' times.
  function FirstFrom(sched: seq<Switch>, t: int): (k: nat)
    requires Ordered(sched)
    ensures k <= |sched| && (forall i | 0 <= i < k :: sched[i].ts < t) && forall i | k <= i < |sched| :: t <= sched[i].ts
  {
    var times := Stamps(sched, (e: Switch) => e.ts);
    var k := LeftOf(times, t);
    assert forall i | 0 <= i < |sched| :: times[i] == sched[i].ts;
    k
  }

  function FirstAfter(sched: seq<Switch>, t: int): (k: nat)
    requires Ordered(sched)
    ensures k <= |sched| && (forall i | 0 <= i < k :: sched[i].ts <= t) && forall i | k <= i < |sched| :: t < sched[i].ts
  {
    var times := Stamps(sched, (e: Switch) => e.ts);
    var k := RightOf(times, t);
    assert forall i | 0 <= i < |sched| :: times[i] == sched[i].ts;
    k
  }
}

module TimerWakes {
  import opened Basics
  import opened Bisect

  // One cycle of the probe: its scheduled wake, its wake stamp and its end.
  datatype Row = Row(scheduled: int, wake: int, end: int)

  // The late wake that ended the run without a row.
  datatype LateWake = LateWake(scheduled: int, wake: int)

  datatype Sleep = Sleep(row: Option<nat>, from: int, scheduled: int, until: int)

  datatype Wake = Wake(entry: int, now: int, waking: int, running: bool)

  datatype Report = Report(pairs: seq<(Wake, Sleep)>, wakes: seq<Wake>, duplicate: nat, missing: nat, beganAwake: nat, extra: int)

  ghost predicate OrderedRows(rows: seq<Row>, late: Option<LateWake>) {
    && rows != []
    && (forall i | 0 <= i < |rows| :: rows[i].wake <= rows[i].end)
    && (forall i | 0 <= i < |rows| - 1 :: rows[i].end <= rows[i + 1].wake)
    && (late.Some? ==> rows[|rows| - 1].end <= late.value.wake)
  }

  // The sleeps as the probe stamps them: each from a cycle's end to the next wake stamp.
  function Sleeps(rows: seq<Row>, late: Option<LateWake>): (sleeps: seq<Sleep>)
    requires rows != []
  {
    seq(|rows| - 1, i requires 0 <= i < |rows| - 1 => Sleep(Some(i + 1), rows[i].end, rows[i + 1].scheduled, rows[i + 1].wake))
    + if late.Some? then [Sleep(None, rows[|rows| - 1].end, late.value.scheduled, late.value.wake)] else []
  }

  ghost predicate Disjoint(sleeps: seq<Sleep>) {
    && (forall k | 0 <= k < |sleeps| :: sleeps[k].from <= sleeps[k].until)
    && (forall j, k | 0 <= j < k < |sleeps| :: sleeps[j].until <= sleeps[k].from)
  }

  lemma {:induction false} SleepsDisjoint(rows: seq<Row>, late: Option<LateWake>)
    requires OrderedRows(rows, late)
    ensures Disjoint(Sleeps(rows, late))
  {
    hide Sleeps;
    var sleeps := Sleeps(rows, late);
    forall k | 0 <= k < |sleeps| ensures sleeps[k].from <= sleeps[k].until {
      SleepAt(rows, late, k);
      if k < |rows| - 1 { assert rows[k].end <= rows[k + 1].wake; }
    }
    forall j, k | 0 <= j < k < |sleeps| ensures sleeps[j].until <= sleeps[k].from {
      SleepAt(rows, late, j);
      SleepAt(rows, late, k);
      RowsInOrder(rows, j + 1, k);
    }
  }

  lemma SleepAt(rows: seq<Row>, late: Option<LateWake>, k: nat)
    requires rows != [] && k < |Sleeps(rows, late)|
    ensures k < |rows| && Sleeps(rows, late)[k].from == rows[k].end
    ensures if k < |rows| - 1 then Sleeps(rows, late)[k].until == rows[k + 1].wake
            else late.Some? && Sleeps(rows, late)[k].until == late.value.wake
  {
  }

  lemma {:induction false} RowsInOrder(rows: seq<Row>, j: nat, k: nat)
    requires j <= k < |rows| && OrderedRows(rows, None)
    ensures rows[j].wake <= rows[k].end
  {
    if j < k {
      RowsInOrder(rows, j, k - 1);
      assert rows[k - 1].end <= rows[k - 1 + 1].wake;
    }
  }

  predicate In(w: Wake, s: Sleep) {
    s.from < w.waking <= s.until
  }

  ghost predicate WakesOrdered(wakes: seq<Wake>) {
    forall i, j | 0 <= i < j < |wakes| :: wakes[i].waking <= wakes[j].waking
  }

  // bisect_right in the wakes' times.
  function To(wakes: seq<Wake>, t: int): (k: nat)
    requires WakesOrdered(wakes)
    ensures k <= |wakes| && (forall i | 0 <= i < k :: wakes[i].waking <= t) && forall i | k <= i < |wakes| :: t < wakes[i].waking
  {
    var times := Stamps(wakes, (w: Wake) => w.waking);
    var k := RightOf(times, t);
    assert forall i | 0 <= i < |wakes| :: times[i] == wakes[i].waking;
    k
  }

  lemma {:induction false} ToMonotone(wakes: seq<Wake>, a: int, b: int)
    requires WakesOrdered(wakes) && a <= b
    ensures To(wakes, a) <= To(wakes, b)
  {
    var i := To(wakes, a);
    assert i == 0 || wakes[i - 1].waking <= a;
  }

  // The wakes within a sleep, in order.
  ghost function Within(wakes: seq<Wake>, s: Sleep): seq<Wake>
    requires WakesOrdered(wakes) && s.from <= s.until
  {
    ToMonotone(wakes, s.from, s.until);
    wakes[To(wakes, s.from)..To(wakes, s.until)]
  }

  // The worker never left its CPU in the sleep, and its scheduled wake had passed.
  predicate BeganAwake(outs: seq<int>, s: Sleep)
    requires Ascending(outs)
  {
    RightOf(outs, s.until) - RightOf(outs, s.from) == 0 && s.until >= s.scheduled
  }

  // No departure from its CPU falls within the sleep, which its scheduled wake does not outlast.
  ghost predicate StayedAwake(outs: seq<int>, s: Sleep) {
    s.scheduled <= s.until && forall o | o in outs :: o <= s.from || s.until < o
  }

  lemma {:induction false} BeganIsStayed(outs: seq<int>, s: Sleep)
    requires Ascending(outs) && s.from <= s.until
    ensures BeganAwake(outs, s) <==> StayedAwake(outs, s)
  {
    var a, b := RightOf(outs, s.from), RightOf(outs, s.until);
    assert b < |outs| ==> s.until < outs[b];
    assert a < b ==> outs[a] in outs && s.from < outs[a] <= s.until;
    forall o | o in outs && a == b ensures o <= s.from || s.until < o {
      var i :| 0 <= i < |outs| && outs[i] == o;
      assert i < a || b <= i;
    }
  }

  // How the source sees each sleep.
  datatype Fate = Paired | Duplicate | Began | Missing

  ghost function FateOf(wakes: seq<Wake>, outs: seq<int>, s: Sleep): Fate
    requires WakesOrdered(wakes) && Ascending(outs) && s.from <= s.until
  {
    var n := |Within(wakes, s)|;
    if n == 1 then Paired else if n > 1 then Duplicate else if StayedAwake(outs, s) then Began else Missing
  }

  ghost function With(wakes: seq<Wake>, outs: seq<int>, sleeps: seq<Sleep>, fate: Fate): seq<Sleep>
    requires WakesOrdered(wakes) && Ascending(outs) && forall s | s in sleeps :: s.from <= s.until
  {
    if sleeps == [] then []
    else
      var init, s := sleeps[..|sleeps| - 1], sleeps[|sleeps| - 1];
      With(wakes, outs, init, fate) + if FateOf(wakes, outs, s) == fate then [s] else []
  }

  // Every sleep has one fate.
  lemma {:induction false} FatesAddUp(wakes: seq<Wake>, outs: seq<int>, sleeps: seq<Sleep>)
    requires WakesOrdered(wakes) && Ascending(outs) && forall s | s in sleeps :: s.from <= s.until
    ensures |sleeps| == |With(wakes, outs, sleeps, Paired)| + |With(wakes, outs, sleeps, Duplicate)|
                        + |With(wakes, outs, sleeps, Began)| + |With(wakes, outs, sleeps, Missing)|
  {
    if sleeps != [] { FatesAddUp(wakes, outs, sleeps[..|sleeps| - 1]); }
  }

  function Firsts(pairs: seq<(Wake, Sleep)>): (w: seq<Wake>)
    ensures |w| == |pairs|
  {
    seq(|pairs|, k requires 0 <= k < |pairs| => pairs[k].0)
  }

  function Seconds(pairs: seq<(Wake, Sleep)>): (s: seq<Sleep>)
    ensures |s| == |pairs|
  {
    seq(|pairs|, k requires 0 <= k < |pairs| => pairs[k].1)
  }

  ghost predicate Covered(w: Wake, sleeps: seq<Sleep>) {
    exists k :: 0 <= k < |sleeps| && In(w, sleeps[k])
  }

  // How many of the wakes are in no sleep.
  ghost function Outside(wakes: seq<Wake>, sleeps: seq<Sleep>): nat {
    if wakes == [] then 0
    else Outside(wakes[..|wakes| - 1], sleeps) + if Covered(wakes[|wakes| - 1], sleeps) then 0 else 1
  }

  ghost function Reach(wakes: seq<Wake>, sleeps: seq<Sleep>, k: nat): nat
    requires WakesOrdered(wakes) && k <= |sleeps|
  {
    if k == 0 then 0 else To(wakes, sleeps[k - 1].until)
  }

  // Of the wakes up to the end of a sleep, the newly outside are those before its start.
  lemma {:induction false} OutsideRun(wakes: seq<Wake>, sleeps: seq<Sleep>, a: nat, b: nat, covered: bool)
    requires a <= b <= |wakes| && forall i | a <= i < b :: Covered(wakes[i], sleeps) == covered
    ensures Outside(wakes[..b], sleeps) == Outside(wakes[..a], sleeps) + if covered then 0 else b - a
    decreases b - a
  {
    if a < b {
      OutsideRun(wakes, sleeps, a, b - 1, covered);
      assert wakes[..b][..b - 1] == wakes[..b - 1];
    }
  }

  lemma {:induction false} SleepCovers(wakes: seq<Wake>, sleeps: seq<Sleep>, k: nat)
    requires WakesOrdered(wakes) && Disjoint(sleeps) && k < |sleeps|
    ensures Reach(wakes, sleeps, k) <= To(wakes, sleeps[k].from) <= To(wakes, sleeps[k].until)
    ensures Outside(wakes[..Reach(wakes, sleeps, k + 1)], sleeps)
         == Outside(wakes[..Reach(wakes, sleeps, k)], sleeps) + To(wakes, sleeps[k].from) - Reach(wakes, sleeps, k)
  {
    var a, b, c := Reach(wakes, sleeps, k), To(wakes, sleeps[k].from), To(wakes, sleeps[k].until);
    ToMonotone(wakes, sleeps[k].from, sleeps[k].until);
    if k > 0 { ToMonotone(wakes, sleeps[k - 1].until, sleeps[k].from); }
    forall i | a <= i < b ensures !Covered(wakes[i], sleeps) { NotCovered(sleeps, wakes[i], k); }
    forall i | b <= i < c ensures Covered(wakes[i], sleeps) { assert In(wakes[i], sleeps[k]); }
    OutsideRun(wakes, sleeps, a, b, false);
    OutsideRun(wakes, sleeps, b, c, true);
  }

  // After the sleep before k and not after k's start: in no sleep.
  lemma {:induction false} NotCovered(sleeps: seq<Sleep>, w: Wake, k: nat)
    requires Disjoint(sleeps) && k <= |sleeps|
    requires (k > 0 ==> sleeps[k - 1].until < w.waking) && (k < |sleeps| ==> w.waking <= sleeps[k].from)
    ensures !Covered(w, sleeps)
  {
    forall j | 0 <= j < |sleeps| ensures !In(w, sleeps[j]) {
      if j < k - 1 { assert sleeps[j].until <= sleeps[k - 1].from <= sleeps[k - 1].until; }
      if j > k { assert sleeps[k].from <= sleeps[k].until <= sleeps[j].from; }
    }
  }

  lemma {:induction false} AllOutside(wakes: seq<Wake>, sleeps: seq<Sleep>)
    requires WakesOrdered(wakes) && Disjoint(sleeps)
    ensures Outside(wakes, sleeps)
         == Outside(wakes[..Reach(wakes, sleeps, |sleeps|)], sleeps) + |wakes| - Reach(wakes, sleeps, |sleeps|)
  {
    var a := Reach(wakes, sleeps, |sleeps|);
    forall i | a <= i < |wakes| ensures !Covered(wakes[i], sleeps) { NotCovered(sleeps, wakes[i], |sleeps|); }
    OutsideRun(wakes, sleeps, a, |wakes|, false);
    assert wakes[..|wakes|] == wakes;
  }

  // Each pair's wake is the only one in its sleep.
  ghost predicate OnlyWake(wakes: seq<Wake>, p: (Wake, Sleep))
    requires WakesOrdered(wakes)
  {
    p.1.from <= p.1.until && Within(wakes, p.1) == [p.0]
  }

  // The sleeps seen, sorted by fate.
  ghost predicate Tallied(wakes: seq<Wake>, outs: seq<int>, seen: seq<Sleep>, r: Report)
    requires WakesOrdered(wakes) && Ascending(outs) && forall s | s in seen :: s.from <= s.until
  {
    && Seconds(r.pairs) == With(wakes, outs, seen, Paired)
    && r.duplicate == |With(wakes, outs, seen, Duplicate)|
    && r.beganAwake == |With(wakes, outs, seen, Began)|
    && r.missing == |With(wakes, outs, seen, Missing)|
    && forall i | 0 <= i < |r.pairs| :: OnlyWake(wakes, r.pairs[i])
  }

  // The wakes used, and those passed over in no sleep; with none passed over and none doubled,
  // the pairs hold every wake so far, in order.
  ghost predicate Used(wakes: seq<Wake>, sleeps: seq<Sleep>, k: nat, r: Report, used: nat)
    requires WakesOrdered(wakes) && Disjoint(sleeps) && k <= |sleeps|
  {
    && used + Outside(wakes[..Reach(wakes, sleeps, k)], sleeps) == Reach(wakes, sleeps, k)
    && (r.duplicate == 0 && used == Reach(wakes, sleeps, k) ==> Firsts(r.pairs) == wakes[..used])
  }

  // The report after one more sleep.
  function Counted(r: Report, wakes: seq<Wake>, outs: seq<int>, s: Sleep): Report
    requires WakesOrdered(wakes) && Ascending(outs) && s.from <= s.until
  {
    ToMonotone(wakes, s.from, s.until);
    var k0, n := To(wakes, s.from), To(wakes, s.until) - To(wakes, s.from);
    if n == 1 then r.(pairs := r.pairs + [(wakes[k0], s)])
    else if n > 1 then r.(duplicate := r.duplicate + 1)
    else if BeganAwake(outs, s) then r.(beganAwake := r.beganAwake + 1)
    else r.(missing := r.missing + 1)
  }

  // What one more sleep adds, by its fate.
  ghost predicate AddedBy(r: Report, r': Report, wakes: seq<Wake>, s: Sleep, fate: Fate)
    requires WakesOrdered(wakes)
  {
    match fate
    case Paired => |r'.pairs| == |r.pairs| + 1 && r' == r.(pairs := r.pairs + [r'.pairs[|r.pairs|]])
                   && r'.pairs[|r.pairs|].1 == s && OnlyWake(wakes, r'.pairs[|r.pairs|])
    case Duplicate => r' == r.(duplicate := r.duplicate + 1)
    case Began => r' == r.(beganAwake := r.beganAwake + 1)
    case Missing => r' == r.(missing := r.missing + 1)
  }

  lemma CountedByFate(r: Report, wakes: seq<Wake>, outs: seq<int>, s: Sleep)
    requires WakesOrdered(wakes) && Ascending(outs) && s.from <= s.until
    ensures AddedBy(r, Counted(r, wakes, outs, s), wakes, s, FateOf(wakes, outs, s))
  {
    hide BeganAwake, StayedAwake;
    BeganIsStayed(outs, s);
    ToMonotone(wakes, s.from, s.until);
  }

  lemma {:induction false} TalliedMore(wakes: seq<Wake>, outs: seq<int>, seen: seq<Sleep>, s: Sleep, r: Report)
    requires WakesOrdered(wakes) && Ascending(outs) && (forall s | s in seen :: s.from <= s.until) && s.from <= s.until
    requires Tallied(wakes, outs, seen, r)
    ensures Tallied(wakes, outs, seen + [s], Counted(r, wakes, outs, s))
  {
    hide Counted, FateOf, OnlyWake;
    CountedByFate(r, wakes, outs, s);
    assert (seen + [s])[..|seen|] == seen;
    var r' := Counted(r, wakes, outs, s);
    if FateOf(wakes, outs, s) == Paired { assert Seconds(r'.pairs) == Seconds(r.pairs) + [s]; }
  }

  lemma {:induction false} UsedMore(wakes: seq<Wake>, outs: seq<int>, sleeps: seq<Sleep>, k: nat, r: Report, used: nat)
    requires WakesOrdered(wakes) && Ascending(outs) && Disjoint(sleeps) && k < |sleeps| && Used(wakes, sleeps, k, r, used)
    ensures To(wakes, sleeps[k].from) <= To(wakes, sleeps[k].until)
    ensures Used(wakes, sleeps, k + 1, Counted(r, wakes, outs, sleeps[k]),
                 used + To(wakes, sleeps[k].until) - To(wakes, sleeps[k].from))
  {
    hide Outside, BeganAwake;
    var s := sleeps[k];
    SleepCovers(wakes, sleeps, k);
    var n := To(wakes, s.until) - To(wakes, s.from);
    if n == 1 {
      assert Firsts(Counted(r, wakes, outs, s).pairs) == Firsts(r.pairs) + [wakes[To(wakes, s.from)]];
    }
  }

  function InRun(wakes: seq<Wake>, lo: int, hi: int): seq<Wake> {
    if wakes == [] then []
    else
      var w := wakes[|wakes| - 1];
      InRun(wakes[..|wakes| - 1], lo, hi) + if lo < w.waking <= hi then [w] else []
  }

  lemma {:induction false} InRunMembers(wakes: seq<Wake>, lo: int, hi: int)
    ensures forall w :: w in InRun(wakes, lo, hi) <==> w in wakes && lo < w.waking <= hi
  {
    if wakes != [] {
      var init, last := wakes[..|wakes| - 1], wakes[|wakes| - 1];
      InRunMembers(init, lo, hi);
      assert forall w :: w in wakes <==> w in init || w == last;
    }
  }

  lemma {:induction false} InRunOrdered(wakes: seq<Wake>, lo: int, hi: int)
    requires WakesOrdered(wakes)
    ensures WakesOrdered(InRun(wakes, lo, hi))
  {
    if wakes != [] {
      var init, last := wakes[..|wakes| - 1], wakes[|wakes| - 1];
      InRunOrdered(init, lo, hi);
      InRunMembers(init, lo, hi);
      var kept := InRun(init, lo, hi);
      forall i | 0 <= i < |kept| ensures kept[i].waking <= last.waking { assert kept[i] in kept && kept[i] in init; }
    }
  }

  // A sleep without exactly one wake fails the run, unless the worker began awake.
  predicate Passed(r: Report) {
    r.duplicate == 0 && r.missing == 0 && r.extra == 0
  }

  /** Every sleep is paired, doubled, begun awake or missing; the wakes in no sleep are counted as
      extra; and a run that passes pairs its wakes, in order and each once, with exactly the
      sleeps that were not begun awake. */
  method CheckTimerWakes(rows: seq<Row>, late: Option<LateWake>, trace: seq<Wake>, outs: seq<int>) returns (r: Report)
    requires OrderedRows(rows, late) && WakesOrdered(trace) && Ascending(outs)
    ensures var sleeps := Sleeps(rows, late);
            && Disjoint(sleeps) && WakesOrdered(r.wakes) && Tallied(r.wakes, outs, sleeps, r)
            && |sleeps| == |r.pairs| + r.duplicate + r.beganAwake + r.missing
            && r.extra == Outside(r.wakes, sleeps)
            && (Passed(r) ==> Firsts(r.pairs) == r.wakes)
    ensures forall w :: w in r.wakes <==>
              w in trace && rows[0].wake < w.waking <= if late.Some? then late.value.wake else rows[|rows| - 1].end
  {
    hide Tallied, Used, Counted, Outside, Sleeps, InRun;
    SleepsDisjoint(rows, late);
    var hi := if late.Some? then late.value.wake else rows[|rows| - 1].end;
    var wakes := InRun(trace, rows[0].wake, hi);
    InRunOrdered(trace, rows[0].wake, hi);
    InRunMembers(trace, rows[0].wake, hi);
    var sleeps := Sleeps(rows, late);
    r := Report([], wakes, 0, 0, 0, 0);
    var used: nat, k: nat := 0, 0;
    NothingFound(wakes, outs, sleeps);
    while k < |sleeps|
      invariant 0 <= k <= |sleeps| && r.wakes == wakes
      invariant Tallied(wakes, outs, sleeps[..k], r) && Used(wakes, sleeps, k, r, used)
    {
      TalliedMore(wakes, outs, sleeps[..k], sleeps[k], r);
      assert sleeps[..k] + [sleeps[k]] == sleeps[..k + 1];
      UsedMore(wakes, outs, sleeps, k, r, used);
      used := used + To(wakes, sleeps[k].until) - To(wakes, sleeps[k].from);
      WakesKept(r, wakes, outs, sleeps[k]);
      r := Counted(r, wakes, outs, sleeps[k]);
      k := k + 1;
    }
    assert sleeps[..k] == sleeps;
    Closing(wakes, outs, sleeps, r, used);
    r := r.(extra := |wakes| - used);
  }

  lemma WakesKept(r: Report, wakes: seq<Wake>, outs: seq<int>, s: Sleep)
    requires WakesOrdered(wakes) && Ascending(outs) && s.from <= s.until
    ensures Counted(r, wakes, outs, s).wakes == r.wakes
  {
  }

  lemma {:induction false} NothingFound(wakes: seq<Wake>, outs: seq<int>, sleeps: seq<Sleep>)
    requires WakesOrdered(wakes) && Ascending(outs) && Disjoint(sleeps)
    ensures Tallied(wakes, outs, sleeps[..0], Report([], wakes, 0, 0, 0, 0))
    ensures Used(wakes, sleeps, 0, Report([], wakes, 0, 0, 0, 0), 0)
  {
  }

  lemma {:induction false} Closing(wakes: seq<Wake>, outs: seq<int>, sleeps: seq<Sleep>, r: Report, used: nat)
    requires WakesOrdered(wakes) && Ascending(outs) && Disjoint(sleeps)
    requires Tallied(wakes, outs, sleeps, r) && Used(wakes, sleeps, |sleeps|, r, used)
    ensures |sleeps| == |r.pairs| + r.duplicate + r.beganAwake + r.missing
    ensures |wakes| - used == Outside(wakes, sleeps)
    ensures r.duplicate == 0 && used == |wakes| ==> Firsts(r.pairs) == wakes
    ensures forall x :: Tallied(wakes, outs, sleeps, r.(extra := x))
  {
    FatesAddUp(wakes, outs, sleeps);
    AllOutside(wakes, sleeps);
    assert |Seconds(r.pairs)| == |r.pairs|;
    assert wakes[..|wakes|] == wakes;
  }

  /** In a run that passes the sleeps paired are exactly those the worker slept through. */
  lemma {:induction false} PassedBijection(wakes: seq<Wake>, outs: seq<int>, sleeps: seq<Sleep>, r: Report, s: Sleep)
    requires WakesOrdered(wakes) && Ascending(outs) && Disjoint(sleeps) && Tallied(wakes, outs, sleeps, r) && Passed(r)
    requires s in sleeps
    ensures s in Seconds(r.pairs) <==> FateOf(wakes, outs, s) != Began
    ensures s in Seconds(r.pairs) || StayedAwake(outs, s)
  {
    WithMembers(wakes, outs, sleeps, s);
  }

  lemma {:induction false} WithMembers(wakes: seq<Wake>, outs: seq<int>, sleeps: seq<Sleep>, s: Sleep)
    requires WakesOrdered(wakes) && Ascending(outs) && forall s | s in sleeps :: s.from <= s.until
    requires s in sleeps
    ensures s in With(wakes, outs, sleeps, FateOf(wakes, outs, s))
    ensures forall f: Fate | s in With(wakes, outs, sleeps, f) :: f == FateOf(wakes, outs, s)
  {
    hide FateOf;
    var init := sleeps[..|sleeps| - 1];
    if s in init {
      WithMembers(wakes, outs, init, s);
    } else {
      forall f: Fate ensures s !in With(wakes, outs, init, f) { OnlyFrom(wakes, outs, init, f, s); }
    }
  }

  lemma {:induction false} OnlyFrom(wakes: seq<Wake>, outs: seq<int>, sleeps: seq<Sleep>, f: Fate, s: Sleep)
    requires WakesOrdered(wakes) && Ascending(outs) && (forall s | s in sleeps :: s.from <= s.until) && s !in sleeps
    ensures s !in With(wakes, outs, sleeps, f)
  {
    if sleeps != [] { OnlyFrom(wakes, outs, sleeps[..|sleeps| - 1], f, s); }
  }
}
