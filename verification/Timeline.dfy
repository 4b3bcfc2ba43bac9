/** tools/timer_service.py: the reconstruction of the real-time CPU's TSC deadline timer
    from its deadline writes and local timer interrupts, and its soundness against a
    nondeterministic model of that timer. Times are nanoseconds as reals. */
module Timeline {
  import opened Basics
  import Sorting
  import Bisect

  datatype Write = Write(ts: real, value: nat, failed: bool)

  datatype Kind = Unknown | Disarmed | Armed | Served

  // An earlier generation whose interrupt may be pending (no write: the state before the trace).
  datatype Candidate = Candidate(write: Option<Write>, d: Option<real>)

  datatype Device = Device(kind: Kind, write: Option<Write>, d: Option<real>, served: Option<real>,
                           pending: Option<Candidate>)

  const BEFORE_WRITES := Device(Unknown, None, None, None, None)

  datatype Mark = Interrupt(at: real) | Written(w: Write) {
    function Ts(): real {
      if Interrupt? then at else w.ts
    }
  }

  // A TSC count's CLOCK_MONOTONIC time, None outside the anchors.
  type Conversion = nat -> Option<real>

  predicate MarkLe(a: Mark, b: Mark) {
    a.Ts() < b.Ts() || (a.Ts() == b.Ts() && (a.Interrupt? || b.Written?))
  }

  function Marks(anchors: seq<real>, writes: seq<Write>): seq<Mark> {
    Sorting.Sort(seq(|anchors|, i requires 0 <= i < |anchors| => Interrupt(anchors[i]))
                 + seq(|writes|, i requires 0 <= i < |writes| => Written(writes[i])), MarkLe)
  }

  function PendingAfterWrite(st: Device, ts: real, u: Option<real>): Option<Candidate> {
    if st.kind == Armed && (st.d.None? || u.None? || st.d.value - u.value <= ts) then
      Some(Candidate(st.write, st.d))
    else if st.pending.None? && st.kind == Unknown && st.served.None? then
      Some(Candidate(st.write, None))
    else st.pending
  }

  // One mark's effect; None where the timeline records no new state.
  function Step(st: Device, m: Mark, conv: Conversion, u: Option<real>): Option<Device> {
    match m
    case Written(w) =>
      var pend := PendingAfterWrite(st, w.ts, u);
      if w.failed then Some(Device(Unknown, Some(w), None, None, pend))
      else if w.value == 0 then Some(Device(Disarmed, Some(w), None, None, pend))
      else Some(Device(Armed, Some(w), conv(w.value), None, pend))
    case Interrupt(ts) =>
      if st.kind == Armed && st.d.None? then Some(Device(Unknown, st.write, None, Some(ts), None))
      else if st.kind == Armed && u.Some? && ts >= st.d.value - u.value then
        Some(Device(Served, st.write, st.d, Some(ts), None))
      else if st.pending.Some? then Some(st.(pending := None))
      else None
  }

  function Next(st: Device, m: Mark, conv: Conversion, u: Option<real>): Device {
    var s := Step(st, m, conv, u);
    if s.Some? then s.value else st
  }

  // The device after every mark of ms.
  function Replay(ms: seq<Mark>, conv: Conversion, u: Option<real>): Device {
    if ms == [] then BEFORE_WRITES
    else Next(Replay(ms[..|ms| - 1], conv, u), ms[|ms| - 1], conv, u)
  }

  // The device just before t, by replaying every mark and skipping those at t or later.
  function NaiveAt(ms: seq<Mark>, t: real, conv: Conversion, u: Option<real>): Device {
    if ms == [] then BEFORE_WRITES
    else
      var st := NaiveAt(ms[..|ms| - 1], t, conv, u);
      if ms[|ms| - 1].Ts() < t then Next(st, ms[|ms| - 1], conv, u) else st
  }

  function Lookup(ts: seq<real>, states: seq<Device>, t: real): Device
    requires |ts| == |states| && Bisect.Sorted(ts)
  {
    var k := Bisect.Left(ts, t) - 1;
    if k >= 0 then states[k] else BEFORE_WRITES
  }

  ghost predicate InOrder(ms: seq<Mark>) {
    forall i, j | 0 <= i < j < |ms| :: MarkLe(ms[i], ms[j])
  }

  lemma InterruptMembers(anchors: seq<real>, t: real)
    ensures Interrupt(t) in seq(|anchors|, i requires 0 <= i < |anchors| => Interrupt(anchors[i])) <==> t in anchors
  {
    var a := seq(|anchors|, i requires 0 <= i < |anchors| => Interrupt(anchors[i]));
    if t in anchors {
      var i :| 0 <= i < |anchors| && anchors[i] == t;
      assert a[i] == Interrupt(t);
    }
  }

  lemma WrittenMembers(writes: seq<Write>, w: Write)
    ensures Written(w) in seq(|writes|, i requires 0 <= i < |writes| => Written(writes[i])) <==> w in writes
  {
    var b := seq(|writes|, i requires 0 <= i < |writes| => Written(writes[i]));
    if w in writes {
      var i :| 0 <= i < |writes| && writes[i] == w;
      assert b[i] == Written(w);
    }
  }

  lemma MarksInOrder(anchors: seq<real>, writes: seq<Write>)
    ensures InOrder(Marks(anchors, writes))
    ensures forall t :: Interrupt(t) in Marks(anchors, writes) <==> t in anchors
    ensures forall w: Write :: Written(w) in Marks(anchors, writes) <==> w in writes
  {
    var a := seq(|anchors|, i requires 0 <= i < |anchors| => Interrupt(anchors[i]));
    var b := seq(|writes|, i requires 0 <= i < |writes| => Written(writes[i]));
    Sorting.SortSorted(a + b, MarkLe);
    Sorting.SortMembers(a + b, MarkLe);
    forall t ensures Interrupt(t) in a + b <==> t in anchors { InterruptMembers(anchors, t); }
    forall w: Write ensures Written(w) in a + b <==> w in writes { WrittenMembers(writes, w); }
  }

  lemma {:induction false} NaiveAtPrefix(ms: seq<Mark>, t: real, p: nat, conv: Conversion, u: Option<real>)
    requires p <= |ms|
    requires forall i | 0 <= i < p :: ms[i].Ts() < t
    requires forall i | p <= i < |ms| :: t <= ms[i].Ts()
    ensures NaiveAt(ms, t, conv, u) == Replay(ms[..p], conv, u)
  {
    if ms != [] {
      var init := ms[..|ms| - 1];
      if p == |ms| {
        NaiveAtPrefix(init, t, p - 1, conv, u);
        assert init[..p - 1] == init && ms[..p] == ms;
      } else {
        NaiveAtPrefix(init, t, p, conv, u);
        assert init[..p] == ms[..p];
      }
    }
  }

  lemma AppendLookup(ts: seq<real>, states: seq<Device>, at: real, st: Device, t: real)
    requires |ts| == |states| && Bisect.Sorted(ts) && (forall i | 0 <= i < |ts| :: ts[i] <= at)
    ensures Bisect.Sorted(ts + [at])
    ensures at < t ==> Lookup(ts + [at], states + [st], t) == st
    ensures at < t ==> Lookup(ts, states, t) == LastState(states)
    ensures t <= at ==> Lookup(ts + [at], states + [st], t) == Lookup(ts, states, t)
  {
    if at < t {
      assert Bisect.Left(ts, t) == |ts|;
      assert (ts + [at])[|ts|] == at;
      assert Bisect.Left(ts + [at], t) == |ts| + 1;
    } else {
      assert (ts + [at])[..|ts|] == ts;
    }
  }

  // The kept stamps and states answer every query as the replay of ms does.
  ghost predicate Tracks(ts: seq<real>, states: seq<Device>, ms: seq<Mark>, conv: Conversion, u: Option<real>) {
    && |ts| == |states| && Bisect.Sorted(ts)
    && forall t :: Lookup(ts, states, t) == NaiveAt(ms, t, conv, u)
  }

  function LastState(states: seq<Device>): Device {
    if states == [] then BEFORE_WRITES else states[|states| - 1]
  }

  lemma TracksOneMore(ts: seq<real>, states: seq<Device>, ms: seq<Mark>, m: Mark, conv: Conversion, u: Option<real>)
    requires Tracks(ts, states, ms, conv, u) && forall i | 0 <= i < |ts| :: ts[i] <= m.Ts()
    ensures var next := Step(LastState(states), m, conv, u);
            if next.Some? then Tracks(ts + [m.Ts()], states + [next.value], ms + [m], conv, u)
            else Tracks(ts, states, ms + [m], conv, u)
  {
    var next := Step(LastState(states), m, conv, u);
    assert (ms + [m])[..|ms|] == ms;
    forall t ensures NaiveAt(ms + [m], t, conv, u) ==
                     if next.Some? then Lookup(ts + [m.Ts()], states + [next.value], t) else Lookup(ts, states, t) {
      AppendLookup(ts, states, m.Ts(), if next.Some? then next.value else BEFORE_WRITES, t);
      assert Lookup(ts, states, t) == NaiveAt(ms, t, conv, u);
    }
  }

  lemma NothingTracked(conv: Conversion, u: Option<real>)
    ensures Tracks([], [], [], conv, u)
  {
  }

  lemma TracksAnswers(ts: seq<real>, states: seq<Device>, ms: seq<Mark>, conv: Conversion, u: Option<real>)
    requires Tracks(ts, states, ms, conv, u)
    ensures |ts| == |states| && Bisect.Sorted(ts)
    ensures forall t :: Lookup(ts, states, t) == NaiveAt(ms, t, conv, u)
  {
  }

  /** The timeline as the source builds it: only the marks that change the state are kept. */
  class Timeline {
    const conv: Conversion
    const u: Option<real>
    var ts: seq<real>
    var states: seq<Device>

    ghost predicate Valid()
      reads this
    {
      |ts| == |states| && Bisect.Sorted(ts)
    }

    constructor (anchors: seq<real>, writes: seq<Write>, conv: Conversion, u: Option<real>)
      ensures Valid() && this.conv == conv && this.u == u
      ensures forall t :: Lookup(ts, states, t) == NaiveAt(Marks(anchors, writes), t, conv, u)
    {
      this.conv, this.u := conv, u;
      ts, states := [], [];
      new;
      hide Marks, Step, Tracks, Lookup, NaiveAt;
      var marks := Marks(anchors, writes);
      MarksInOrder(anchors, writes);
      NothingTracked(conv, u);
      var st := BEFORE_WRITES;
      var k := 0;
      while k < |marks|
        invariant 0 <= k <= |marks|
        invariant Tracks(ts, states, marks[..k], conv, u) && st == LastState(states)
        invariant forall i | 0 <= i < |ts| :: k > 0 && ts[i] <= marks[k - 1].Ts()
      {
        assert k > 0 ==> MarkLe(marks[k - 1], marks[k]);
        TracksOneMore(ts, states, marks[..k], marks[k], conv, u);
        assert marks[..k] + [marks[k]] == marks[..k + 1];
        var next := Step(st, marks[k], this.conv, this.u);
        if next.Some? {
          st := next.value;
          ts := ts + [marks[k].Ts()];
          states := states + [st];
        }
        k := k + 1;
      }
      assert marks[..k] == marks;
      TracksAnswers(ts, states, marks, conv, u);
    }

    function At(t: real): Device
      requires Valid()
      reads this
    {
      Lookup(ts, states, t)
    }
  }

  // ----- What the replayed device says about the trace itself -----

  // A write at ts may be replacing a generation that fired before it.
  predicate MayHaveFired(st: Device, ts: real, u: Option<real>) {
    || (st.kind == Armed && (st.d.None? || u.None? || st.d.value - u.value <= ts))
    || (st.kind == Unknown && st.served.None?)
  }

  ghost predicate LastWrite(ms: seq<Mark>, k: int) {
    0 <= k < |ms| && ms[k].Written? && forall i | k < i < |ms| :: ms[i].Interrupt?
  }

  // Mark j is a write that may have replaced a fired generation, and no interrupt came since.
  ghost predicate LeavesPending(ms: seq<Mark>, j: nat, conv: Conversion, u: Option<real>) {
    && j < |ms|
    && (forall i | j <= i < |ms| :: ms[i].Written?)
    && MayHaveFired(Replay(ms[..j], conv, u), ms[j].Ts(), u)
  }

  lemma LeavesPendingBefore(ms: seq<Mark>, j: nat, conv: Conversion, u: Option<real>)
    requires j < |ms| - 1 && ms[|ms| - 1].Written?
    ensures LeavesPending(ms, j, conv, u) <==> LeavesPending(ms[..|ms| - 1], j, conv, u)
  {
    var init := ms[..|ms| - 1];
    assert init[..j] == ms[..j] && init[j] == ms[j];
    assert forall i | j <= i < |init| :: init[i] == ms[i];
  }

  lemma PendingAfterOneMore(st: Device, m: Mark, conv: Conversion, u: Option<real>)
    ensures Next(st, m, conv, u).pending.Some? <==>
            m.Written? && (st.pending.Some? || MayHaveFired(st, m.Ts(), u))
  {
  }

  /** An earlier generation is shown pending exactly when a write since the last interrupt
      replaced one that may have fired. */
  lemma {:induction false} PendingMeaning(ms: seq<Mark>, conv: Conversion, u: Option<real>)
    ensures Replay(ms, conv, u).pending.Some? <==> exists j :: LeavesPending(ms, j, conv, u)
  {
    if ms != [] {
      var n := |ms| - 1;
      var st := Replay(ms[..n], conv, u);
      PendingMeaning(ms[..n], conv, u);
      PendingAfterOneMore(st, ms[n], conv, u);
      if ms[n].Written? {
        assert LeavesPending(ms, n, conv, u) <==> MayHaveFired(st, ms[n].Ts(), u);
        if st.pending.Some? {
          var j :| LeavesPending(ms[..n], j, conv, u);
          LeavesPendingBefore(ms, j, conv, u);
        }
        if j: nat :| LeavesPending(ms, j, conv, u) {
          if j < n { LeavesPendingBefore(ms, j, conv, u); }
        }
      }
    }
  }

  /** The device is the last write's: armed for its deadline until an interrupt at or after
      the deadline less U (or any, outside the anchors) came after the write. */
  lemma {:induction false} KindMeaning(ms: seq<Mark>, k: nat, conv: Conversion, u: Option<real>)
    requires LastWrite(ms, k)
    ensures var st, w, d := Replay(ms, conv, u), ms[k].w, conv(ms[k].w.value);
            var served := exists i | k < i < |ms| :: d.None? || (u.Some? && ms[i].Ts() >= d.value - u.value);
            && st.write == Some(w)
            && st.kind == (if w.failed then Unknown else if w.value == 0 then Disarmed
                           else if !served then Armed else if d.None? then Unknown else Served)
            && (st.kind == Armed || st.kind == Served ==> st.d == d)
            && (st.served.Some? <==> !w.failed && w.value != 0 && served)
  {
    if k < |ms| - 1 {
      KindMeaning(ms[..|ms| - 1], k, conv, u);
    }
  }

  // ----- The hardware -----

  // What raised an interrupt: a deadline write, or whatever was armed before the trace began.
  datatype Source = BeforeTrace | By(w: Write)

  // The armed generation, and the generations merged into the one latched interrupt ({}: none).
  datatype Hw = Hw(armed: Option<Source>, latched: set<Source>)

  // The armed generation fires once its deadline has come, and disarms itself.
  ghost function Fire(h: Hw, now: real, due: Source -> real): Hw {
    if h.armed.Some? && due(h.armed.value) <= now then Hw(None, h.latched + {h.armed.value}) else h
  }

  // A write replaces the armed generation and leaves a latched interrupt latched; a failed
  // one may have left the old generation, nothing or the new one armed.
  ghost predicate HwWrite(h: Hw, w: Write, now: real, h': Hw, due: Source -> real) {
    var f := Fire(h, now, due);
    && h'.latched == f.latched
    && (if w.failed then h'.armed == f.armed || h'.armed == None || h'.armed == Some(By(w))
        else if w.value == 0 then h'.armed == None
        else h'.armed == Some(By(w)))
  }

  // An interrupt is accepted only when one is latched; src is everything it stands for.
  ghost predicate HwInterrupt(h: Hw, now: real, src: set<Source>, h': Hw, due: Source -> real) {
    var f := Fire(h, now, due);
    f.latched != {} && src == f.latched && h' == Hw(f.armed, {})
  }

  // One run of the hardware: the state around every mark, when each mark really took
  // effect, and the sources of each interrupt.
  datatype Run = Run(hw: seq<Hw>, act: seq<real>, src: seq<set<Source>>)

  /** The run explains the trace: a write is traced at or after it took effect, an interrupt
      at most `lag` after it was accepted, and both happen in the order of the marks. */
  ghost predicate Explains(r: Run, ms: seq<Mark>, lag: real, due: Source -> real) {
    && |r.hw| == |ms| + 1 && |r.act| == |ms| && |r.src| == |ms|
    && (r.hw[0].armed == None || r.hw[0].armed == Some(BeforeTrace)) && r.hw[0].latched <= {BeforeTrace}
    && (forall i, j | 0 <= i < j < |ms| :: r.act[i] <= r.act[j])
    && (forall i | 0 <= i < |ms| :: r.act[i] <= ms[i].Ts() && StepExplained(r, ms, i, lag, due))
  }

  ghost predicate StepExplained(r: Run, ms: seq<Mark>, i: nat, lag: real, due: Source -> real)
    requires |r.hw| == |ms| + 1 && |r.act| == |ms| && |r.src| == |ms| && i < |ms|
  {
    match ms[i]
    case Written(w) => HwWrite(r.hw[i], w, r.act[i], r.hw[i + 1], due)
    case Interrupt(ts) => ts - lag <= r.act[i] && HwInterrupt(r.hw[i], r.act[i], r.src[i], r.hw[i + 1], due)
  }

  // A write that arms the device.
  predicate Arms(w: Write) {
    !w.failed && w.value != 0
  }

  // The conversion, where it converts a write's deadline, is within u of the true one.
  predicate AccurateFor(w: Write, conv: Conversion, u: Option<real>, due: Source -> real) {
    u.Some? && conv(w.value).Some? ==> conv(w.value).value - u.value <= due(By(w)) <= conv(w.value).value + u.value
  }

  // It is so of every deadline written in the trace.
  ghost predicate Accurate(ms: seq<Mark>, conv: Conversion, u: Option<real>, due: Source -> real) {
    forall w: Write | Written(w) in ms && Arms(w) :: AccurateFor(w, conv, u, due)
  }

  // No interrupt comes while an earlier generation may be pending and the armed deadline is
  // too close (within u, or fired within the tracing lag) to tell the two apart.
  ghost predicate Separated(ms: seq<Mark>, conv: Conversion, u: Option<real>, lag: real) {
    forall i | 0 <= i < |ms| && ms[i].Interrupt? :: ClearOf(Replay(ms[..i], conv, u), ms[i].Ts(), u, lag)
  }

  predicate ClearOf(st: Device, ts: real, u: Option<real>, lag: real) {
    st.kind == Armed && st.pending.Some? ==>
      st.d.Some? && (u.Some? ==> ts < st.d.value - u.value || st.d.value + u.value + lag <= ts)
  }

  // What the reconstructed device says about the hardware.
  ghost predicate Agrees(st: Device, h: Hw) {
    && (st.kind == Armed ==> st.write.Some?)
    && (st.kind == Served || (st.kind == Unknown && st.served.Some?) ==> st.pending.None?)
    && (st.pending.None? ==>
          match st.kind
          case Armed => var s := By(st.write.value);
            h == Hw(Some(s), {}) || (h.armed.None? && h.latched <= {s})
          case Unknown => st.served.Some? ==> h == Hw(None, {})
          case _ => h == Hw(None, {}))
    && (st.pending.Some? ==>
          match st.kind
          case Armed => h.armed.None? || h.armed == Some(By(st.write.value))
          case Disarmed => h.armed.None?
          case _ => true)
  }

  ghost predicate LatchedAreDue(h: Hw, now: real, due: Source -> real) {
    forall w :: By(w) in h.latched ==> due(By(w)) <= now
  }

  ghost predicate ArmedIsConverted(st: Device, conv: Conversion) {
    st.kind == Armed ==> st.write.Some? && st.d == conv(st.write.value.value)
  }

  // The armed deadline was written in the trace, by a write that arms.
  ghost predicate ArmedByTrace(st: Device, ms: seq<Mark>) {
    st.kind == Armed ==> st.write.Some? && Written(st.write.value) in ms && Arms(st.write.value)
  }

  ghost predicate ArmedAccurately(st: Device, conv: Conversion, u: Option<real>, due: Source -> real) {
    st.kind == Armed ==> st.write.Some? && AccurateFor(st.write.value, conv, u, due)
  }

  lemma WriteAgrees(st: Device, h: Hw, w: Write, now: real, h': Hw,
                    conv: Conversion, u: Option<real>, due: Source -> real)
    requires Agrees(st, h) && LatchedAreDue(h, now, due) && ArmedIsConverted(st, conv) && ArmedAccurately(st, conv, u, due)
    requires now <= w.ts && HwWrite(h, w, now, h', due)
    ensures Agrees(Next(st, Written(w), conv, u), h')
  {
    if st.kind == Armed && st.pending.None? && PendingAfterWrite(st, w.ts, u).None? {
      assert st.d == conv(st.write.value.value) && now < due(By(st.write.value));
      assert Fire(h, now, due) == h && h.latched == {};
    }
  }

  lemma InterruptAgrees(st: Device, h: Hw, ts: real, now: real, src: set<Source>, h': Hw,
                        conv: Conversion, u: Option<real>, lag: real, due: Source -> real)
    requires Agrees(st, h) && ArmedIsConverted(st, conv) && ArmedAccurately(st, conv, u, due)
    requires ts - lag <= now && HwInterrupt(h, now, src, h', due) && ClearOf(st, ts, u, lag)
    ensures Agrees(Next(st, Interrupt(ts), conv, u), h')
    ensures st.kind == Armed && st.pending.None? ==> src == {By(st.write.value)} && h' == Hw(None, {})
  {
    if st.kind == Armed && st.pending.Some? && u.Some? && st.d.value + u.value + lag <= ts {
      assert due(By(st.write.value)) <= now;
    }
  }

  lemma {:induction false} ReplayAgrees(r: Run, ms: seq<Mark>, n: nat, conv: Conversion, u: Option<real>,
                                        lag: real, due: Source -> real)
    requires n <= |ms| && Explains(r, ms, lag, due) && Accurate(ms, conv, u, due) && Separated(ms, conv, u, lag)
    ensures Agrees(Replay(ms[..n], conv, u), r.hw[n])
    ensures ArmedIsConverted(Replay(ms[..n], conv, u), conv)
    ensures n < |ms| ==> LatchedAreDue(r.hw[n], r.act[n], due)
  {
    if n > 0 {
      var i := n - 1;
      ReplayAgrees(r, ms, i, conv, u, lag, due);
      assert ms[..n][..i] == ms[..i];
      var st := Replay(ms[..i], conv, u);
      ArmedHasDeadline(ms[..i], conv, u);
      assert StepExplained(r, ms, i, lag, due);
      match ms[i]
      case Written(w) => WriteAgrees(st, r.hw[i], w, r.act[i], r.hw[n], conv, u, due);
      case Interrupt(ts) => InterruptAgrees(st, r.hw[i], ts, r.act[i], r.src[i], r.hw[n], conv, u, lag, due);
    }
  }

  // The first of the marks at the same time as the i-th.
  lemma FirstAt(ms: seq<Mark>, i: nat) returns (p: nat)
    requires InOrder(ms) && i < |ms|
    ensures p <= i && (forall j | p <= j <= i :: ms[j].Ts() == ms[i].Ts())
    ensures (forall j | 0 <= j < p :: ms[j].Ts() < ms[i].Ts()) && forall j | p <= j < |ms| :: ms[i].Ts() <= ms[j].Ts()
  {
    p := i;
    while p > 0 && ms[p - 1].Ts() == ms[i].Ts()
      invariant 0 <= p <= i
      invariant forall j | p <= j <= i :: ms[j].Ts() == ms[i].Ts()
    {
      p := p - 1;
    }
    forall j | 0 <= j < p ensures ms[j].Ts() < ms[i].Ts() {
      assert MarkLe(ms[j], ms[i]);
      if j < p - 1 { assert MarkLe(ms[j], ms[p - 1]) && MarkLe(ms[p - 1], ms[i]); }
    }
    assert forall j | i < j < |ms| :: MarkLe(ms[i], ms[j]);
  }

  /** Soundness: whenever the device just before an interrupt is shown armed with nothing
      pending, every hardware run that explains the trace has exactly that write's deadline
      as the interrupt's source. */
  lemma ArmedNamesTheSource(r: Run, ms: seq<Mark>, i: nat, conv: Conversion, u: Option<real>,
                            lag: real, due: Source -> real)
    requires InOrder(ms) && i < |ms| && ms[i].Interrupt?
    requires Explains(r, ms, lag, due) && Accurate(ms, conv, u, due) && Separated(ms, conv, u, lag)
    ensures var st := NaiveAt(ms, ms[i].Ts(), conv, u);
            st.kind == Armed && st.pending.None? ==> st.write.Some? && r.src[i] == {By(st.write.value)}
  {
    var t := ms[i].Ts();
    var p := FirstAt(ms, i);
    NaiveAtPrefix(ms, t, p, conv, u);
    var st := Replay(ms[..p], conv, u);
    ArmedHasDeadline(ms[..p], conv, u);
    if st.kind == Armed && st.pending.None? {
      ReplayAgrees(r, ms, p, conv, u, lag, due);
      assert MarkLe(ms[p], ms[i]) || p == i;
      assert ms[p].Interrupt? && StepExplained(r, ms, p, lag, due);
      if p < i {
        assert MarkLe(ms[p + 1], ms[i]) || p + 1 == i;
        assert StepExplained(r, ms, p + 1, lag, due);
      }
      InterruptAgrees(st, r.hw[p], t, r.act[p], r.src[p], r.hw[p + 1], conv, u, lag, due);
      // Nothing would be left to raise a second interrupt at the same stamp.
      assert p == i;
    }
  }

  // Every deadline written in the trace converts.
  ghost predicate Covered(ms: seq<Mark>, conv: Conversion) {
    forall w: Write | Written(w) in ms && Arms(w) :: conv(w.value).Some?
  }

  /** With an exact conversion that covers every deadline of the trace, and interrupts traced as
      they are accepted, no side condition is left. */
  lemma ExactConversionIsSeparated(ms: seq<Mark>, conv: Conversion)
    requires Covered(ms, conv)
    ensures Separated(ms, conv, Some(0.0), 0.0)
  {
    forall i | 0 <= i < |ms| && ms[i].Interrupt? ensures ClearOf(Replay(ms[..i], conv, Some(0.0)), ms[i].Ts(), Some(0.0), 0.0) {
      ArmedHasDeadline(ms[..i], conv, Some(0.0));
    }
  }

  lemma {:induction false} ArmedHasDeadline(ms: seq<Mark>, conv: Conversion, u: Option<real>)
    ensures ArmedIsConverted(Replay(ms, conv, u), conv) && ArmedByTrace(Replay(ms, conv, u), ms)
  {
    if ms != [] { ArmedHasDeadline(ms[..|ms| - 1], conv, u); }
  }

  /** Soundness with nothing but the trace's own deadlines exactly converted: an armed device with
      nothing pending names the interrupt's source in every hardware run. */
  lemma ExactlyArmedNamesTheSource(r: Run, ms: seq<Mark>, i: nat, conv: Conversion, due: Source -> real)
    requires InOrder(ms) && i < |ms| && ms[i].Interrupt?
    requires Explains(r, ms, 0.0, due) && Covered(ms, conv) && Accurate(ms, conv, Some(0.0), due)
    ensures var st := NaiveAt(ms, ms[i].Ts(), conv, Some(0.0));
            st.kind == Armed && st.pending.None? ==> st.write.Some? && r.src[i] == {By(st.write.value)}
  {
    ExactConversionIsSeparated(ms, conv);
    ArmedNamesTheSource(r, ms, i, conv, Some(0.0), 0.0, due);
  }

  /** The side condition at an interrupt cannot be weakened: where it fails, some accurate deadline
      and hardware step that agree with the device lead to hardware that no longer does. */
  lemma ClearOfIsNeeded(st: Device, ts: real, conv: Conversion, u: Option<real>, lag: real)
    returns (h: Hw, now: real, src: set<Source>, h': Hw, due: Source -> real)
    requires st.write.Some? && ArmedIsConverted(st, conv) && !ClearOf(st, ts, u, lag)
    requires lag >= 0.0 && (u.Some? ==> u.value >= 0.0)
    ensures Agrees(st, h) && ArmedAccurately(st, conv, u, due)
    ensures ts - lag <= now <= ts && HwInterrupt(h, now, src, h', due)
    ensures !Agrees(Next(st, Interrupt(ts), conv, u), h')
  {
    var s := By(st.write.value);
    var late := if st.d.None? then ts + 1.0 else st.d.value + if u.Some? then u.value else 0.0;
    due := _ => late;
    now := ts - lag;
    h, src, h' := Hw(Some(s), {BeforeTrace}), {BeforeTrace}, Hw(Some(s), {});
  }

  // A trace in which the first interrupt, stamped t1, may be taken for the second write's.
  ghost const A := Write(0.0, 10, false)
  ghost const B := Write(20.0, 31, false)
  ghost const C := Write(32.0, 100, false)
  ghost function Misleading(t1: real): seq<Mark> {
    [Written(A), Written(B), Interrupt(t1), Written(C), Interrupt(99.0)]
  }
  ghost const MISLEADING_RUN :=
    Run([Hw(None, {}), Hw(Some(By(A)), {}), Hw(Some(By(B)), {By(A)}), Hw(Some(By(B)), {}),
         Hw(Some(By(C)), {By(B)}), Hw(Some(By(C)), {})],
        [0.0, 20.0, 30.0, 32.0, 99.0], [{}, {}, {By(A)}, {}, {By(B)}])

  ghost function MisleadingDue(dueB: real): Source -> real {
    (s: Source) => if s.BeforeTrace? then 0.0 else if s.w.value == 31 then dueB else s.w.value as real
  }

  lemma ReplayOneMore(ms: seq<Mark>, n: nat, conv: Conversion, u: Option<real>)
    requires n < |ms|
    ensures Replay(ms[..n + 1], conv, u) == Next(Replay(ms[..n], conv, u), ms[n], conv, u)
  {
    assert ms[..n + 1][..n] == ms[..n];
  }

  // The conversion of the misleading trace: exact, but for what it says of the second deadline.
  ghost function MisleadingConversion(b: Option<real>): Conversion {
    v => if v == 31 then b else Some(v as real)
  }

  lemma MisleadingTimeline(t1: real, b: Option<real>, u: real)
    requires 20.0 < t1 < 32.0 && 0.0 <= u <= 10.0 && (b.Some? ==> b.value - u <= t1 && 20.0 < b.value - u)
    ensures NaiveAt(Misleading(t1), 99.0, MisleadingConversion(b), Some(u)) == Device(Armed, Some(C), Some(100.0), None, None)
  {
    var ms, conv := Misleading(t1), MisleadingConversion(b);
    NaiveAtPrefix(ms, 99.0, 4, conv, Some(u));
    ReplayOneMore(ms, 0, conv, Some(u));
    ReplayOneMore(ms, 1, conv, Some(u));
    ReplayOneMore(ms, 2, conv, Some(u));
    ReplayOneMore(ms, 3, conv, Some(u));
  }

  // The device before the last interrupt is shown armed for C with nothing pending, and every
  // premise of soundness but the side condition holds, yet the interrupt is B's.
  ghost predicate Misled(t1: real, b: Option<real>, u: real, lag: real, dueB: real) {
    var ms, conv, due := Misleading(t1), MisleadingConversion(b), MisleadingDue(dueB);
    && InOrder(ms) && ms[4].Interrupt? && Explains(MISLEADING_RUN, ms, lag, due) && Accurate(ms, conv, Some(u), due)
    && NaiveAt(ms, ms[4].Ts(), conv, Some(u)) == Device(Armed, Some(C), Some(100.0), None, None)
    && By(C) !in MISLEADING_RUN.src[4]
  }

  lemma MisleadingWrites(t1: real, lag: real, dueB: real, i: nat)
    requires 30.0 <= t1 < 32.0 && 30.0 < dueB <= 32.0 && i in {0, 1, 3}
    ensures MISLEADING_RUN.act[i] <= Misleading(t1)[i].Ts() && StepExplained(MISLEADING_RUN, Misleading(t1), i, lag, MisleadingDue(dueB))
  {
  }

  lemma MisleadingInterrupts(t1: real, lag: real, dueB: real, i: nat)
    requires 30.0 <= t1 < 32.0 && t1 - lag <= 30.0 && 30.0 < dueB <= 32.0 && i in {2, 4}
    ensures MISLEADING_RUN.act[i] <= Misleading(t1)[i].Ts() && StepExplained(MISLEADING_RUN, Misleading(t1), i, lag, MisleadingDue(dueB))
  {
  }

  lemma MisleadingExplained(t1: real, lag: real, dueB: real)
    requires 30.0 <= t1 < 32.0 && t1 - lag <= 30.0 && 30.0 < dueB <= 32.0
    ensures Explains(MISLEADING_RUN, Misleading(t1), lag, MisleadingDue(dueB))
  {
    hide StepExplained;
    var ms, due := Misleading(t1), MisleadingDue(dueB);
    forall i | 0 <= i < 5 ensures MISLEADING_RUN.act[i] <= ms[i].Ts() && StepExplained(MISLEADING_RUN, ms, i, lag, due) {
      if i == 2 || i == 4 { MisleadingInterrupts(t1, lag, dueB, i); } else { MisleadingWrites(t1, lag, dueB, i); }
    }
  }

  lemma Misleads(t1: real, b: Option<real>, u: real, lag: real, dueB: real)
    requires 30.0 <= t1 < 32.0 && 0.0 <= u <= 10.0 && t1 - lag <= 30.0 && 30.0 < dueB <= 32.0
    requires b.Some? ==> b.value - u <= t1 && 20.0 < b.value - u <= dueB <= b.value + u
    ensures Misled(t1, b, u, lag, dueB)
  {
    hide Explains, NaiveAt;
    MisleadingTimeline(t1, b, u);
    MisleadingExplained(t1, lag, dueB);
  }

  /** The side condition cannot be dropped, and each of its three ways to fail has a trace: an
      earlier generation pending, an interrupt is read as serving the armed deadline, which then
      fires unseen, and the next generation is named for its interrupt. It happens with an
      uncertainty of 2 ns and an interrupt 1 ns before the converted deadline, with interrupts
      traced up to 2 ns late, and with a deadline outside the anchors. */
  lemma UncertainServiceCanMislead()
    ensures Misled(30.0, Some(31.0), 2.0, 0.0, 30.5)
    ensures Misled(31.5, Some(31.0), 0.0, 2.0, 31.0)
    ensures Misled(30.0, None, 0.0, 0.0, 30.5)
  {
    Misleads(30.0, Some(31.0), 2.0, 0.0, 30.5);
    Misleads(31.5, Some(31.0), 0.0, 2.0, 31.0);
    Misleads(30.0, None, 0.0, 0.0, 30.5);
  }

  // ----- Classifying a late service -----

  const U_LIMIT_NS := 5000.0
  const LATE_NS := 50000.0
  const IDLE_EXIT := 4294967295

  datatype Class =
    | OnTime
    | LateSleepCall
    | TimerArmedLate
    | Indeterminate
    | DeadlineLate(d: real, cause: Write)
    | InterruptLateFromIdle(d: real, cause: Write, idle: nat)
    | InterruptLateWhileBusy(d: real, cause: Write)

  // The CPU's idle transitions: the stamps and the states entered at them.
  function IdleAt(stamps: seq<real>, entered: seq<nat>, t: real): Option<nat>
    requires |stamps| == |entered| && Bisect.Sorted(stamps)
  {
    var k := Bisect.Right(stamps, t) - 1;
    if k >= 0 && entered[k] != IDLE_EXIT then Some(entered[k]) else None
  }

  /** One worker sleep: its timer armed at armTs for the expiry e, served at `entry` with the
      timer's own time `now`, its sleep call entered at `call` if recorded. */
  function Classify(ts: seq<real>, states: seq<Device>, u: Option<real>, anchors: seq<real>,
                    idleTs: seq<real>, idleStates: seq<nat>,
                    armTs: real, e: real, entry: real, now: real, call: Option<real>): Class
    requires |ts| == |states| && Bisect.Sorted(ts) && Bisect.Sorted(anchors)
    requires |idleTs| == |idleStates| && Bisect.Sorted(idleTs)
  {
    var k := Bisect.Right(anchors, entry) - 1;
    if now - e < LATE_NS then OnTime
    else if call.Some? && call.value > e then LateSleepCall
    else if armTs > e then TimerArmedLate
    else if u.None? || u.value > U_LIMIT_NS then Indeterminate
    else if k < 0 then Indeterminate
    else
      var irq := anchors[k];
      var s := Lookup(ts, states, irq);
      if s.kind != Armed || s.d.None? || s.write.None? then Indeterminate
      else if s.pending.Some? then Indeterminate
      else if irq < s.d.value - u.value then Indeterminate
      else
        var d, w := s.d.value, s.write.value;
        var due := Max(d, w.ts);
        if due - e > u.value then
          if Lookup(ts, states, e).kind == Unknown then Indeterminate else DeadlineLate(d, w)
        else
          var since := if d >= e - u.value then Max(due, e) else due;
          var idle := IdleAt(idleTs, idleStates, since);
          if idle.Some? then InterruptLateFromIdle(d, w, idle.value) else InterruptLateWhileBusy(d, w)
  }

  function Named(c: Class): Option<Write> {
    match c
    case DeadlineLate(_, w) => Some(w)
    case InterruptLateFromIdle(_, w, _) => Some(w)
    case InterruptLateWhileBusy(_, w) => Some(w)
    case _ => None
  }

  /** Whatever the classification blames on a deadline was raised by that deadline in every
      hardware run: a deadline called late was truly due after the expiry or was written later
      than it, and an interrupt called late had its deadline due no later than 2U after it. */
  lemma ClassifyBlamesTheSource(anchors: seq<real>, writes: seq<Write>, conv: Conversion, u: Option<real>,
                                ts: seq<real>, states: seq<Device>, idleTs: seq<real>, idleStates: seq<nat>,
                                armTs: real, e: real, entry: real, now: real, call: Option<real>,
                                r: Run, i: nat, lag: real, due: Source -> real)
    requires |ts| == |states| && Bisect.Sorted(ts) && Bisect.Sorted(anchors)
    requires |idleTs| == |idleStates| && Bisect.Sorted(idleTs)
    requires forall t :: Lookup(ts, states, t) == NaiveAt(Marks(anchors, writes), t, conv, u)
    requires Explains(r, Marks(anchors, writes), lag, due) && Accurate(Marks(anchors, writes), conv, u, due)
    requires Separated(Marks(anchors, writes), conv, u, lag)
    requires i < |Marks(anchors, writes)| && Bisect.Right(anchors, entry) > 0
    requires Marks(anchors, writes)[i] == Interrupt(anchors[Bisect.Right(anchors, entry) - 1])
    ensures var c := Classify(ts, states, u, anchors, idleTs, idleStates, armTs, e, entry, now, call);
            && (Named(c).Some? ==> r.src[i] == {By(Named(c).value)} && u.Some?)
            && (c.DeadlineLate? ==> due(By(c.cause)) > e || c.cause.ts > e + u.value)
            && (c.InterruptLateFromIdle? || c.InterruptLateWhileBusy? ==>
                  due(By(Named(c).value)) <= e + 2.0 * u.value && Named(c).value.ts <= e + u.value)
  {
    hide Explains, Accurate, Separated, Marks, NaiveAt, Replay;
    var irq := anchors[Bisect.Right(anchors, entry) - 1];
    MarksInOrder(anchors, writes);
    SourceNamed(r, Marks(anchors, writes), i, conv, u, lag, due);
    assert Lookup(ts, states, irq) == NaiveAt(Marks(anchors, writes), irq, conv, u);
  }

  // ----- When each class is given -----

  // The last of the local timer interrupts not after t.
  ghost predicate LastInterrupt(anchors: seq<real>, t: real, irq: real) {
    irq in anchors && irq <= t && forall a | a in anchors && a <= t :: a <= irq
  }

  // A device that tells which deadline raised an interrupt: armed for a converted one, due by
  // then, with no earlier generation pending, and the conversion good to 5 us.
  ghost predicate Telling(st: Device, irq: real, u: Option<real>) {
    && u.Some? && u.value <= 5000.0
    && st.kind == Armed && st.d.Some? && st.pending.None? && st.d.value - u.value <= irq
  }

  // Due or written more than u after the expiry.
  predicate DueLate(st: Device, e: real, u: real)
    requires st.d.Some? && st.write.Some?
  {
    st.d.value > e + u || st.write.value.ts > e + u
  }

  // The first instant at which the deadline is due and written and, unless it is more than u
  // before the expiry, the expiry has come.
  ghost predicate Overdue(st: Device, e: real, u: real, since: real)
    requires st.d.Some? && st.write.Some?
  {
    && OverdueBy(st, e, u, since)
    && forall t | OverdueBy(st, e, u, t) :: since <= t
  }

  ghost predicate OverdueBy(st: Device, e: real, u: real, t: real)
    requires st.d.Some? && st.write.Some?
  {
    st.d.value <= t && st.write.value.ts <= t && (e - u <= st.d.value ==> e <= t)
  }

  // The last idle transition not after t entered this state.
  ghost predicate IdleSince(stamps: seq<real>, entered: seq<nat>, t: real, state: nat)
    requires |stamps| == |entered|
  {
    exists k :: 0 <= k < |stamps| && stamps[k] <= t && entered[k] == state && state != 4294967295
      && forall j | k < j < |stamps| :: t < stamps[j]
  }

  // A late service that its sleep call and its arming do not explain.
  predicate Unexplained(armTs: real, e: real, now: real, call: Option<real>) {
    now - e >= 50000.0 && (call.Some? ==> call.value <= e) && armTs <= e
  }

  // The interrupt at irq tells the deadline, and the device is known at the expiry if that is late.
  ghost predicate Conclusive(ms: seq<Mark>, conv: Conversion, u: Option<real>, irq: real, e: real) {
    var st := NaiveAt(ms, irq, conv, u);
    && Telling(st, irq, u) && st.write.Some?
    && (DueLate(st, e, u.value) ==> NaiveAt(ms, e, conv, u).kind != Unknown)
  }

  // The class of a service whose interrupt tells: which deadline, and whether it was late itself.
  ghost predicate ClassIs(c: Class, st: Device, e: real, u: real, idleTs: seq<real>, idleStates: seq<nat>)
    requires st.d.Some? && st.write.Some? && |idleTs| == |idleStates|
  {
    if DueLate(st, e, u) then c == DeadlineLate(st.d.value, st.write.value)
    else exists since :: Overdue(st, e, u, since) && InterruptLateSince(c, st, since, idleTs, idleStates)
  }

  ghost predicate InterruptLateSince(c: Class, st: Device, since: real, idleTs: seq<real>, idleStates: seq<nat>)
    requires st.d.Some? && st.write.Some? && |idleTs| == |idleStates|
  {
    if exists state: nat :: IdleSince(idleTs, idleStates, since, state) then
      c.InterruptLateFromIdle? && c.d == st.d.value && c.cause == st.write.value && IdleSince(idleTs, idleStates, since, c.idle)
    else c == InterruptLateWhileBusy(st.d.value, st.write.value)
  }

  lemma IdleAtExact(stamps: seq<real>, entered: seq<nat>, t: real)
    requires |stamps| == |entered| && Bisect.Sorted(stamps)
    ensures IdleAt(stamps, entered, t).Some? ==> IdleSince(stamps, entered, t, IdleAt(stamps, entered, t).value)
    ensures IdleAt(stamps, entered, t).None? ==> forall state: nat :: !IdleSince(stamps, entered, t, state)
  {
    var k := Bisect.Right(stamps, t) - 1;
    if k >= 0 && entered[k] != IDLE_EXIT {
      assert IdleSince(stamps, entered, t, entered[k]);
    } else {
      forall state: nat ensures !IdleSince(stamps, entered, t, state) {
        if IdleSince(stamps, entered, t, state) { IdleSinceIs(stamps, entered, t, state); }
      }
    }
  }

  lemma IdleSinceIs(stamps: seq<real>, entered: seq<nat>, t: real, state: nat)
    requires |stamps| == |entered| && Bisect.Sorted(stamps) && IdleSince(stamps, entered, t, state)
    ensures var k := Bisect.Right(stamps, t) - 1; k >= 0 && entered[k] == state && state != IDLE_EXIT
  {
    var k := Bisect.Right(stamps, t) - 1;
    var j :| 0 <= j < |stamps| && stamps[j] <= t && entered[j] == state && state != 4294967295
      && forall m | j < m < |stamps| :: t < stamps[m];
    assert j <= k && stamps[k] <= t;
  }

  // What the list keeps before the entry is the last interrupt not after it.
  lemma ServingInterrupt(anchors: seq<real>, entry: real)
    requires Bisect.Sorted(anchors)
    ensures var k := Bisect.Right(anchors, entry) - 1;
            if k < 0 then forall irq :: !LastInterrupt(anchors, entry, irq)
            else forall irq :: LastInterrupt(anchors, entry, irq) <==> irq == anchors[k]
  {
    var k := Bisect.Right(anchors, entry) - 1;
    if k >= 0 {
      assert anchors[k] in anchors;
      forall a | a in anchors && a <= entry ensures a <= anchors[k] {
        var j :| 0 <= j < |anchors| && anchors[j] == a;
      }
    }
  }

  // Once the device at the interrupt and at the expiry are known, the rest of the decision.
  lemma TellingDecides(st: Device, e: real, u: real, idleTs: seq<real>, idleStates: seq<nat>)
    requires st.d.Some? && st.write.Some? && |idleTs| == |idleStates| && Bisect.Sorted(idleTs) && !DueLate(st, e, u)
    ensures var due := Max(st.d.value, st.write.value.ts);
            var since := if st.d.value >= e - u then Max(due, e) else due;
            var idle := IdleAt(idleTs, idleStates, since);
            ClassIs(if idle.Some? then InterruptLateFromIdle(st.d.value, st.write.value, idle.value)
                    else InterruptLateWhileBusy(st.d.value, st.write.value), st, e, u, idleTs, idleStates)
  {
    hide IdleAt, IdleSince;
    var due := Max(st.d.value, st.write.value.ts);
    var since := if st.d.value >= e - u then Max(due, e) else due;
    IdleAtExact(idleTs, idleStates, since);
    assert Overdue(st, e, u, since);
  }

  /** When each class is given, over the naive device. A service under 50 us late is on time; a
      later one is laid to a sleep call after the expiry, else to an arming after it; else it is
      indeterminate exactly when no interrupt before it tells the deadline that raised it, or
      that deadline is late and the device at the expiry unknown. Otherwise that deadline is
      named: as late itself when due or written more than U after the expiry, and if not its
      interrupt as late, from idle when the last transition by the time it was overdue entered
      an idle state. */
  lemma ClassifyExact(anchors: seq<real>, ms: seq<Mark>, conv: Conversion, u: Option<real>,
                      ts: seq<real>, states: seq<Device>, idleTs: seq<real>, idleStates: seq<nat>,
                      armTs: real, e: real, entry: real, now: real, call: Option<real>)
    requires |ts| == |states| && Bisect.Sorted(ts) && Bisect.Sorted(anchors)
    requires |idleTs| == |idleStates| && Bisect.Sorted(idleTs)
    requires forall t :: Lookup(ts, states, t) == NaiveAt(ms, t, conv, u)
    ensures var c := Classify(ts, states, u, anchors, idleTs, idleStates, armTs, e, entry, now, call);
            && (c == OnTime <==> now - e < 50000.0)
            && (c == LateSleepCall <==> now - e >= 50000.0 && call.Some? && call.value > e)
            && (c == TimerArmedLate <==> now - e >= 50000.0 && (call.Some? ==> call.value <= e) && armTs > e)
            && (c == Indeterminate <==>
                  && Unexplained(armTs, e, now, call)
                  && forall irq | LastInterrupt(anchors, entry, irq) :: !Conclusive(ms, conv, u, irq, e))
            && (Unexplained(armTs, e, now, call) ==>
                  forall irq | LastInterrupt(anchors, entry, irq) && Conclusive(ms, conv, u, irq, e) ::
                    ClassIs(c, NaiveAt(ms, irq, conv, u), e, u.value, idleTs, idleStates))
  {
    hide LastInterrupt, NaiveAt, ClassIs, IdleAt, Lookup;
    ServingInterrupt(anchors, entry);
    var k := Bisect.Right(anchors, entry) - 1;
    if k >= 0 {
      var irq := anchors[k];
      assert Lookup(ts, states, irq) == NaiveAt(ms, irq, conv, u) && Lookup(ts, states, e) == NaiveAt(ms, e, conv, u);
      var st := NaiveAt(ms, irq, conv, u);
      ArmedIsWritten(ms, irq, conv, u);
      if Unexplained(armTs, e, now, call) && Conclusive(ms, conv, u, irq, e) {
        if DueLate(st, e, u.value) {
          LateDecides(st, e, u.value, idleTs, idleStates);
        } else {
          TellingDecides(st, e, u.value, idleTs, idleStates);
        }
      }
    }
  }

  lemma LateDecides(st: Device, e: real, u: real, idleTs: seq<real>, idleStates: seq<nat>)
    requires st.d.Some? && st.write.Some? && |idleTs| == |idleStates| && DueLate(st, e, u)
    ensures ClassIs(DeadlineLate(st.d.value, st.write.value), st, e, u, idleTs, idleStates)
  {
  }

  lemma ArmedIsWritten(ms: seq<Mark>, t: real, conv: Conversion, u: Option<real>)
    ensures NaiveAt(ms, t, conv, u).kind == Armed ==> NaiveAt(ms, t, conv, u).write.Some?
  {
    NaiveAtConverted(ms, t, conv, u);
  }

  /** Completeness against the hardware: a late service that its call and arming do not explain,
      with an interrupt before it that tells, is always laid to the deadline that raised that
      interrupt in every hardware run; and to the deadline itself exactly when it was due or
      written more than U late. */
  lemma LateServiceNamesTheSource(anchors: seq<real>, writes: seq<Write>, conv: Conversion, u: Option<real>,
                                  ts: seq<real>, states: seq<Device>, idleTs: seq<real>, idleStates: seq<nat>,
                                  armTs: real, e: real, entry: real, now: real, call: Option<real>,
                                  r: Run, i: nat, lag: real, due: Source -> real)
    requires |ts| == |states| && Bisect.Sorted(ts) && Bisect.Sorted(anchors)
    requires |idleTs| == |idleStates| && Bisect.Sorted(idleTs)
    requires forall t :: Lookup(ts, states, t) == NaiveAt(Marks(anchors, writes), t, conv, u)
    requires Explains(r, Marks(anchors, writes), lag, due) && Accurate(Marks(anchors, writes), conv, u, due)
    requires Separated(Marks(anchors, writes), conv, u, lag) && Unexplained(armTs, e, now, call)
    requires i < |Marks(anchors, writes)| && Marks(anchors, writes)[i].Interrupt?
    requires LastInterrupt(anchors, entry, Marks(anchors, writes)[i].at)
    requires Conclusive(Marks(anchors, writes), conv, u, Marks(anchors, writes)[i].at, e)
    ensures var c := Classify(ts, states, u, anchors, idleTs, idleStates, armTs, e, entry, now, call);
            var st := NaiveAt(Marks(anchors, writes), Marks(anchors, writes)[i].at, conv, u);
            && Named(c) == st.write && i < |r.src| && r.src[i] == {By(st.write.value)}
            && (c.DeadlineLate? <==> DueLate(st, e, u.value))
  {
    hide Explains, Accurate, Separated, Marks, NaiveAt, Classify, LastInterrupt, Lookup, Overdue, IdleSince;
    MarksInOrder(anchors, writes);
    ClassifyExact(anchors, Marks(anchors, writes), conv, u, ts, states, idleTs, idleStates, armTs, e, entry, now, call);
    SourceNamed(r, Marks(anchors, writes), i, conv, u, lag, due);
  }

  // The source an armed device names, and its converted deadline within u of the true one.
  lemma SourceNamed(r: Run, ms: seq<Mark>, i: nat, conv: Conversion, u: Option<real>, lag: real, due: Source -> real)
    requires InOrder(ms) && i < |ms| && ms[i].Interrupt?
    requires Explains(r, ms, lag, due) && Accurate(ms, conv, u, due) && Separated(ms, conv, u, lag)
    ensures i < |r.src|
    ensures var st := NaiveAt(ms, ms[i].Ts(), conv, u);
            st.kind == Armed && st.pending.None? ==>
              && st.write.Some? && r.src[i] == {By(st.write.value)}
              && (u.Some? && st.d.Some? ==> st.d.value - u.value <= due(By(st.write.value)) <= st.d.value + u.value)
  {
    hide NaiveAt, Separated;
    ArmedNamesTheSource(r, ms, i, conv, u, lag, due);
    NaiveAtConverted(ms, ms[i].Ts(), conv, u);
  }

  lemma {:induction false} NaiveAtConverted(ms: seq<Mark>, t: real, conv: Conversion, u: Option<real>)
    ensures ArmedIsConverted(NaiveAt(ms, t, conv, u), conv) && ArmedByTrace(NaiveAt(ms, t, conv, u), ms)
  {
    if ms != [] { NaiveAtConverted(ms[..|ms| - 1], t, conv, u); }
  }
}

/** The timeline converting through the anchors. */
module AnchoredTimeline {
  import opened Basics
  import opened Timeline
  import opened TscConversion
  import Anchors

  function Through(pairs: seq<Anchors.Pair>): Conversion
    requires Ordered(pairs)
  {
    v => Mono(pairs, v)
  }

  // Every deadline written in the trace lies inside the anchors.
  ghost predicate InsideAnchors(ms: seq<Mark>, pairs: seq<Anchors.Pair>) {
    forall w: Write | Written(w) in ms && Arms(w) :: pairs != [] && pairs[0].tsc <= w.value <= pairs[|pairs| - 1].tsc
  }

  /** With every deadline of the trace inside the anchors and exactly converted through them, an
      armed device with nothing pending names the interrupt's source in every hardware run. */
  lemma ExactAnchorsNameTheSource(r: Run, ms: seq<Mark>, i: nat, pairs: seq<Anchors.Pair>, due: Source -> real)
    requires InOrder(ms) && i < |ms| && ms[i].Interrupt? && Ordered(pairs) && InsideAnchors(ms, pairs)
    requires Explains(r, ms, 0.0, due)
    requires forall w: Write | Written(w) in ms && Arms(w) :: due(By(w)) == Mono(pairs, w.value).value
    ensures var st := NaiveAt(ms, ms[i].Ts(), Through(pairs), Some(0.0));
            st.kind == Armed && st.pending.None? ==> st.write.Some? && r.src[i] == {By(st.write.value)}
  {
    hide Explains;
    ExactlyArmedNamesTheSource(r, ms, i, Through(pairs), due);
  }
}
